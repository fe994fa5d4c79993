/** Which lines are jobs, and what is read from them: five written fields or a nickname, and a command, any spacing. */
module CronJobs {
  import opened Options
  import opened JsText
  import opened Sequences
  import opened Crontab
  import opened CrontabLines
  import opened CronGrammar

  // ---------------------------------------------------------------- spacing

  /** What may stand between words: blanks and line ends of every kind. */
  const WHITE := " \t\n\r\U{000B}\U{000C}\U{00A0}\U{1680}\U{2028}\U{2029}\U{202F}\U{205F}\U{3000}\U{FEFF}"

  const NARROW :=
    "\U{2000}\U{2001}\U{2002}\U{2003}\U{2004}\U{2005}\U{2006}\U{2007}\U{2008}\U{2009}\U{200A}"

  lemma SpacesAreWhite(c: char)
    ensures IsSpace(c) <==> c in WHITE || c in NARROW
  {
  }

  predicate IsWhite(s: string) {
    forall i | 0 <= i < |s| :: IsSpace(s[i])
  }

  predicate AreGaps(gaps: seq<string>) {
    forall i | 0 <= i < |gaps| :: gaps[i] != [] && IsWhite(gaps[i])
  }

  /** Words, each with the gap behind it, and what follows them. */
  function Spread(words: seq<string>, gaps: seq<string>, rest: string): string
    requires |gaps| == |words|
    decreases |words|
  {
    if words == [] then rest else words[0] + (gaps[0] + Spread(words[1..], gaps[1..], rest))
  }

  lemma FirstGap(word: string, gap: string, after: string)
    requires Solid(word) && word != [] && gap != [] && IsWhite(gap) && after != [] && !IsSpace(after[0])
    ensures FirstWord(word + (gap + after)) == word && AfterWord(word + (gap + after)) == after
  {
    WordIsRead(word, gap + after);
    assert (word + (gap + after))[|word|..] == gap + after;
    BlanksAreTrimmed(gap, after);
  }

  lemma {:induction false} SpreadStartsSolid(words: seq<string>, gaps: seq<string>, rest: string)
    requires |gaps| == |words| && AreWords(words) && rest != [] && !IsSpace(rest[0])
    ensures Spread(words, gaps, rest) != [] && !IsSpace(Spread(words, gaps, rest)[0])
    ensures words != [] ==> Spread(words, gaps, rest)[0] == words[0][0]
  {
  }

  lemma TakenOnce(word: string, gap: string, after: string, n: nat, fields: seq<string>, rest: string)
    requires Solid(word) && word != [] && gap != [] && IsWhite(gap) && after != [] && !IsSpace(after[0])
    requires TakeFields(after, n) == Some((fields, rest))
    ensures TakeFields(word + (gap + after), n + 1) == Some(([word] + fields, rest))
  {
    FirstGap(word, gap, after);
  }

  lemma MoreWords(words: seq<string>, gaps: seq<string>)
    requires |gaps| == |words| > 0 && AreWords(words) && AreGaps(gaps)
    ensures AreWords(words[1..]) && AreGaps(gaps[1..])
  {
    assert forall i | 0 <= i < |words| - 1 :: words[1..][i] == words[i + 1] && gaps[1..][i] == gaps[i + 1];
  }

  lemma {:induction false} SpreadIsTaken(words: seq<string>, gaps: seq<string>, rest: string)
    requires |gaps| == |words| && AreWords(words) && AreGaps(gaps)
    requires rest != [] && !IsSpace(rest[0]) && OneLine(rest)
    ensures TakeFields(Spread(words, gaps, rest), |words|) == Some((words, rest))
    decreases |words|
  {
    if words != [] {
      var after := Spread(words[1..], gaps[1..], rest);
      MoreWords(words, gaps);
      SpreadIsTaken(words[1..], gaps[1..], rest);
      SpreadStartsSolid(words[1..], gaps[1..], rest);
      TakenOnce(words[0], gaps[0], after, |words| - 1, words[1..], rest);
      assert words == [words[0]] + words[1..];
    }
  }

  /** A word taken off the front leaves a gap and the rest. */
  lemma GapOf(s: string) returns (gap: string)
    requires FirstWord(s) != [] && AfterWord(s) != []
    ensures gap != [] && IsWhite(gap) && s == FirstWord(s) + (gap + AfterWord(s))
  {
    var k := |FirstWord(s)|;
    var n := TrimStartCuts(s[k..]);
    gap := s[k..][..n];
    assert s[k..] == gap + s[k..][n..];
    assert s == s[..k] + s[k..];
    FirstWordIsSolid(s);
    assert k < |s| && IsSpace(s[k]) && s[k..][0] == s[k];
  }

  lemma {:induction false} TakenIsSpread(s: string, n: nat, words: seq<string>, rest: string)
    returns (gaps: seq<string>)
    requires TakeFields(s, n) == Some((words, rest))
    ensures |gaps| == |words| == n && AreGaps(gaps) && s == Spread(words, gaps, rest)
    decreases n
  {
    if n == 0 {
      gaps := [];
    } else {
      var gap := GapOf(s);
      var more := TakenIsSpread(AfterWord(s), n - 1, words[1..], rest);
      gaps := [gap] + more;
      assert gaps[1..] == more && words[0] == FirstWord(s);
    }
  }

  // ---------------------------------------------------------------- five fields and a command

  function Printed(fields: seq<Field>): (words: seq<string>)
    ensures |words| == |fields|
  {
    seq(|fields|, i requires 0 <= i < |fields| => Print(fields[i]))
  }

  /** Five written fields, any white space between them and around the whole, and a command on one line. */
  ghost predicate FiveFieldText(text: string, fields: seq<Field>, command: string) {
    && |fields| == 5 && IsCommand(command)
    && exists lead: string, gaps: seq<string>, trail: string ::
         && IsWhite(lead) && IsWhite(trail) && |gaps| == 5 && AreGaps(gaps)
         && text == lead + Spread(Printed(fields), gaps, command) + trail
  }

  lemma PrintedAreFields(fields: seq<Field>)
    ensures AreWords(Printed(fields))
    ensures forall i | 0 <= i < |fields| :: IsCronField(Printed(fields)[i]) && FieldLike(Printed(fields)[i])
  {
    forall i | 0 <= i < |fields|
      ensures IsCronField(Printed(fields)[i]) && FieldLike(Printed(fields)[i]) && Solid(Printed(fields)[i])
    {
      PrintedFieldIsField(fields[i]);
      CronFieldIsFieldLike(Print(fields[i]));
      FieldLikeIsSolid(Print(fields[i]));
    }
  }

  lemma {:induction false} FieldsOf(words: seq<string>) returns (fields: seq<Field>)
    requires forall i | 0 <= i < |words| :: IsCronField(words[i])
    ensures Printed(fields) == words
  {
    if words == [] {
      fields := [];
    } else {
      var first := FieldOf(words[0]);
      var more := FieldsOf(words[1..]);
      fields := [first] + more;
    }
  }

  lemma {:induction false} TrailIsTrimmed(s: string, trail: string)
    requires s != [] && !IsSpace(s[|s| - 1]) && IsWhite(trail)
    ensures TrimEnd(s + trail) == s
    decreases |trail|
  {
    if trail == [] {
      assert s + trail == s;
    } else {
      var n := |trail| - 1;
      assert (s + trail)[..|s + trail| - 1] == s + trail[..n];
      TrailIsTrimmed(s, trail[..n]);
    }
  }

  lemma AroundIsTrimmed(lead: string, s: string, trail: string)
    requires s != [] && Trimmed(s) && IsWhite(lead) && IsWhite(trail)
    ensures TrimStart(lead + s + trail) == s + trail && Trim(lead + s + trail) == s
  {
    assert lead + s + trail == lead + (s + trail);
    BlanksAreTrimmed(lead, s + trail);
    TrailIsTrimmed(s, trail);
  }

  lemma {:induction false} SpreadIsTrimmed(words: seq<string>, gaps: seq<string>, rest: string)
    requires |gaps| == |words| && AreWords(words) && rest != [] && Trimmed(rest)
    ensures Spread(words, gaps, rest) != [] && Trimmed(Spread(words, gaps, rest))
    decreases |words|
  {
    if words != [] {
      assert forall i | 0 <= i < |words| - 1 :: words[1..][i] == words[i + 1];
      SpreadIsTrimmed(words[1..], gaps[1..], rest);
    }
  }

  /** The expression that is read: the five fields with single blanks between them. */
  function Expression(fields: seq<Field>): string
    requires |fields| == 5
  {
    Print(fields[0]) + " "
    + (Print(fields[1]) + " " + (Print(fields[2]) + " " + (Print(fields[3]) + " " + Print(fields[4]))))
  }

  lemma JoinedExpression(fields: seq<Field>)
    requires |fields| == 5
    ensures JoinWords(Printed(fields)) == Expression(fields)
  {
    var w := Printed(fields);
    JoinCons(w[3], [w[4]]);
    JoinCons(w[2], [w[3]] + [w[4]]);
    JoinCons(w[1], [w[2]] + ([w[3]] + [w[4]]));
    JoinCons(w[0], [w[1]] + ([w[2]] + ([w[3]] + [w[4]])));
    assert w == [w[0]] + ([w[1]] + ([w[2]] + ([w[3]] + [w[4]])));
  }

  lemma FiveFieldTextIsRead(text: string, fields: seq<Field>, command: string)
    requires FiveFieldText(text, fields, command)
    ensures ParseJob(text) == Some(JobText(Expression(fields), command)) && Trim(text) != [] && Trim(text)[0] != '@'
  {
    var words := Printed(fields);
    var lead: string, gaps: seq<string>, trail: string :|
      && IsWhite(lead) && IsWhite(trail) && |gaps| == 5 && AreGaps(gaps)
      && text == lead + Spread(Printed(fields), gaps, command) + trail;
    PrintedAreFields(fields);
    SpreadIsTrimmed(words, gaps, command);
    AroundIsTrimmed(lead, Spread(words, gaps, command), trail);
    SpreadStartsSolid(words, gaps, command);
    SpreadIsTaken(words, gaps, command);
    JoinedExpression(fields);
    assert FieldLike(words[0]);
  }

  lemma ReadTextHasFiveFields(text: string, expression: string, command: string) returns (fields: seq<Field>)
    requires ParseJob(text) == Some(JobText(expression, command)) && Trim(text)[0] != '@'
    ensures FiveFieldText(text, fields, command) && expression == Expression(fields)
  {
    var t := Trim(text);
    var lo, hi := TrimCuts(text);
    var (words, rest) := TakeFields(t, 5).value;
    TakenFields(t, 5, words, rest);
    var gaps := TakenIsSpread(t, 5, words, rest);
    fields := FieldsOf(words);
    JoinedExpression(fields);
    CutInThree(text, lo, hi);
    assert IsWhite(text[..lo]) && IsWhite(text[hi..]);
    assert text == text[..lo] + Spread(Printed(fields), gaps, command) + text[hi..];
  }

  /** A text that is no nickname is a job exactly when it is five written fields and a command, in any spacing. */
  lemma FiveFieldJobsExactlyWhen(text: string, expression: string, command: string)
    ensures (ParseJob(text) == Some(JobText(expression, command)) && Trim(text)[0] != '@')
       <==> exists fields: seq<Field> :: FiveFieldText(text, fields, command) && expression == Expression(fields)
  {
    if ParseJob(text) == Some(JobText(expression, command)) && Trim(text)[0] != '@' {
      var fields := ReadTextHasFiveFields(text, expression, command);
    }
    if fields: seq<Field> :| FiveFieldText(text, fields, command) && expression == Expression(fields) {
      FiveFieldTextIsRead(text, fields, command);
    }
  }

  // ---------------------------------------------------------------- nicknames

  const EIGHT: seq<string> :=
    ["@reboot", "@yearly", "@annually", "@monthly", "@weekly", "@daily", "@midnight", "@hourly"]

  /** The same letters, each small or large; the Kelvin sign counts as a k. */
  predicate Spells(s: string, word: string) {
    && |s| == |word|
    && forall i | 0 <= i < |s| :: SpellsChar(s[i], word[i])
  }

  predicate SpellsChar(c: char, d: char) {
    || c == d
    || (exists l: Letter :: SMALL[l] == d && LARGE[l] == c)
    || (d == 'k' && c == '\U{212A}')
  }

  lemma SpellsExactlyWhenLower(c: char, d: char)
    requires d == '@' || 'a' <= d <= 'z'
    ensures SpellsChar(c, d) <==> Lower(c) == d
  {
    if 'A' <= c <= 'Z' {
      var l: Letter := (c - 'A') as nat;
      SmallInOrder(l);
      LargeInOrder(l);
      forall k: Letter | LARGE[k] == c
        ensures k == l
      {
        LargeInOrder(k);
      }
    } else {
      forall k: Letter
        ensures LARGE[k] != c
      {
        LargeInOrder(k);
      }
    }
  }

  predicate SmallWord(word: string) {
    forall i | 0 <= i < |word| :: word[i] == '@' || 'a' <= word[i] <= 'z'
  }

  lemma {:induction false} LowerCaseSpells(s: string, word: string)
    requires SmallWord(word)
    ensures LowerCase(s) == word <==> Spells(s, word)
  {
    if |s| == |word| && s != [] {
      SpellsExactlyWhenLower(s[0], word[0]);
      LowerCaseSpells(s[1..], word[1..]);
      assert word == [word[0]] + word[1..];
      assert forall i | 0 <= i < |s| - 1 :: s[1..][i] == s[i + 1] && word[1..][i] == word[i + 1];
      assert Spells(s, word) <==> SpellsChar(s[0], word[0]) && Spells(s[1..], word[1..]) by {
        if SpellsChar(s[0], word[0]) && Spells(s[1..], word[1..]) {
          forall i | 0 <= i < |s|
            ensures SpellsChar(s[i], word[i])
          {
            if i > 0 {
              assert SpellsChar(s[1..][i - 1], word[1..][i - 1]);
            }
          }
        }
      }
    }
  }

  lemma EightAreSmall(k: nat)
    requires k < 8
    ensures SmallWord(EIGHT[k]) && EIGHT[k] != [] && EIGHT[k][0] == '@'
  {
  }

  lemma NicknamesAreTheEight(word: string)
    ensures word in NICKNAMES <==> word in EIGHT
  {
    if word in EIGHT {
      var k :| 0 <= k < |EIGHT| && EIGHT[k] == word;
      assert k == 0 || k == 1 || k == 2 || k == 3 || k == 4 || k == 5 || k == 6 || k == 7;
    } else {
      assert word != EIGHT[0] && word != EIGHT[1] && word != EIGHT[2] && word != EIGHT[3];
      assert word != EIGHT[4] && word != EIGHT[5] && word != EIGHT[6] && word != EIGHT[7];
    }
  }

  /** The nicknames are the eight, in any mixture of small and large letters. */
  lemma NicknamesExactlyWhenSpelt(s: string)
    ensures IsNickname(s) <==> exists k: nat | k < 8 :: Spells(s, EIGHT[k])
  {
    NicknamesAreTheEight(LowerCase(s));
    forall k: nat | k < 8
      ensures LowerCase(s) == EIGHT[k] <==> Spells(s, EIGHT[k])
    {
      EightAreSmall(k);
      LowerCaseSpells(s, EIGHT[k]);
    }
    if IsNickname(s) {
      var k :| 0 <= k < |EIGHT| && EIGHT[k] == LowerCase(s);
      assert Spells(s, EIGHT[k]);
    }
  }

  lemma {:induction false} WordsOfSpread(words: seq<string>, gaps: seq<string>, last: string)
    requires |gaps| == |words| && AreWords(words) && AreGaps(gaps) && last != [] && Solid(last)
    ensures Trimmed(Spread(words, gaps, last)) && Words(Spread(words, gaps, last)) == words + [last]
    decreases |words|
  {
    SpreadIsTrimmed(words, gaps, last);
    if words == [] {
      WordIsRead(last, []);
      assert last + [] == last && last[|last|..] == [];
    } else {
      var after := Spread(words[1..], gaps[1..], last);
      MoreWords(words, gaps);
      WordsOfSpread(words[1..], gaps[1..], last);
      SpreadStartsSolid(words[1..], gaps[1..], last);
      FirstGap(words[0], gaps[0], after);
      assert words + [last] == [words[0]] + (words[1..] + [last]);
    }
  }

  /** A nickname and the words of a command, any white space between them and around the whole. */
  ghost predicate NicknameText(text: string, nickname: string, words: seq<string>) {
    && (exists k: nat | k < 8 :: Spells(nickname, EIGHT[k]))
    && words != [] && AreWords(words)
    && exists lead: string, gaps: seq<string>, trail: string ::
         && IsWhite(lead) && IsWhite(trail) && |gaps| == |words| && AreGaps(gaps)
         && text == lead + Spread([nickname] + words[..|words| - 1], gaps, words[|words| - 1]) + trail
  }

  lemma NicknamesAreSolid(nickname: string, k: nat)
    requires k < 8 && Spells(nickname, EIGHT[k])
    ensures nickname != [] && Solid(nickname) && nickname[0] == '@' && IsNickname(nickname)
  {
    EightAreSmall(k);
    NicknamesExactlyWhenSpelt(nickname);
    forall i | 0 <= i < |nickname|
      ensures !IsSpace(nickname[i])
    {
      SpellsExactlyWhenLower(nickname[i], EIGHT[k][i]);
    }
    SpellsExactlyWhenLower(nickname[0], '@');
  }

  lemma FrontWords(nickname: string, words: seq<string>)
    requires words != [] && AreWords(words) && nickname != [] && Solid(nickname)
    ensures var front := [nickname] + words[..|words| - 1];
            && AreWords(front) && |front| == |words|
            && front + [words[|words| - 1]] == [nickname] + words
  {
    var front := [nickname] + words[..|words| - 1];
    assert forall i | 1 <= i < |front| :: front[i] == words[i - 1];
  }

  /** Such a text is read as the nickname as it is spelt and the words of the command with single blanks. */
  lemma NicknameTextIsRead(text: string, nickname: string, words: seq<string>)
    requires NicknameText(text, nickname, words)
    ensures ParseJob(text) == Some(JobText(nickname, JoinWords(words))) && Trim(text) != [] && Trim(text)[0] == '@'
  {
    var k: nat :| k < 8 && Spells(nickname, EIGHT[k]);
    var front, last := [nickname] + words[..|words| - 1], words[|words| - 1];
    var lead: string, gaps: seq<string>, trail: string :|
      && IsWhite(lead) && IsWhite(trail) && |gaps| == |words| && AreGaps(gaps)
      && text == lead + Spread([nickname] + words[..|words| - 1], gaps, words[|words| - 1]) + trail;
    NicknamesAreSolid(nickname, k);
    FrontWords(nickname, words);
    WordsOfSpread(front, gaps, last);
    SpreadIsTrimmed(front, gaps, last);
    SpreadStartsSolid(front, gaps, last);
    AroundIsTrimmed(lead, Spread(front, gaps, last), trail);
    assert ([nickname] + words)[1..] == words;
  }

  lemma {:induction false} WordsAreSpread(s: string) returns (gaps: seq<string>)
    requires s != [] && Trimmed(s)
    ensures Words(s) != [] && |gaps| == |Words(s)| - 1 && AreGaps(gaps)
    ensures s == Spread(Words(s)[..|Words(s)| - 1], gaps, Words(s)[|Words(s)| - 1])
    decreases |s|
  {
    var word, after := FirstWord(s), AfterWord(s);
    AfterWordShrinks(s);
    AfterWordIsTrimmed(s);
    if after == [] {
      gaps := [];
      OneWordIsAll(s);
      assert Words(s) == [word];
    } else {
      var gap := GapOf(s);
      var more := WordsAreSpread(after);
      gaps := [gap] + more;
      assert gaps[1..] == more;
      FrontAndLast(word, Words(after));
    }
  }

  lemma FrontAndLast(word: string, more: seq<string>)
    requires more != []
    ensures var all := [word] + more;
            all[..|all| - 1] == [word] + more[..|more| - 1] && all[|all| - 1] == more[|more| - 1]
            && all[..|all| - 1][1..] == more[..|more| - 1]
  {
  }

  lemma OneWordIsAll(s: string)
    requires s != [] && Trimmed(s) && AfterWord(s) == []
    ensures FirstWord(s) == s
  {
    var k := |FirstWord(s)|;
    var n := TrimStartCuts(s[k..]);
  }

  lemma ReadTextHasANickname(text: string, nickname: string, command: string) returns (words: seq<string>)
    requires ParseJob(text) == Some(JobText(nickname, command)) && Trim(text)[0] == '@'
    ensures NicknameText(text, nickname, words) && command == JoinWords(words)
  {
    var t := Trim(text);
    var lo, hi := TrimCuts(text);
    var gaps := WordsAreSpread(t);
    var all := Words(t);
    words := all[1..];
    WordsAreWords(t);
    NicknamesExactlyWhenSpelt(nickname);
    CutInThree(text, lo, hi);
    assert IsWhite(text[..lo]) && IsWhite(text[hi..]);
    RestAreWords(nickname, words);
    assert all == [nickname] + words;
    FrontAndLast(nickname, words);
    assert text == text[..lo] + Spread([nickname] + words[..|words| - 1], gaps, words[|words| - 1]) + text[hi..];
  }

  lemma RestAreWords(first: string, words: seq<string>)
    requires AreWords([first] + words)
    ensures AreWords(words)
  {
    assert forall i | 0 <= i < |words| :: words[i] == ([first] + words)[i + 1];
  }

  // ---------------------------------------------------------------- the line of a job

  ghost predicate JobWritten(text: string, expression: string, command: string) {
    || (exists fields: seq<Field> :: FiveFieldText(text, fields, command) && expression == Expression(fields))
    || (exists words: seq<string> :: NicknameText(text, expression, words) && command == JoinWords(words))
  }

  lemma SpreadIsNoAssignment(words: seq<string>, gaps: seq<string>, command: string, trail: string)
    requires |words| == |gaps| >= 2 && AreWords(words) && AreGaps(gaps) && command != [] && !IsSpace(command[0])
    requires FieldLike(words[0]) && FieldLike(words[1])
    ensures ParseEnv(Spread(words, gaps, command) + trail).None?
  {
    var after := Spread(words[1..], gaps[1..], command);
    MoreWords(words, gaps);
    SpreadStartsSolid(words[1..], gaps[1..], command);
    assert (after + trail)[0] == after[0] == words[1][0];
    FieldThenGapIsNoAssignment(words[0], gaps[0], after + trail);
    assert Spread(words, gaps, command) + trail == words[0] + (gaps[0] + (after + trail));
  }

  lemma FieldTextStarts(fields: seq<Field>, gaps: seq<string>, command: string)
    requires |fields| == |gaps| == 5 && AreGaps(gaps) && IsCommand(command)
    ensures var s := Spread(Printed(fields), gaps, command);
            && s != [] && Trimmed(s) && (IsDigit(s[0]) || IsLetter(s[0]) || s[0] == '*')
  {
    PrintedAreFields(fields);
    SpreadIsTrimmed(Printed(fields), gaps, command);
    SpreadStartsSolid(Printed(fields), gaps, command);
    assert FieldLike(Printed(fields)[0]);
  }

  /** Neither a delimiter nor a comment nor an assignment starts like a job. */
  lemma FiveFieldTextIsNoAssignment(text: string, fields: seq<Field>, command: string)
    requires FiveFieldText(text, fields, command)
    ensures ParseEnv(text).None? && Trim(text) != []
    ensures var c := Trim(text)[0]; IsDigit(c) || IsLetter(c) || c == '*'
  {
    var lead: string, gaps: seq<string>, trail: string :|
      && IsWhite(lead) && IsWhite(trail) && |gaps| == 5 && AreGaps(gaps)
      && text == lead + Spread(Printed(fields), gaps, command) + trail;
    var s := Spread(Printed(fields), gaps, command);
    FieldTextStarts(fields, gaps, command);
    AroundIsTrimmed(lead, s, trail);
    PrintedAreFields(fields);
    SpreadIsNoAssignment(Printed(fields), gaps, command, trail);
    assert TrimStart(s + trail) == s + trail;
    EnvLooksBehindBlanks(text, s + trail);
  }

  lemma EnvLooksBehindBlanks(raw: string, s: string)
    requires TrimStart(raw) == s && TrimStart(s) == s
    ensures ParseEnv(raw) == ParseEnv(s)
  {
  }

  lemma NicknameTextIsNoAssignment(text: string, nickname: string, words: seq<string>)
    requires NicknameText(text, nickname, words)
    ensures ParseEnv(text).None? && Trim(text) != [] && Trim(text)[0] == '@'
  {
    NicknameTextIsRead(text, nickname, words);
    FirstOfTrimmed(text);
  }

  lemma FirstOfTrimmed(s: string)
    requires Trim(s) != []
    ensures TrimStart(s) != [] && TrimStart(s)[0] == Trim(s)[0]
  {
    var n := TrimEndCuts(TrimStart(s));
  }

  lemma WrittenJobsAreRead(text: string, expression: string, command: string)
    requires JobWritten(text, expression, command)
    ensures ParseJob(text) == Some(JobText(expression, command)) && ParseEnv(text).None?
    ensures var t := Trim(text); t != [] && (IsDigit(t[0]) || IsLetter(t[0]) || t[0] == '*' || t[0] == '@')
  {
    if fields: seq<Field> :| FiveFieldText(text, fields, command) && expression == Expression(fields) {
      FiveFieldTextIsRead(text, fields, command);
      FiveFieldTextIsNoAssignment(text, fields, command);
    } else {
      var words: seq<string> :| NicknameText(text, expression, words) && command == JoinWords(words);
      NicknameTextIsRead(text, expression, words);
      NicknameTextIsNoAssignment(text, expression, words);
    }
  }

  /** What is read as a job is exactly what is written as one: five fields or a nickname, and a command. */
  lemma JobsExactlyWhenWritten(text: string, expression: string, command: string)
    ensures ParseJob(text) == Some(JobText(expression, command)) <==> JobWritten(text, expression, command)
  {
    if ParseJob(text) == Some(JobText(expression, command)) {
      if Trim(text)[0] == '@' {
        var words := ReadTextHasANickname(text, expression, command);
      } else {
        var fields := ReadTextHasFiveFields(text, expression, command);
      }
    }
    if JobWritten(text, expression, command) {
      WrittenJobsAreRead(text, expression, command);
    }
  }

  /** A line on which a job is written is that job, switched on, and managed where the block is open. */
  lemma WrittenLinesAreJobs(raw: string, expression: string, command: string, inManagedBlock: bool)
    requires JobWritten(raw, expression, command)
    ensures ParseLine(raw, inManagedBlock) == JobLine(raw, expression, command, true, inManagedBlock)
  {
    WrittenJobsAreRead(raw, expression, command);
    NoHashNoDelimiter(raw);
    EnabledLine(raw, JobText(expression, command), inManagedBlock);
  }

  lemma EnabledLine(raw: string, job: JobText, m: bool)
    requires Trim(raw) != [] && Trim(raw)[0] != '#' && !IsBegin(raw) && !IsEnd(raw)
    requires ParseEnv(raw).None? && ParseJob(raw) == Some(job)
    ensures ParseLine(raw, m) == JobLine(raw, job.expression, job.command, true, m)
  {
  }

  lemma NoHashNoDelimiter(raw: string)
    requires Trim(raw) != [] && Trim(raw)[0] != '#'
    ensures !IsBegin(raw) && !IsEnd(raw)
  {
    DelimitersStartWithAHash();
  }

  lemma DelimitersStartWithAHash()
    ensures MANAGED_BEGIN[0] == '#' && MANAGED_END[0] == '#'
  {
    assert BEGIN_1[0] == '#';
  }

  function Hashes(n: nat): string {
    if n == 0 then "" else "#" + Hashes(n - 1)
  }

  lemma {:induction false} HashesAreStripped(n: nat, after: string)
    requires after == [] || after[0] != '#'
    ensures StripHashes(Hashes(n) + after) == after
  {
    if n == 0 {
      assert Hashes(0) + after == after;
    } else {
      assert (Hashes(n) + after)[1..] == Hashes(n - 1) + after;
      HashesAreStripped(n - 1, after);
    }
  }

  lemma CommentedLine(raw: string, n: nat, cut: string, job: JobText, m: bool)
    requires n > 0 && cut != [] && cut[0] != '#' && Trim(raw) == Hashes(n) + cut
    requires ParseJob(TrimStart(cut)) == Some(job) && !IsBegin(raw) && !IsEnd(raw)
    ensures ParseLine(raw, m) == JobLine(raw, job.expression, job.command, false, m)
  {
    HashesAreStripped(n, cut);
    assert Trim(raw)[0] == '#';
  }

  /** The same behind any number of hash signs is that job, switched off. */
  lemma CommentedLinesAreJobs(lead: string, n: nat, text: string, expression: string, command: string, m: bool)
    requires IsWhite(lead) && n > 0 && JobWritten(text, expression, command)
    ensures var raw := lead + (Hashes(n) + text);
            ParseLine(raw, m) == JobLine(raw, expression, command, false, m)
  {
    var raw, cut := lead + (Hashes(n) + text), TrimEnd(text);
    WrittenJobsAreRead(text, expression, command);
    EndOfCommented(lead, n, text);
    SameJob(text, cut);
    CommentedIsNoDelimiter(n, cut);
    CommentedLine(raw, n, cut, JobText(expression, command), m);
  }

  lemma EndOfCommented(lead: string, n: nat, text: string)
    requires IsWhite(lead) && n > 0 && Trim(text) != []
    ensures Trim(lead + (Hashes(n) + text)) == Hashes(n) + TrimEnd(text)
  {
    var lo := TrimStartCuts(text);
    var k := TrimEndCuts(text);
    if k == 0 {
      AllBlankIsTrimmed(text);
    } else {
      EndsOfCommented(lead, n, text, k);
    }
  }

  lemma AllBlankIsTrimmed(s: string)
    requires IsWhite(s)
    ensures Trim(s) == []
  {
    assert s + [] == s;
    BlanksAreTrimmed(s, []);
  }

  /** Trimming a commented line trims what stands behind the hash signs. */
  lemma EndsOfCommented(lead: string, n: nat, text: string, k: nat)
    requires IsWhite(lead) && n > 0 && 0 < k <= |text| && !IsSpace(text[k - 1]) && TrimEnd(text) == text[..k]
    requires forall i | k <= i < |text| :: IsSpace(text[i])
    ensures Trim(lead + (Hashes(n) + text)) == Hashes(n) + TrimEnd(text)
  {
    var cut, trail := text[..k], text[k..];
    CutInThree(text, 0, k);
    AppendedApart(lead, Hashes(n), cut, trail);
    HashedIsTrimmed(n, cut);
    AroundIsTrimmed(lead, Hashes(n) + cut, trail);
  }

  lemma AppendedApart(a: string, b: string, c: string, d: string)
    ensures a + (b + (c + d)) == a + (b + c) + d
  {
  }

  lemma HashedIsTrimmed(n: nat, cut: string)
    requires n > 0 && cut != [] && !IsSpace(cut[|cut| - 1])
    ensures Hashes(n) + cut != [] && Trimmed(Hashes(n) + cut)
  {
  }

  lemma SameJob(text: string, cut: string)
    requires cut == TrimEnd(text) && Trim(text) != []
    ensures ParseJob(TrimStart(cut)) == ParseJob(text) && TrimStart(cut) == Trim(text)
    ensures cut != [] && (cut[0] != '#' || Trim(text)[0] == '#')
  {
    var lo := TrimStartCuts(text);
    var hi := TrimEndCuts(text);
    assert lo < |text| by {
      assert lo == |text| ==> TrimStart(text) == [];
    }
    TrimBothWays(text, lo, hi);
    TrimIsTrimmed(text);
    TrimOfTrimmed(Trim(text));
    if lo == 0 {
      assert Trim(text)[0] == cut[0];
    } else {
      assert cut[0] == text[0] && IsSpace(text[0]);
    }
  }

  lemma TrimBothWays(s: string, lo: nat, hi: nat)
    requires lo < |s| && hi <= |s| && !IsSpace(s[lo])
    requires forall i | 0 <= i < lo :: IsSpace(s[i])
    requires forall i | hi <= i < |s| :: IsSpace(s[i])
    requires hi > 0 ==> !IsSpace(s[hi - 1])
    ensures lo < hi && Trim(s) == s[lo..hi] && TrimStart(s[..hi]) == s[lo..hi]
  {
    CutsDoNotCross(s, lo, hi);
    var lead, body := s[..lo], s[lo..hi];
    assert s == lead + body + s[hi..] && s[..hi] == lead + body;
    AroundIsTrimmed(lead, body, s[hi..]);
    BlanksAreTrimmed(lead, body);
  }

  lemma CutsDoNotCross(s: string, lo: nat, hi: nat)
    requires lo < |s| && !IsSpace(s[lo]) && hi <= |s|
    requires forall i | hi <= i < |s| :: IsSpace(s[i])
    requires hi > 0 ==> !IsSpace(s[hi - 1])
    ensures lo < hi && s[lo..hi] != [] && Trimmed(s[lo..hi])
  {
  }

  lemma CommentedIsNoDelimiter(n: nat, cut: string)
    requires n > 0 && cut != [] && cut[0] != '#'
    requires var t := TrimStart(cut); t != [] && t[0] != '>' && t[0] != '<'
    ensures Hashes(n) + cut != MANAGED_BEGIN && Hashes(n) + cut != MANAGED_END
  {
    HashesAreStripped(n, cut);
    BeginBehindTheHash();
    EndBehindTheHash();
  }

  lemma BehindOneHash(s: string)
    requires |s| > 2 && s[0] == '#' && s[1] == ' ' && s[2] != '#' && !IsSpace(s[2])
    ensures TrimStart(StripHashes(s)) == s[2..] && s[2..] != [] && s[2..][0] == s[2]
  {
    UncommentedLine(s[2..]);
    assert s == "# " + s[2..];
  }

  lemma BeginBehindTheHash()
    ensures var t := TrimStart(StripHashes(MANAGED_BEGIN)); t != [] && t[0] == '>'
  {
    assert BEGIN_1[0] == '#' && BEGIN_1[1] == ' ' && BEGIN_1[2] == '>';
    BehindOneHash(MANAGED_BEGIN);
  }

  lemma EndBehindTheHash()
    ensures var t := TrimStart(StripHashes(MANAGED_END)); t != [] && t[0] == '<'
  {
    assert MANAGED_END[0] == '#' && MANAGED_END[1] == ' ' && MANAGED_END[2] == '<';
    BehindOneHash(MANAGED_END);
  }

  // ---------------------------------------------------------------- the line of an assignment

  predicate IsVariableName(name: string) {
    && name != [] && IsNameStart(name[0])
    && forall i | 0 <= i < |name| :: IsNameChar(name[i])
  }

  lemma {:induction false} NameIsTaken(name: string, tail: string)
    requires (forall i | 0 <= i < |name| :: IsNameChar(name[i])) && (tail == [] || !IsNameChar(tail[0]))
    ensures NamePrefix(name + tail) == name
  {
    if name == [] {
      assert name + tail == tail;
    } else {
      assert (name + tail)[1..] == name[1..] + tail;
      assert forall i | 0 <= i < |name| - 1 :: name[1..][i] == name[i + 1];
      NameIsTaken(name[1..], tail);
      assert name == [name[0]] + name[1..];
    }
  }

  lemma ValueIsTaken(gap: string, blank: string, value: string)
    requires IsWhite(gap) && IsWhite(blank) && (value == [] || !IsSpace(value[0]))
    ensures var rest := gap + ("=" + (blank + value));
            && rest != [] && !IsNameChar(rest[0])
            && TrimStart(rest) != [] && TrimStart(rest)[0] == '=' && TrimStart(TrimStart(rest)[1..]) == value
  {
    var after := "=" + (blank + value);
    BlanksAreTrimmed(gap, after);
    assert after[1..] == blank + value;
    BlanksAreTrimmed(blank, value);
  }

  /** A name, an equals sign and a value on one line are an assignment, with white space around each of them. */
  lemma AssignmentsAreRead(lead: string, name: string, gap: string, blank: string, value: string, m: bool)
    requires IsWhite(lead) && IsVariableName(name) && IsWhite(gap) && IsWhite(blank)
    requires OneLine(value) && (value == [] || !IsSpace(value[0]))
    ensures var raw := lead + (name + (gap + ("=" + (blank + value))));
            ParseLine(raw, m) == Env(raw, name, value)
  {
    var rest := gap + ("=" + (blank + value));
    var s := name + rest;
    ValueIsTaken(gap, blank, value);
    NameIsTaken(name, rest);
    BlanksAreTrimmed(lead, s);
    assert s[|name|..] == rest;
    AssignmentIsNoComment(lead + s, s);
  }

  lemma AssignmentIsNoComment(raw: string, s: string)
    requires TrimStart(raw) == s && s != [] && IsNameStart(s[0])
    ensures Trim(raw) != [] && Trim(raw)[0] != '#' && !IsBegin(raw) && !IsEnd(raw) && !LooksLikeASchedule(raw)
  {
    var n := TrimEndCuts(s);
    assert n > 0;
    assert Trim(raw)[0] == s[0];
    NoHashNoDelimiter(raw);
  }
}
