/**
 * Rendering and re-reading one line. Whatever `ParseJob` can yield has a recognisable shape, and a line rendered
 * from that shape is read back as exactly the same job.
 */
module CrontabLines {
  import opened Options
  import opened JsText
  import opened Crontab

  // ---------------------------------------------------------------- the shape of a job

  predicate OneLine(s: string) {
    forall i | 0 <= i < |s| :: !IsLineTerminator(s[i])
  }

  predicate AreFields(fields: seq<string>) {
    |fields| == 5 && forall i | 0 <= i < |fields| :: IsCronField(fields[i])
  }

  /** Five fields of the grammar, joined by single blanks. */
  predicate IsFiveFields(expression: string) {
    Trimmed(expression) && AreFields(Words(expression)) && expression == JoinWords(Words(expression))
  }

  /** A command as it stands after five fields: on one line, without white space at its ends. */
  predicate IsCommand(command: string) {
    command != [] && Trimmed(command) && OneLine(command)
  }

  /** A command as it stands after a nickname: words separated by single blanks. */
  predicate IsWordCommand(command: string) {
    command != [] && Trimmed(command) && command == JoinWords(Words(command))
  }

  predicate IsNicknameWord(expression: string) {
    expression != [] && expression[0] == '@' && Solid(expression) && IsNickname(expression)
  }

  /** What `parseJob` yields, and nothing else. */
  predicate JobShaped(expression: string, command: string) {
    || (IsFiveFields(expression) && IsCommand(command))
    || (IsNicknameWord(expression) && IsWordCommand(command))
  }

  predicate EntryShaped(entry: Entry) {
    JobShaped(entry.expression, entry.command)
  }

  // ---------------------------------------------------------------- characters of a field

  predicate IsFieldChar(c: char) {
    IsDigit(c) || IsLetter(c) || c == '*' || c == '-' || c == '/' || c == ','
  }

  predicate FieldChars(s: string) {
    forall i | 0 <= i < |s| :: IsFieldChar(s[i])
  }

  predicate FieldLike(s: string) {
    && s != []
    && FieldChars(s)
    && (IsDigit(s[0]) || IsLetter(s[0]) || s[0] == '*')
  }

  lemma ValueIsFieldLike(s: string)
    requires IsValue(s)
    ensures FieldLike(s)
  {
  }

  lemma SplitIsFieldLike(s: string, i: nat)
    requires i < |s| && (s[i] == '-' || s[i] == '/' || s[i] == ',')
    requires FieldLike(s[..i]) && FieldChars(s[i + 1..])
    ensures FieldLike(s)
  {
    forall k | 0 <= k < |s|
      ensures IsFieldChar(s[k])
    {
      if k < i {
        assert s[k] == s[..i][k];
      } else if k > i {
        assert s[k] == s[i + 1..][k - i - 1];
      }
    }
    assert s[0] == s[..i][0];
  }

  lemma RangeIsFieldLike(s: string)
    requires IsRange(s)
    ensures FieldLike(s)
  {
    if s != "*" && !IsValue(s) {
      var i :| 0 <= i < |s| && s[i] == '-' && IsValue(s[..i]) && IsValue(s[i + 1..]);
      ValueIsFieldLike(s[..i]);
      ValueIsFieldLike(s[i + 1..]);
      SplitIsFieldLike(s, i);
    }
  }

  lemma ElementIsFieldLike(s: string)
    requires IsElement(s)
    ensures FieldLike(s)
  {
    if IsRange(s) {
      RangeIsFieldLike(s);
    } else {
      var i :| 0 <= i < |s| && s[i] == '/' && IsRange(s[..i]) && IsStep(s[i + 1..]);
      RangeIsFieldLike(s[..i]);
      SplitIsFieldLike(s, i);
    }
  }

  lemma {:induction false} CronFieldIsFieldLike(s: string)
    requires IsCronField(s)
    ensures FieldLike(s)
    decreases |s|
  {
    if IsElement(s) {
      ElementIsFieldLike(s);
    } else {
      var i :| 0 <= i < |s| && s[i] == ',' && IsElement(s[..i]) && IsCronField(s[i + 1..]);
      ElementIsFieldLike(s[..i]);
      CronFieldIsFieldLike(s[i + 1..]);
      SplitIsFieldLike(s, i);
    }
  }

  lemma FieldLikeIsSolid(s: string)
    requires FieldLike(s)
    ensures Solid(s) && OneLine(s)
  {
    assert forall c: char :: IsFieldChar(c) ==> !IsSpace(c) && !IsLineTerminator(c);
  }

  // ---------------------------------------------------------------- what ParseJob yields is shaped

  lemma {:induction false} TakenFields(s: string, n: nat, fields: seq<string>, rest: string)
    requires Trimmed(s) && TakeFields(s, n) == Some((fields, rest))
    ensures |fields| == n && AreWords(fields)
    ensures rest != [] && Trimmed(rest) && OneLine(rest)
    decreases n
  {
    if n > 0 {
      AfterWordIsTrimmed(s);
      FirstWordIsSolid(s);
      TakenFields(AfterWord(s), n - 1, fields[1..], rest);
      assert fields == [FirstWord(s)] + fields[1..];
    }
  }

  lemma ParsedJobsAreShaped(text: string)
    requires ParseJob(text).Some?
    ensures JobShaped(ParseJob(text).value.expression, ParseJob(text).value.command)
  {
    var t := Trim(text);
    var job := ParseJob(text).value;
    TrimIsTrimmed(text);
    if t[0] == '@' {
      var words := Words(t);
      WordsAreWords(t);
      assert AreWords(words[1..]) by {
        assert forall i | 0 <= i < |words| - 1 :: words[1..][i] == words[i + 1];
      }
      JoinedWordsAreTrimmed(words[1..]);
      WordsOfJoined(words[1..]);
      assert words[0] == FirstWord(t) && words[0][0] == '@';
    } else {
      var (fields, command) := TakeFields(t, 5).value;
      TakenFields(t, 5, fields, command);
      JoinedWordsAreTrimmed(fields);
      WordsOfJoined(fields);
    }
  }

  // ---------------------------------------------------------------- a shaped job is read back

  lemma OneFieldIsTaken(field: string, after: string, n: nat, fields: seq<string>, rest: string)
    requires field != [] && Solid(field) && after != [] && !IsSpace(after[0])
    requires TakeFields(after, n) == Some((fields, rest))
    ensures TakeFields(field + " " + after, n + 1) == Some(([field] + fields, rest))
  {
    WordThenRest(field, after);
  }

  lemma {:induction false} FieldsAreTaken(fields: seq<string>, rest: string)
    requires AreWords(fields) && fields != [] && rest != [] && !IsSpace(rest[0]) && OneLine(rest)
    ensures TakeFields(JoinWords(fields) + " " + rest, |fields|) == Some((fields, rest))
    decreases |fields|
  {
    if |fields| == 1 {
      assert TakeFields(rest, 0) == Some(([], rest));
      OneFieldIsTaken(fields[0], rest, 0, [], rest);
      assert fields == [fields[0]] + [];
    } else {
      var more := fields[1..];
      assert AreWords(more) by {
        assert forall i | 0 <= i < |more| :: more[i] == fields[i + 1];
      }
      FieldsAreTaken(more, rest);
      JoinedWordsAreTrimmed(more);
      var after := JoinWords(more) + " " + rest;
      assert after[0] == JoinWords(more)[0];
      OneFieldIsTaken(fields[0], after, |more|, more, rest);
      assert JoinWords(fields) + " " + rest == fields[0] + " " + after;
      assert fields == [fields[0]] + more;
    }
  }

  lemma ShapedLineIsTrimmed(expression: string, command: string)
    requires JobShaped(expression, command)
    ensures var s := expression + " " + command; Trimmed(s) && Trim(s) == s
    ensures expression != [] && !IsSpace(expression[0]) && expression[0] != '#'
  {
    var s := expression + " " + command;
    if IsFiveFields(expression) && IsCommand(command) {
      var fields := Words(expression);
      WordsAreWords(expression);
      JoinedWordsAreTrimmed(fields);
      CronFieldIsFieldLike(fields[0]);
    }
    assert s[0] == expression[0];
    assert s[|s| - 1] == command[|command| - 1];
    TrimOfTrimmed(s);
  }

  lemma FiveFieldsAreReadBack(expression: string, command: string)
    requires IsFiveFields(expression) && IsCommand(command)
    ensures ParseJob(expression + " " + command) == Some(JobText(expression, command))
  {
    var s := expression + " " + command;
    ShapedLineIsTrimmed(expression, command);
    var fields := Words(expression);
    WordsAreWords(expression);
    JoinedWordsAreTrimmed(fields);
    CronFieldIsFieldLike(fields[0]);
    assert s[0] == fields[0][0];
    FieldsAreTaken(fields, command);
  }

  /**
   * Behind a nickname a command is read word by word: runs of white space inside it collapse. So a five-field job
   * given a nickname keeps its command, and with it its identity, exactly when its words are single-spaced.
   */
  lemma NicknameCollapsesSpacing(expression: string, command: string)
    requires IsNicknameWord(expression) && command != [] && Trimmed(command)
    ensures ParseJob(expression + " " + command) == Some(JobText(expression, JoinWords(Words(command))))
  {
    var s := expression + " " + command;
    assert s[0] == expression[0];
    assert s[|s| - 1] == command[|command| - 1];
    TrimOfTrimmed(s);
    WordThenRest(expression, command);
    assert Words(s) == [expression] + Words(command);
    WordsAreWords(command);
    assert Words(s)[1..] == Words(command);
  }

  lemma ZeroAndStarAreFields()
    ensures IsCronField("0") && IsCronField("*")
  {
    assert IsValue("0") && IsRange("0") && IsElement("0");
    assert IsRange("*") && IsElement("*");
  }

  lemma JoinCons(word: string, words: seq<string>)
    requires words != []
    ensures JoinWords([word] + words) == word + " " + JoinWords(words)
  {
    assert ([word] + words)[1..] == words;
  }

  lemma JoinedDaily()
    ensures JoinWords(["0", "0", "*", "*", "*"]) == "0 0 * * *"
  {
    JoinCons("*", ["*"]);
    JoinCons("*", ["*", "*"]);
    JoinCons("0", ["*", "*", "*"]);
    JoinCons("0", ["0", "*", "*", "*"]);
    assert ["*"] + ["*"] == ["*", "*"];
    assert ["*"] + ["*", "*"] == ["*", "*", "*"];
    assert ["0"] + ["*", "*", "*"] == ["0", "*", "*", "*"];
    assert ["0"] + ["0", "*", "*", "*"] == ["0", "0", "*", "*", "*"];
  }

  lemma DailyFields()
    ensures IsFiveFields("0 0 * * *")
  {
    ZeroAndStarAreFields();
    JoinedDaily();
    WordsOfJoined(["0", "0", "*", "*", "*"]);
  }

  lemma SpacedIsACommand()
    ensures IsCommand("a  b")
  {
  }

  lemma SpacedWords()
    ensures Words("a  b") == ["a", "b"] && JoinWords(["a", "b"]) == "a b"
  {
    WordIsRead("a", "  b");
    assert "a" + "  b" == "a  b";
    assert "a  b"[1..] == "  b" && "  b"[1..] == " b" && " b"[1..] == "b";
    WordIsRead("b", []);
    assert "b" + [] == "b" && "b"[1..] == [];
    assert Words("b") == ["b"];
    assert ["a", "b"][1..] == ["b"];
  }

  lemma DailyIsANickname()
    ensures IsNicknameWord("@daily")
  {
    LowerStaysLower("@daily");
  }

  lemma SpacedAfterFiveFields()
    ensures ParseJob("0 0 * * *" + " " + "a  b") == Some(JobText("0 0 * * *", "a  b"))
  {
    DailyFields();
    SpacedIsACommand();
    FiveFieldsAreReadBack("0 0 * * *", "a  b");
  }

  lemma SpacedAfterANickname()
    ensures ParseJob("@daily" + " " + "a  b") == Some(JobText("@daily", "a b"))
  {
    DailyIsANickname();
    NicknameCollapsesSpacing("@daily", "a  b");
    SpacedWords();
  }

  /** A command with a double blank, on a daily schedule written in five fields and then as a nickname. */
  lemma ANicknameChangesACommand()
    ensures ParseJob("0 0 * * *" + " " + "a  b") == Some(JobText("0 0 * * *", "a  b"))
    ensures ParseJob("@daily" + " " + "a  b") == Some(JobText("@daily", "a b"))
  {
    SpacedAfterFiveFields();
    SpacedAfterANickname();
  }

  lemma ShapedJobsAreReadBack(expression: string, command: string)
    requires JobShaped(expression, command)
    ensures ParseJob(expression + " " + command) == Some(JobText(expression, command))
  {
    if IsFiveFields(expression) && IsCommand(command) {
      FiveFieldsAreReadBack(expression, command);
    } else {
      NicknameCollapsesSpacing(expression, command);
    }
  }

  /**
   * An expression and a command are read back from the line made of them exactly when some text parses to them:
   * the shape is the whole of what the parser can yield.
   */
  lemma ReadBackExactlyWhenShaped(expression: string, command: string)
    ensures ParseJob(expression + " " + command) == Some(JobText(expression, command))
            <==> JobShaped(expression, command)
    ensures JobShaped(expression, command) <==> exists text :: ParseJob(text) == Some(JobText(expression, command))
  {
    if JobShaped(expression, command) {
      ShapedJobsAreReadBack(expression, command);
    }
    if text :| ParseJob(text) == Some(JobText(expression, command)) {
      ParsedJobsAreShaped(text);
    }
  }

  lemma {:induction false} JoinedWordsAreOneLine(words: seq<string>)
    requires AreWords(words)
    ensures OneLine(JoinWords(words)) && '\n' !in JoinWords(words)
  {
    assert forall c: char :: IsLineTerminator(c) ==> IsSpace(c);
    if words != [] {
      assert AreWords(words[1..]) by {
        assert forall i | 0 <= i < |words| - 1 :: words[1..][i] == words[i + 1];
      }
      JoinedWordsAreOneLine(words[1..]);
      assert OneLine(words[0]) && '\n' !in words[0];
    }
  }

  lemma WordCommandIsCommand(command: string)
    requires IsWordCommand(command)
    ensures IsCommand(command)
  {
    WordsAreWords(command);
    JoinedWordsAreOneLine(Words(command));
  }

  lemma FiveFieldsAreNoNickname(expression: string)
    requires IsFiveFields(expression)
    ensures expression != [] && expression[0] != '@'
  {
    WordsAreWords(expression);
    JoinedWordsAreTrimmed(Words(expression));
    CronFieldIsFieldLike(Words(expression)[0]);
  }

  /**
   * A command that was read takes any new five-field schedule; a nickname it takes exactly when its words are
   * single-spaced.
   */
  lemma NewExpressionFits(expression: string, current: string, command: string)
    requires JobShaped(current, command)
    ensures IsFiveFields(expression) ==> JobShaped(expression, command)
    ensures IsNicknameWord(expression) ==> (JobShaped(expression, command) <==> command == JoinWords(Words(command)))
  {
    if IsWordCommand(command) {
      WordCommandIsCommand(command);
    }
    if IsFiveFields(expression) {
      FiveFieldsAreNoNickname(expression);
    }
  }

  // ---------------------------------------------------------------- a rendered entry is read back

  lemma {:induction false} NamePrefixStops(field: string, tail: string)
    requires FieldChars(field) && tail != [] && !IsNameChar(tail[0])
    ensures |NamePrefix(field + tail)| <= |field|
    ensures |NamePrefix(field + tail)| < |field| ==> !IsNameChar(field[|NamePrefix(field + tail)|])
  {
    if field == [] {
      assert field + tail == tail;
    } else if IsNameChar(field[0]) {
      assert (field + tail)[1..] == field[1..] + tail;
      NamePrefixStops(field[1..], tail);
      assert NamePrefix(field + tail) == [field[0]] + NamePrefix(field[1..] + tail);
    }
  }

  lemma {:induction false} BlanksAreTrimmed(gap: string, after: string)
    requires (forall i | 0 <= i < |gap| :: IsSpace(gap[i])) && (after == [] || !IsSpace(after[0]))
    ensures TrimStart(gap + after) == after
  {
    if gap == [] {
      assert gap + after == after;
    } else {
      assert (gap + after)[1..] == gap[1..] + after;
      BlanksAreTrimmed(gap[1..], after);
    }
  }

  /** A field and anything but an equals sign behind white space rule an assignment out. */
  lemma FieldThenGapIsNoAssignment(field: string, gap: string, after: string)
    requires FieldLike(field) && after != [] && !IsSpace(after[0]) && after[0] != '='
    requires gap != [] && forall i | 0 <= i < |gap| :: IsSpace(gap[i])
    ensures ParseEnv(field + (gap + after)).None?
  {
    var s, tail := field + (gap + after), gap + after;
    assert !IsSpace(s[0]) && TrimStart(s) == s;
    NamePrefixStops(field, tail);
    var n := |NamePrefix(s)|;
    var rest := s[n..];
    if n < |field| {
      assert rest[0] == field[n] && IsFieldChar(rest[0]);
      assert TrimStart(rest) == rest;
    } else {
      assert rest == tail;
      BlanksAreTrimmed(gap, after);
    }
  }

  /** Two words of the schedule grammar at the start of a line rule an assignment out. */
  lemma FieldsAreNoAssignment(field: string, after: string)
    requires FieldLike(field) && after != [] && !IsSpace(after[0]) && after[0] != '='
    ensures ParseEnv(field + " " + after).None?
  {
    FieldThenGapIsNoAssignment(field, " ", after);
    assert field + " " + after == field + (" " + after);
  }

  lemma FiveFieldsAreNoAssignment(expression: string, command: string)
    requires IsFiveFields(expression) && command != []
    ensures ParseEnv(expression + " " + command).None?
  {
    var fields := Words(expression);
    var more := fields[1..];
    WordsAreWords(expression);
    assert AreWords(more) by {
      assert forall i | 0 <= i < |more| :: more[i] == fields[i + 1];
    }
    JoinedWordsAreTrimmed(more);
    FirstTwoFields(fields);
    FieldsThenCommand(fields[0], JoinWords(more), command);
  }

  lemma FieldsThenCommand(field: string, more: string, command: string)
    requires FieldLike(field) && more != [] && !IsSpace(more[0]) && more[0] != '='
    ensures ParseEnv(field + " " + more + " " + command).None?
  {
    var after := more + " " + command;
    FieldsAreNoAssignment(field, after);
    assert field + " " + more + " " + command == field + " " + after;
  }

  lemma FirstTwoFields(fields: seq<string>)
    requires AreFields(fields)
    ensures FieldLike(fields[0]) && FieldLike(fields[1]) && !IsSpace(fields[1][0]) && fields[1][0] != '='
  {
    CronFieldIsFieldLike(fields[0]);
    CronFieldIsFieldLike(fields[1]);
    FieldLikeIsSolid(fields[1]);
  }

  lemma ShapedJobsAreNoAssignments(expression: string, command: string)
    requires JobShaped(expression, command)
    ensures ParseEnv(expression + " " + command).None?
  {
    if IsFiveFields(expression) && IsCommand(command) {
      FiveFieldsAreNoAssignment(expression, command);
    } else {
      var s := expression + " " + command;
      assert s[0] == '@' && TrimStart(s) == s;
    }
  }

  lemma BeginIsOneLine()
    ensures '\n' !in MANAGED_BEGIN
    ensures MANAGED_BEGIN != [] && MANAGED_BEGIN[|MANAGED_BEGIN| - 1] == '>'
  {
    assert '\n' !in BEGIN_1;
    assert '\n' !in BEGIN_2;
    assert '\n' !in BEGIN_3;
    assert BEGIN_3[|BEGIN_3| - 1] == '>';
  }

  lemma BeginStarts()
    ensures |MANAGED_BEGIN| > 2 && MANAGED_BEGIN[0] == '#' && MANAGED_BEGIN[2] == '>'
  {
    assert |BEGIN_1| > 2 && BEGIN_1[0] == '#' && BEGIN_1[2] == '>';
    assert MANAGED_BEGIN[0] == BEGIN_1[0] && MANAGED_BEGIN[2] == BEGIN_1[2];
  }

  lemma EndIsOneLine()
    ensures '\n' !in MANAGED_END
    ensures |MANAGED_END| > 2 && MANAGED_END[0] == '#' && MANAGED_END[2] == '<' && MANAGED_END[|MANAGED_END| - 1] == '<'
  {
  }

  /** The delimiters are told from each other and from any entry by their third character. */
  lemma DelimitersDiffer()
    ensures |MANAGED_BEGIN| > 2 && MANAGED_BEGIN[0] == '#' && MANAGED_BEGIN[2] == '>'
    ensures |MANAGED_END| > 2 && MANAGED_END[0] == '#' && MANAGED_END[2] == '<'
    ensures Trimmed(MANAGED_BEGIN) && Trimmed(MANAGED_END)
    ensures '\n' !in MANAGED_BEGIN && '\n' !in MANAGED_END
    ensures MANAGED_BEGIN != MANAGED_END
  {
    BeginIsOneLine();
    BeginStarts();
    EndIsOneLine();
  }

  lemma ShapedStart(expression: string, command: string)
    requires JobShaped(expression, command)
    ensures expression[0] != '>' && expression[0] != '<'
  {
    if IsFiveFields(expression) && IsCommand(command) {
      WordsAreWords(expression);
      JoinedWordsAreTrimmed(Words(expression));
      CronFieldIsFieldLike(Words(expression)[0]);
    }
  }

  lemma EnabledEntryIsReadBack(entry: Entry, inManagedBlock: bool)
    requires EntryShaped(entry) && entry.enabled
    ensures var raw := RenderEntry(entry);
            && ParseLine(raw, inManagedBlock) == JobLine(raw, entry.expression, entry.command, true, inManagedBlock)
            && !IsBegin(raw) && !IsEnd(raw)
  {
    var raw := RenderEntry(entry);
    DelimitersDiffer();
    ShapedLineIsTrimmed(entry.expression, entry.command);
    assert raw[0] == entry.expression[0];
    ShapedJobsAreReadBack(entry.expression, entry.command);
    ShapedJobsAreNoAssignments(entry.expression, entry.command);
  }

  lemma DisabledEntryIsReadBack(entry: Entry, inManagedBlock: bool)
    requires EntryShaped(entry) && !entry.enabled
    ensures var raw := RenderEntry(entry);
            && ParseLine(raw, inManagedBlock) == JobLine(raw, entry.expression, entry.command, false, inManagedBlock)
            && !IsBegin(raw) && !IsEnd(raw)
  {
    var raw := RenderEntry(entry);
    var line := entry.expression + " " + entry.command;
    DelimitersDiffer();
    ShapedStart(entry.expression, entry.command);
    ShapedLineIsTrimmed(entry.expression, entry.command);
    assert raw == "# " + line && raw[2] == entry.expression[0] && line[0] == entry.expression[0];
    assert raw[|raw| - 1] == line[|line| - 1];
    TrimOfTrimmed(raw);
    UncommentedLine(line);
    ShapedJobsAreReadBack(entry.expression, entry.command);
  }

  lemma UncommentedLine(line: string)
    requires line != [] && line[0] != '#' && !IsSpace(line[0])
    ensures TrimStart(StripHashes("# " + line)) == line
  {
    var raw := "# " + line;
    var blank := " " + line;
    assert raw[1..] == blank && blank[1..] == line;
    assert StripHashes(raw) == StripHashes(blank) == blank;
    assert TrimStart(blank) == TrimStart(line) == line;
  }

  /** The rendered line of a shaped entry stands on one line. */
  lemma RenderedEntryIsOneLine(entry: Entry)
    requires EntryShaped(entry)
    ensures '\n' !in RenderEntry(entry)
  {
    var expression, command := entry.expression, entry.command;
    if IsFiveFields(expression) && IsCommand(command) {
      WordsAreWords(expression);
      JoinedWordsAreOneLine(Words(expression));
    } else {
      WordsAreWords(command);
      JoinedWordsAreOneLine(Words(command));
    }
    assert '\n' !in expression && '\n' !in command;
  }
}
