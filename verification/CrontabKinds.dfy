/** Every line of a crontab is of exactly one kind, told by what is written on it and by the delimiters above it. */
module CrontabKinds {
  import opened Options
  import opened JsText
  import opened Sequences
  import opened Lines
  import opened Crontab
  import opened CrontabLines
  import opened CronJobs

  /** The delimiters as an administrator reads them. */
  lemma DelimitersInFull()
    ensures MANAGED_BEGIN == "# >>> scriptoria managed \U{2014} do not edit inside this block by hand >>>"
    ensures MANAGED_END == "# <<< scriptoria managed <<<"
  {
    var front := "# >>> scriptoria managed \U{2014} do not edit inside ";
    assert BEGIN_1 + BEGIN_2 == front;
    assert front + BEGIN_3 == "# >>> scriptoria managed \U{2014} do not edit inside this block by hand >>>";
  }

  // ---------------------------------------------------------------- blank lines

  /** A line is blank exactly when there is nothing but white space on it. */
  lemma BlankExactlyWhenWhite(raw: string, m: bool)
    ensures ParseLine(raw, m).Blank? <==> IsWhite(raw)
  {
    DelimitersStartWithAHash();
    var lo, hi := TrimCuts(raw);
    if IsWhite(raw) {
      AllBlankIsTrimmed(raw);
    }
  }

  // ---------------------------------------------------------------- jobs

  /** A line is a job that is switched on exactly when a job is written on it. */
  lemma EnabledExactlyWhenWritten(raw: string, expression: string, command: string, m: bool)
    ensures ParseLine(raw, m) == JobLine(raw, expression, command, true, m) <==> JobWritten(raw, expression, command)
  {
    JobsExactlyWhenWritten(raw, expression, command);
    if JobWritten(raw, expression, command) {
      WrittenLinesAreJobs(raw, expression, command, m);
    }
  }

  /** The job stands behind hash signs, and white space in front of them. */
  ghost predicate CommentedOut(raw: string, expression: string, command: string) {
    exists lead: string, n: nat, text: string ::
      IsWhite(lead) && n > 0 && raw == lead + (Hashes(n) + text) && JobWritten(text, expression, command)
  }

  lemma {:induction false} HashesInFront(s: string) returns (n: nat)
    ensures s == Hashes(n) + StripHashes(s)
    ensures n > 0 <==> s != [] && s[0] == '#'
  {
    if s != [] && s[0] == '#' {
      var k := HashesInFront(s[1..]);
      n := k + 1;
      assert s == "#" + s[1..];
    } else {
      n := 0;
      assert Hashes(0) + s == s;
    }
  }

  /** A job text between white space is the same job. */
  lemma BetweenBlanks(lead: string, s: string, trail: string)
    requires IsWhite(lead) && IsWhite(trail) && s != [] && Trimmed(s)
    ensures ParseJob(lead + s + trail) == ParseJob(s)
  {
    AroundIsTrimmed(lead, s, trail);
    TrimOfTrimmed(s);
  }

  lemma SuffixOfTrimmed(s: string, k: nat)
    requires Trimmed(s) && k <= |s|
    ensures var t := TrimStart(s[k..]); Trimmed(t)
  {
    var n := TrimStartCuts(s[k..]);
    assert s[k..][n..] == s[k + n..];
  }

  lemma JobBehindHashes(raw: string, job: JobText) returns (lead: string, n: nat, text: string)
    requires Trim(raw) != [] && Trim(raw)[0] == '#' && ParseJob(TrimStart(StripHashes(Trim(raw)))) == Some(job)
    ensures IsWhite(lead) && n > 0 && raw == lead + (Hashes(n) + text) && ParseJob(text) == Some(job)
  {
    var lo, hi := TrimCuts(raw);
    var trimmed, trail := raw[lo..hi], raw[hi..];
    lead := raw[..lo];
    n := HashesInFront(trimmed);
    var cut := StripHashes(trimmed);
    text := cut + trail;
    assert raw == lead + (Hashes(n) + text) by {
      CutInThree(raw, lo, hi);
      AppendedApart(lead, Hashes(n), cut, trail);
    }
    assert IsWhite(lead) && IsWhite(trail);
    assert Trimmed(TrimStart(cut)) by {
      Halves(Hashes(n), cut);
      SuffixOfTrimmed(trimmed, |Hashes(n)|);
    }
    BehindBlanks(cut, trail);
  }

  lemma BehindBlanks(cut: string, trail: string)
    requires TrimStart(cut) != [] && Trimmed(TrimStart(cut)) && IsWhite(trail)
    ensures ParseJob(cut + trail) == ParseJob(TrimStart(cut))
  {
    var blanks := SplitBlanks(cut);
    BetweenBlanks(blanks, TrimStart(cut), trail);
  }

  /** A line is a job that is switched off exactly when a job is written behind hash signs on it. */
  lemma DisabledExactlyWhenCommentedOut(raw: string, expression: string, command: string, m: bool)
    ensures ParseLine(raw, m) == JobLine(raw, expression, command, false, m) <==> CommentedOut(raw, expression, command)
  {
    if ParseLine(raw, m) == JobLine(raw, expression, command, false, m) {
      var lead, n, text := JobBehindHashes(raw, JobText(expression, command));
      JobsExactlyWhenWritten(text, expression, command);
    }
    if CommentedOut(raw, expression, command) {
      var lead: string, n: nat, text: string :|
        IsWhite(lead) && n > 0 && raw == lead + (Hashes(n) + text) && JobWritten(text, expression, command);
      CommentedLinesAreJobs(lead, n, text, expression, command, m);
    }
  }

  // ---------------------------------------------------------------- assignments

  ghost predicate AssignmentWritten(raw: string, name: string, value: string) {
    exists lead: string, gap: string, blank: string ::
      && IsWhite(lead) && IsVariableName(name) && IsWhite(gap) && IsWhite(blank)
      && OneLine(value) && (value == [] || !IsSpace(value[0]))
      && raw == lead + (name + (gap + ("=" + (blank + value))))
  }

  lemma SplitBlanks(s: string) returns (blanks: string)
    ensures IsWhite(blanks) && s == blanks + TrimStart(s)
    ensures TrimStart(s) != [] ==> !IsSpace(TrimStart(s)[0])
  {
    var n := TrimStartCuts(s);
    blanks := s[..n];
  }

  lemma {:induction false} NameIsNamed(s: string)
    ensures forall i | 0 <= i < |NamePrefix(s)| :: IsNameChar(NamePrefix(s)[i])
    ensures s != [] && IsNameStart(s[0]) ==> NamePrefix(s) != [] && NamePrefix(s)[0] == s[0]
  {
    if s != [] && IsNameChar(s[0]) {
      NameIsNamed(s[1..]);
    }
  }

  lemma ReadAssignment(raw: string, name: string, value: string)
    requires ParseEnv(raw) == Some((name, value))
    ensures AssignmentWritten(raw, name, value)
  {
    var lead := SplitBlanks(raw);
    var behind := TrimStart(raw)[|name|..];
    NameIsNamed(TrimStart(raw));
    var gap, blank := ReadValue(behind, value);
    assert TrimStart(raw) == name + behind;
  }

  lemma ReadValue(behind: string, value: string) returns (gap: string, blank: string)
    requires var rest := TrimStart(behind); rest != [] && rest[0] == '=' && TrimStart(rest[1..]) == value
    ensures IsWhite(gap) && IsWhite(blank) && behind == gap + ("=" + (blank + value))
    ensures value == [] || !IsSpace(value[0])
  {
    var rest := TrimStart(behind);
    gap := SplitBlanks(behind);
    blank := SplitBlanks(rest[1..]);
    assert rest == "=" + rest[1..];
  }

  /** A line is an assignment exactly when one is written on it. */
  lemma AssignedExactlyWhenWritten(raw: string, name: string, value: string, m: bool)
    ensures ParseLine(raw, m) == Env(raw, name, value) <==> AssignmentWritten(raw, name, value)
  {
    if ParseLine(raw, m) == Env(raw, name, value) {
      ReadAssignment(raw, name, value);
    }
    if AssignmentWritten(raw, name, value) {
      var lead: string, gap: string, blank: string :|
        && IsWhite(lead) && IsVariableName(name) && IsWhite(gap) && IsWhite(blank)
        && OneLine(value) && (value == [] || !IsSpace(value[0]))
        && raw == lead + (name + (gap + ("=" + (blank + value))));
      AssignmentsAreRead(lead, name, gap, blank, value, m);
    }
  }

  // ---------------------------------------------------------------- managed or not

  /** A begin delimiter stands above line `i`, and no end delimiter between them. */
  predicate InsideABlock(raws: seq<string>, i: nat)
    requires i <= |raws|
  {
    exists b | 0 <= b < i :: OpenSince(raws, b, i)
  }

  predicate OpenSince(raws: seq<string>, b: nat, i: nat)
    requires b < i <= |raws|
  {
    Trim(raws[b]) == MANAGED_BEGIN && forall k | b < k < i :: Trim(raws[k]) != MANAGED_END
  }

  lemma OneMoreLineAbove(raws: seq<string>, i: nat)
    requires i < |raws|
    ensures InsideABlock(raws, i + 1) <==> BlockAfter(raws[i], InsideABlock(raws, i))
  {
    DelimitersDiffer();
    var n := i + 1;
    if IsBegin(raws[i]) {
      assert OpenSince(raws, i, n);
    } else if IsEnd(raws[i]) {
      assert forall b | 0 <= b < n :: OpenSince(raws, b, n) ==> b == i;
    } else {
      assert forall b | 0 <= b < i :: OpenSince(raws, b, n) <==> OpenSince(raws, b, i);
    }
  }

  lemma {:induction false} ParsedFrom(raws: seq<string>, i: nat, j: nat)
    requires i <= j < |raws|
    ensures ParseLines(raws[i..], InsideABlock(raws, i))[j - i] == ParseLine(raws[j], InsideABlock(raws, j))
    decreases j - i
  {
    assert raws[i..][1..] == raws[i + 1..];
    if i < j {
      OneMoreLineAbove(raws, i);
      ParsedFrom(raws, i + 1, j);
    }
  }

  /** Each line of the file is read by itself, and its jobs are managed exactly inside a block. */
  lemma ManagedExactlyInsideABlock(text: string, j: nat)
    requires j < |SplitLines(text)|
    ensures |Parsed(text)| == |SplitLines(text)|
    ensures var raws := SplitLines(text); Parsed(text)[j] == ParseLine(raws[j], InsideABlock(raws, j))
  {
    ParsedFrom(SplitLines(text), 0, j);
    assert SplitLines(text)[0..] == SplitLines(text);
  }
}
