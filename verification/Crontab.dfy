/**
 * The crontab as the platform reads and writes it: parsing keeps every line's own text, and writing replaces the
 * contents of one delimited block and nothing else.
 */
module Crontab {
  import opened Options
  import opened JsText
  import opened Lines

  // In pieces, so that a proof never has to look at the whole line at once.
  const BEGIN_1 := "# >>> scriptoria managed "
  const BEGIN_2 := "\U{2014} do not edit inside "
  const BEGIN_3 := "this block by hand >>>"
  const MANAGED_BEGIN := BEGIN_1 + BEGIN_2 + BEGIN_3
  const MANAGED_END := "# <<< scriptoria managed <<<"

  const NICKNAMES: set<string> :=
    {"@reboot", "@yearly", "@annually", "@monthly", "@weekly", "@daily", "@midnight", "@hourly"}

  datatype Line =
    | Blank(raw: string)
    | Comment(raw: string)
    | Env(raw: string, name: string, value: string)
    | JobLine(raw: string, expression: string, command: string, enabled: bool, managed: bool)

  datatype Entry = Entry(expression: string, command: string, enabled: bool)

  // ---------------------------------------------------------------- the grammar of a schedule

  /** A number of one or two digits, or a three-letter name. */
  predicate IsValue(s: string) {
    || (1 <= |s| <= 2 && forall i | 0 <= i < |s| :: IsDigit(s[i]))
    || (|s| == 3 && forall i | 0 <= i < |s| :: IsLetter(s[i]))
  }

  predicate IsRange(s: string) {
    s == "*" || IsValue(s) || exists i | 0 <= i < |s| :: s[i] == '-' && IsValue(s[..i]) && IsValue(s[i + 1..])
  }

  predicate IsStep(s: string) {
    1 <= |s| <= 2 && forall i | 0 <= i < |s| :: IsDigit(s[i])
  }

  predicate IsElement(s: string) {
    IsRange(s) || exists i | 0 <= i < |s| :: s[i] == '/' && IsRange(s[..i]) && IsStep(s[i + 1..])
  }

  predicate IsCronField(s: string)
    decreases |s|
  {
    IsElement(s) || exists i | 0 <= i < |s| :: s[i] == ',' && IsElement(s[..i]) && IsCronField(s[i + 1..])
  }

  predicate IsNickname(s: string) {
    LowerCase(s) in NICKNAMES
  }

  // ---------------------------------------------------------------- one job

  datatype JobText = JobText(expression: string, command: string)

  /** `n` words, each followed by white space, and a remainder on one line: the fields and the remainder. */
  function TakeFields(s: string, n: nat): Option<(seq<string>, string)>
    decreases n
  {
    if n == 0 then
      if s == [] || exists i | 0 <= i < |s| :: IsLineTerminator(s[i]) then None else Some(([], s))
    else if FirstWord(s) == [] || AfterWord(s) == [] then None
    else match TakeFields(AfterWord(s), n - 1)
      case None => None
      case Some((fields, rest)) => Some(([FirstWord(s)] + fields, rest))
  }

  /** A nickname and a command, or five fields and a command. */
  function ParseJob(text: string): Option<JobText> {
    var trimmed := Trim(text);
    if trimmed == [] then None
    else if trimmed[0] == '@' then
      TrimIsTrimmed(text);
      var words := Words(trimmed);
      if |words| < 2 || !IsNickname(words[0]) then None
      else Some(JobText(words[0], JoinWords(words[1..])))
    else match TakeFields(trimmed, 5)
      case None => None
      case Some((fields, command)) =>
        if forall i | 0 <= i < |fields| :: IsCronField(fields[i])
        then Some(JobText(JoinWords(fields), command))
        else None
  }

  lemma TrimIsTrimmed(s: string)
    ensures Trimmed(Trim(s))
  {
    var lo, hi := TrimCuts(s);
  }

  // ---------------------------------------------------------------- one line

  predicate IsNameStart(c: char) {
    IsLetter(c) || c == '_'
  }

  predicate IsNameChar(c: char) {
    IsNameStart(c) || IsDigit(c)
  }

  function NamePrefix(s: string): (name: string)
    ensures |name| <= |s| && name == s[..|name|]
  {
    if s == [] || !IsNameChar(s[0]) then [] else [s[0]] + NamePrefix(s[1..])
  }

  /** `NAME = value`, on one line. */
  function ParseEnv(raw: string): Option<(string, string)> {
    var s := TrimStart(raw);
    if s == [] || !IsNameStart(s[0]) then None
    else
      var name := NamePrefix(s);
      var rest := TrimStart(s[|name|..]);
      if rest == [] || rest[0] != '=' then None
      else
        var value := TrimStart(rest[1..]);
        if exists i | 0 <= i < |value| :: IsLineTerminator(value[i]) then None else Some((name, value))
  }

  /** Starts with a digit, an asterisk or an at sign, white space aside. */
  predicate LooksLikeASchedule(raw: string) {
    var s := TrimStart(raw);
    s != [] && (IsDigit(s[0]) || s[0] == '*' || s[0] == '@')
  }

  function StripHashes(s: string): string {
    if s != [] && s[0] == '#' then StripHashes(s[1..]) else s
  }

  predicate IsBegin(raw: string) {
    Trim(raw) == MANAGED_BEGIN
  }

  predicate IsEnd(raw: string) {
    Trim(raw) == MANAGED_END
  }

  function ParseLine(raw: string, inManagedBlock: bool): Line {
    var trimmed := Trim(raw);
    if IsBegin(raw) || IsEnd(raw) then Comment(raw)
    else if trimmed == [] then Blank(raw)
    else if trimmed[0] == '#' then
      match ParseJob(TrimStart(StripHashes(trimmed)))
      case Some(job) => JobLine(raw, job.expression, job.command, false, inManagedBlock)
      case None => Comment(raw)
    else
      var env := ParseEnv(raw);
      if env.Some? && !LooksLikeASchedule(raw) then Env(raw, env.value.0, env.value.1)
      else match ParseJob(raw)
        case Some(job) => JobLine(raw, job.expression, job.command, true, inManagedBlock)
        case None => Comment(raw)
  }

  /** Whether the line after `raw` is inside the block. */
  function BlockAfter(raw: string, inManagedBlock: bool): bool {
    if IsBegin(raw) then true else if IsEnd(raw) then false else inManagedBlock
  }

  // ---------------------------------------------------------------- the file

  function ParseLines(raws: seq<string>, inManagedBlock: bool): (lines: seq<Line>)
    ensures |lines| == |raws|
  {
    if raws == [] then []
    else [ParseLine(raws[0], inManagedBlock)] + ParseLines(raws[1..], BlockAfter(raws[0], inManagedBlock))
  }

  function Parsed(text: string): seq<Line> {
    ParseLines(SplitLines(text), false)
  }

  method ParseCrontab(text: string) returns (result: seq<Line>)
    ensures result == Parsed(text)
  {
    var lines := SplitLines(text);
    result := [];
    var inManagedBlock := false;
    for i := 0 to |lines|
      invariant result + ParseLines(lines[i..], inManagedBlock) == Parsed(text)
    {
      var raw := lines[i];
      result := result + [ParseLine(raw, inManagedBlock)];
      inManagedBlock := BlockAfter(raw, inManagedBlock);
      assert lines[i..][1..] == lines[i + 1..];
    }
  }

  function Raws(lines: seq<Line>): (raws: seq<string>)
    ensures |raws| == |lines|
  {
    seq(|lines|, i requires 0 <= i < |lines| => lines[i].raw)
  }

  function RenderCrontab(lines: seq<Line>): string {
    JoinLines(Raws(lines))
  }

  function RenderEntry(entry: Entry): string {
    var line := entry.expression + " " + entry.command;
    if entry.enabled then line else "# " + line
  }

  function RenderEntries(entries: seq<Entry>): (body: seq<string>)
    ensures |body| == |entries|
  {
    seq(|entries|, i requires 0 <= i < |entries| => RenderEntry(entries[i]))
  }

  /** The index of the first line that is the begin delimiter, or -1. */
  function FindBegin(raws: seq<string>): (i: int)
    ensures -1 <= i < |raws|
    ensures i >= 0 ==> IsBegin(raws[i])
    ensures forall k | 0 <= k < (if i < 0 then |raws| else i) :: !IsBegin(raws[k])
  {
    if raws == [] then -1
    else if IsBegin(raws[0]) then 0
    else
      var i := FindBegin(raws[1..]);
      assert forall k | 1 <= k < |raws| :: raws[k] == raws[1..][k - 1];
      if i < 0 then -1 else i + 1
  }

  /** The index of the first line that is the end delimiter, or -1. */
  function FindEnd(raws: seq<string>): (i: int)
    ensures -1 <= i < |raws|
    ensures i >= 0 ==> IsEnd(raws[i])
    ensures forall k | 0 <= k < (if i < 0 then |raws| else i) :: !IsEnd(raws[k])
  {
    if raws == [] then -1
    else if IsEnd(raws[0]) then 0
    else
      var i := FindEnd(raws[1..]);
      assert forall k | 1 <= k < |raws| :: raws[k] == raws[1..][k - 1];
      if i < 0 then -1 else i + 1
  }

  /** The lines up to and including the begin delimiter, whether it was there or has to be appended. */
  function Head(raws: seq<string>): seq<string>
    requires raws != []
  {
    var begin := FindBegin(raws);
    if begin >= 0 then raws[..begin + 1]
    else (if raws[|raws| - 1] == [] then raws[..|raws| - 1] else raws) + ["", MANAGED_BEGIN]
  }

  /**
   * The lines from the end delimiter on: those of the file, or a fresh end where the block has none after its begin.
   */
  function Tail(raws: seq<string>): seq<string>
    requires raws != []
  {
    var begin, end := FindBegin(raws), FindEnd(raws);
    if begin >= 0 && end > begin then raws[end..] else [MANAGED_END, ""]
  }

  function WriteManagedBlock(text: string, entries: seq<Entry>): string {
    var raws := SplitLines(text);
    JoinLines(Head(raws) + RenderEntries(entries) + Tail(raws))
  }

  function ManagedJobs(lines: seq<Line>): seq<Entry> {
    if lines == [] then []
    else
      (if lines[0].JobLine? && lines[0].managed
       then [Entry(lines[0].expression, lines[0].command, lines[0].enabled)]
       else [])
      + ManagedJobs(lines[1..])
  }
}
