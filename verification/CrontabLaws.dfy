/** The crontab as a lens: what is put into the managed block is what is got out of it, and nothing else moves. */
module CrontabLaws {
  import opened JsText
  import opened Lines
  import opened Sequences
  import opened Crontab
  import opened CrontabLines

  // ---------------------------------------------------------------- lossless parsing

  lemma ParsedLineKeepsItsText(raw: string, m: bool)
    ensures ParseLine(raw, m).raw == raw
  {
  }

  lemma RawsOfCons(line: Line, lines: seq<Line>)
    ensures Raws([line] + lines) == [line.raw] + Raws(lines)
  {
  }

  lemma {:induction false} ParsedLinesKeepTheirText(raws: seq<string>, m: bool)
    ensures Raws(ParseLines(raws, m)) == raws
  {
    if raws != [] {
      var next := BlockAfter(raws[0], m);
      ParsedLineKeepsItsText(raws[0], m);
      ParsedLinesKeepTheirText(raws[1..], next);
      RawsOfCons(ParseLine(raws[0], m), ParseLines(raws[1..], next));
    }
  }

  /** A crontab nobody edited is rendered byte for byte. */
  lemma RenderOfParse(text: string)
    ensures RenderCrontab(Parsed(text)) == text
  {
    ParsedLinesKeepTheirText(SplitLines(text), false);
    JoinOfSplit(text);
  }

  // ---------------------------------------------------------------- reading a file piece by piece

  datatype Job = Job(expression: string, command: string, enabled: bool, managed: bool)

  function JobOf(line: Line): seq<Job> {
    if line.JobLine? then [Job(line.expression, line.command, line.enabled, line.managed)] else []
  }

  /** The jobs of a parsed file, in file order. */
  function Jobs(lines: seq<Line>): seq<Job> {
    if lines == [] then [] else JobOf(lines[0]) + Jobs(lines[1..])
  }

  /** Whether the line after all of `raws` is inside the block. */
  function BlockAfterAll(raws: seq<string>, m: bool): bool {
    if raws == [] then m else BlockAfterAll(raws[1..], BlockAfter(raws[0], m))
  }

  /** The jobs of a stretch of lines. */
  function JobsIn(raws: seq<string>, m: bool): seq<Job> {
    if raws == [] then [] else JobOf(ParseLine(raws[0], m)) + JobsIn(raws[1..], BlockAfter(raws[0], m))
  }

  function EntryOf(job: Job): seq<Entry> {
    if job.managed then [Entry(job.expression, job.command, job.enabled)] else []
  }

  function EntriesOf(jobs: seq<Job>): seq<Entry> {
    if jobs == [] then [] else EntryOf(jobs[0]) + EntriesOf(jobs[1..])
  }

  lemma {:induction false} JobsOfParsed(raws: seq<string>, m: bool)
    ensures Jobs(ParseLines(raws, m)) == JobsIn(raws, m)
  {
    if raws != [] {
      JobsOfParsed(raws[1..], BlockAfter(raws[0], m));
      assert ParseLines(raws, m)[1..] == ParseLines(raws[1..], BlockAfter(raws[0], m));
    }
  }

  lemma {:induction false} ManagedJobsAreEntries(lines: seq<Line>)
    ensures ManagedJobs(lines) == EntriesOf(Jobs(lines))
  {
    if lines != [] {
      ManagedJobsAreEntries(lines[1..]);
      EntriesOfConcat(JobOf(lines[0]), Jobs(lines[1..]));
      EntriesOfOne(lines[0]);
    }
  }

  lemma EntriesOfOne(line: Line)
    ensures EntriesOf(JobOf(line))
         == if line.JobLine? && line.managed then [Entry(line.expression, line.command, line.enabled)] else []
  {
    if line.JobLine? {
      assert JobOf(line)[1..] == [];
    }
  }

  lemma EntriesOfCons(job: Job, rest: seq<Job>)
    ensures EntriesOf([job] + rest) == EntryOf(job) + EntriesOf(rest)
  {
    assert ([job] + rest)[1..] == rest;
  }

  lemma {:induction false} EntriesOfConcat(a: seq<Job>, b: seq<Job>)
    ensures EntriesOf(a + b) == EntriesOf(a) + EntriesOf(b)
  {
    if a == [] {
      assert a + b == b;
    } else {
      EntriesOfConcat(a[1..], b);
      assert a == [a[0]] + a[1..];
      Regroup([a[0]], a[1..], b);
      EntriesOfCons(a[0], a[1..] + b);
      Regroup(EntryOf(a[0]), EntriesOf(a[1..]), EntriesOf(b));
    }
  }

  lemma JobsInCons(raw: string, rest: seq<string>, m: bool)
    ensures JobsIn([raw] + rest, m) == JobOf(ParseLine(raw, m)) + JobsIn(rest, BlockAfter(raw, m))
    ensures BlockAfterAll([raw] + rest, m) == BlockAfterAll(rest, BlockAfter(raw, m))
  {
    assert ([raw] + rest)[1..] == rest;
  }

  lemma {:induction false} JobsInConcat(a: seq<string>, b: seq<string>, m: bool)
    ensures JobsIn(a + b, m) == JobsIn(a, m) + JobsIn(b, BlockAfterAll(a, m))
    ensures BlockAfterAll(a + b, m) == BlockAfterAll(b, BlockAfterAll(a, m))
  {
    if a == [] {
      assert a + b == b;
    } else {
      var next := BlockAfter(a[0], m);
      JobsInConcat(a[1..], b, next);
      assert a == [a[0]] + a[1..];
      Regroup([a[0]], a[1..], b);
      JobsInCons(a[0], a[1..], m);
      JobsInCons(a[0], a[1..] + b, m);
      Regroup(JobOf(ParseLine(a[0], m)), JobsIn(a[1..], next), JobsIn(b, BlockAfterAll(a[1..], next)));
    }
  }

  predicate NoBegin(raws: seq<string>) {
    forall i | 0 <= i < |raws| :: !IsBegin(raws[i])
  }

  predicate NoEnd(raws: seq<string>) {
    forall i | 0 <= i < |raws| :: !IsEnd(raws[i])
  }

  predicate NoneManaged(jobs: seq<Job>) {
    forall i | 0 <= i < |jobs| :: !jobs[i].managed
  }

  predicate AllManaged(jobs: seq<Job>) {
    forall i | 0 <= i < |jobs| :: jobs[i].managed
  }

  lemma {:induction false} OutsideTheBlock(raws: seq<string>)
    requires NoBegin(raws)
    ensures NoneManaged(JobsIn(raws, false)) && !BlockAfterAll(raws, false)
  {
    if raws != [] {
      assert forall i | 0 <= i < |raws| - 1 :: raws[1..][i] == raws[i + 1];
      OutsideTheBlock(raws[1..]);
    }
  }

  lemma {:induction false} InsideTheBlock(raws: seq<string>)
    requires NoEnd(raws)
    ensures AllManaged(JobsIn(raws, true)) && BlockAfterAll(raws, true)
  {
    if raws != [] {
      assert forall i | 0 <= i < |raws| - 1 :: raws[1..][i] == raws[i + 1];
      InsideTheBlock(raws[1..]);
    }
  }

  lemma {:induction false} EntriesOfNone(jobs: seq<Job>)
    requires NoneManaged(jobs)
    ensures EntriesOf(jobs) == []
  {
    if jobs != [] {
      assert forall i | 0 <= i < |jobs| - 1 :: jobs[1..][i] == jobs[i + 1];
      EntriesOfNone(jobs[1..]);
    }
  }

  function ManagedFrom(entries: seq<Entry>): (jobs: seq<Job>)
    ensures |jobs| == |entries|
  {
    seq(|entries|, i requires 0 <= i < |entries| =>
        Job(entries[i].expression, entries[i].command, entries[i].enabled, true))
  }

  lemma {:induction false} EntriesOfManaged(entries: seq<Entry>)
    ensures EntriesOf(ManagedFrom(entries)) == entries
  {
    if entries != [] {
      EntriesOfManaged(entries[1..]);
      assert ManagedFrom(entries)[1..] == ManagedFrom(entries[1..]);
    }
  }

  lemma {:induction false} ManagedOfEntries(jobs: seq<Job>)
    requires AllManaged(jobs)
    ensures ManagedFrom(EntriesOf(jobs)) == jobs
  {
    if jobs != [] {
      assert forall i | 0 <= i < |jobs| - 1 :: jobs[1..][i] == jobs[i + 1];
      ManagedOfEntries(jobs[1..]);
      assert ManagedFrom(EntriesOf(jobs))[1..] == ManagedFrom(EntriesOf(jobs[1..]));
    }
  }

  lemma {:induction false} EntriesOfShorter(jobs: seq<Job>)
    ensures |EntriesOf(jobs)| <= |jobs|
    ensures |EntriesOf(jobs)| == |jobs| ==> AllManaged(jobs)
  {
    if jobs != [] {
      EntriesOfShorter(jobs[1..]);
      if |EntriesOf(jobs)| == |jobs| {
        forall i | 0 <= i < |jobs|
          ensures jobs[i].managed
        {
          if i > 0 {
            assert jobs[i] == jobs[1..][i - 1];
          }
        }
      }
    }
  }

  // ---------------------------------------------------------------- the rendered entries

  predicate AllShaped(entries: seq<Entry>) {
    forall i | 0 <= i < |entries| :: EntryShaped(entries[i])
  }

  lemma EntryIsReadBack(entry: Entry, m: bool)
    requires EntryShaped(entry)
    ensures var raw := RenderEntry(entry);
            && ParseLine(raw, m) == JobLine(raw, entry.expression, entry.command, entry.enabled, m)
            && !IsBegin(raw) && !IsEnd(raw) && '\n' !in raw
  {
    RenderedEntryIsOneLine(entry);
    if entry.enabled {
      EnabledEntryIsReadBack(entry, m);
    } else {
      DisabledEntryIsReadBack(entry, m);
    }
  }

  lemma RenderedBody(entries: seq<Entry>)
    requires AllShaped(entries)
    ensures var body := RenderEntries(entries); NoBegin(body) && NoEnd(body) && SingleLines(body)
  {
    var body := RenderEntries(entries);
    forall i | 0 <= i < |body|
      ensures !IsBegin(body[i]) && !IsEnd(body[i]) && '\n' !in body[i]
    {
      EntryIsReadBack(entries[i], true);
    }
  }

  lemma BodyLineIsReadBack(entry: Entry, rest: seq<string>)
    requires EntryShaped(entry)
    ensures JobsIn([RenderEntry(entry)] + rest, true)
            == [Job(entry.expression, entry.command, entry.enabled, true)] + JobsIn(rest, true)
  {
    EntryIsReadBack(entry, true);
    JobsInCons(RenderEntry(entry), rest, true);
  }

  lemma RenderedCons(entries: seq<Entry>)
    requires entries != []
    ensures RenderEntries(entries) == [RenderEntry(entries[0])] + RenderEntries(entries[1..])
    ensures ManagedFrom(entries)
            == [Job(entries[0].expression, entries[0].command, entries[0].enabled, true)] + ManagedFrom(entries[1..])
  {
  }

  lemma {:induction false} BodyIsReadBack(entries: seq<Entry>)
    requires AllShaped(entries)
    ensures JobsIn(RenderEntries(entries), true) == ManagedFrom(entries)
  {
    if entries != [] {
      BodyIsReadBack(entries[1..]);
      RenderedCons(entries);
      BodyLineIsReadBack(entries[0], RenderEntries(entries[1..]));
    }
  }

  lemma ParsedEntryIsShaped(raw: string, m: bool)
    ensures AllShaped(EntriesOf(JobOf(ParseLine(raw, m))))
  {
    var line := ParseLine(raw, m);
    EntriesOfOne(line);
    if line.JobLine? {
      var trimmed := Trim(raw);
      if trimmed[0] == '#' {
        ParsedJobsAreShaped(TrimStart(StripHashes(trimmed)));
      } else {
        ParsedJobsAreShaped(raw);
      }
    }
  }

  lemma {:induction false} ParsedEntriesAreShaped(raws: seq<string>, m: bool)
    ensures AllShaped(EntriesOf(JobsIn(raws, m)))
  {
    if raws != [] {
      var next := BlockAfter(raws[0], m);
      ParsedEntriesAreShaped(raws[1..], next);
      ParsedEntryIsShaped(raws[0], m);
      EntriesOfConcat(JobOf(ParseLine(raws[0], m)), JobsIn(raws[1..], next));
    }
  }
}
