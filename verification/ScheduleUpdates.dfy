/** `updateSchedule`: which line an edit lands on, what it changes, and when nothing else changes with it. */
module ScheduleUpdates {
  import opened Options
  import opened Lines
  import opened Crontab
  import opened CrontabLines
  import opened CrontabLaws
  import opened CrontabLens
  import opened ScheduleEdits

  // ---------------------------------------------------------------- the operation

  /** What may be changed: never the command. */
  datatype Request = Request(expression: Option<string>, enabled: Option<bool>)

  function Merged(current: Entry, request: Request): Entry {
    Entry(
      if request.expression.Some? then request.expression.value else current.expression,
      current.command,
      if request.enabled.Some? then request.enabled.value else current.enabled)
  }

  /** A script VM, its crontab and whether a new one can be installed on it; installing is all or nothing. */
  class ScriptVm {
    var crontab: string
    const writable: bool

    constructor (crontab: string, writable: bool)
      ensures this.crontab == crontab && this.writable == writable
    {
      this.crontab := crontab;
      this.writable := writable;
    }
  }

  datatype Source = Source(id: string, vm: ScriptVm)

  datatype Outcome =
    | Edited(source: nat, before: Entry, after: Entry)
    | WriteFailed(source: nat)
    | NotUnderstood
    | HandWritten
    | NotFound

  function IndexOf(ids: seq<string>, id: string): (i: int)
    ensures -1 <= i < |ids|
    ensures i >= 0 ==> ids[i] == id
    ensures forall k | 0 <= k < (if i < 0 then |ids| else i) :: ids[k] != id
  {
    if ids == [] then -1
    else if ids[0] == id then 0
    else
      var i := IndexOf(ids[1..], id);
      assert forall k | 1 <= k < |ids| :: ids[k] == ids[1..][k - 1];
      if i < 0 then -1 else i + 1
  }

  /** Which managed entry of the text carries the id, or -1. */
  function ManagedIndex(sourceId: string, text: string, id: string): int {
    IndexOf(ManagedIds(sourceId, Jobs(Parsed(text))), id)
  }

  predicate JobWithId(sourceId: string, jobs: seq<Job>, id: string) {
    exists k | 0 <= k < |jobs| :: IdAt(sourceId, Commands(jobs), k) == id
  }

  /** Some job line of the text carries the id. */
  predicate Carries(sourceId: string, text: string, id: string) {
    JobWithId(sourceId, Jobs(Parsed(text)), id)
  }

  lemma EntriesAreManaged(text: string)
    ensures ManagedJobs(Parsed(text)) == EntriesOf(Jobs(Parsed(text)))
  {
    ManagedJobsAreEntries(Parsed(text));
  }

  predicate HasId(ids: seq<Option<string>>, id: string) {
    Some(id) in ids
  }

  lemma {:induction false} LineWithId(sourceId: string, lines: seq<Line>, id: string)
    ensures HasId(LineIds(sourceId, lines), id) <==> JobWithId(sourceId, Jobs(lines), id)
  {
    if lines != [] {
      var n := |lines| - 1;
      LineWithId(sourceId, lines[..n], id);
      FewerIds(sourceId, lines);
      OneMoreLine(lines, n);
      assert lines[..n + 1] == lines;
      if lines[n].JobLine? {
        LineIdIsJobId(sourceId, lines, n);
        OneMoreJobWithId(sourceId, Jobs(lines[..n]), JobOf(lines[n])[0], id);
      } else {
        assert Jobs(lines[..n]) + [] == Jobs(lines[..n]);
      }
    }
  }

  lemma OneMoreJobWithId(sourceId: string, jobs: seq<Job>, job: Job, id: string)
    ensures JobWithId(sourceId, jobs + [job], id)
       <==> JobWithId(sourceId, jobs, id) || IdAt(sourceId, Commands(jobs + [job]), |jobs|) == id
  {
    CommandsAppended(jobs, job);
    forall k | 0 <= k < |jobs|
      ensures IdAt(sourceId, Commands(jobs + [job]), k) == IdAt(sourceId, Commands(jobs), k)
    {
      IdAtPrefix(sourceId, Commands(jobs), [job.command], k);
    }
  }

  lemma FewerIds(sourceId: string, lines: seq<Line>)
    requires lines != []
    ensures LineIds(sourceId, lines)
            == LineIds(sourceId, lines[..|lines| - 1]) + [LineIdAt(sourceId, lines, |lines| - 1)]
  {
    var n := |lines| - 1;
    forall k | 0 <= k < n
      ensures LineIdAt(sourceId, lines, k) == LineIdAt(sourceId, lines[..n], k)
    {
      assert lines[..n][..k] == lines[..k];
    }
  }

  /** The ids, entries and position of one crontab, worked out from the text that was read. */
  method LookUp(sourceId: string, text: string, id: string) returns (entries: seq<Entry>, index: int, anyLine: bool)
    ensures entries == ManagedJobs(Parsed(text))
    ensures index == ManagedIndex(sourceId, text, id) && index < |entries|
    ensures anyLine == Carries(sourceId, text, id)
  {
    var lines := ParseCrontab(text);
    var ids := OccurrenceIds(sourceId, lines);
    entries := ManagedJobs(lines);
    var managedIds := CollectManagedIds(sourceId, lines, ids);
    index := IndexOf(managedIds, id);
    anyLine := HasId(ids, id);
    EntriesAreManaged(text);
    LineWithId(sourceId, lines, id);
  }

  /** The id is a managed line's in this crontab. */
  predicate Manages(source: Source, text: string, id: string) {
    ManagedIndex(source.id, text, id) >= 0
  }

  /** Which sources manage the id, and which carry it on any line. */
  function Managing(sources: seq<Source>, texts: seq<string>, id: string): (r: seq<bool>)
    requires |texts| == |sources|
    ensures |r| == |sources|
  {
    seq(|sources|, j requires 0 <= j < |sources| => Manages(sources[j], texts[j], id))
  }

  function Carrying(sources: seq<Source>, texts: seq<string>, id: string): (r: seq<bool>)
    requires |texts| == |sources|
    ensures |r| == |sources|
  {
    seq(|sources|, j requires 0 <= j < |sources| => Carries(sources[j].id, texts[j], id))
  }

  /** What is answered for the texts as they were read: the first source that manages the id takes the edit. */
  predicate Decides(sources: seq<Source>, texts: seq<string>, id: string, request: Request, outcome: Outcome)
    requires |texts| == |sources|
  {
    var managing := Managing(sources, texts, id);
    match outcome
    case Edited(k, before, after) =>
      && k < |sources| && IsFirst(managing, k) && sources[k].vm.writable
      && IsEditOf(sources[k], texts[k], id, request, before, after)
    case WriteFailed(k) =>
      k < |sources| && IsFirst(managing, k) && !sources[k].vm.writable
    case HandWritten =>
      true !in managing && true in Carrying(sources, texts, id)
    case NotFound =>
      true !in managing && true !in Carrying(sources, texts, id)
    case NotUnderstood =>
      request.expression.Some?
  }

  predicate IsFirst(found: seq<bool>, k: nat)
    requires k < |found|
  {
    found[k] && true !in found[..k]
  }

  predicate IsEditOf(source: Source, text: string, id: string, request: Request, before: Entry, after: Entry) {
    && 0 <= ManagedIndex(source.id, text, id) < |ManagedJobs(Parsed(text))|
    && before == ManagedJobs(Parsed(text))[ManagedIndex(source.id, text, id)]
    && Carried(before, request, after)
  }

  /** Field by field: what was asked for, and otherwise what was there; the command is what it was. */
  predicate Carried(before: Entry, request: Request, after: Entry) {
    && after.command == before.command
    && (request.expression.Some? ==> after.expression == request.expression.value)
    && (request.expression.None? ==> after.expression == before.expression)
    && (request.enabled.Some? ==> after.enabled == request.enabled.value)
    && (request.enabled.None? ==> after.enabled == before.enabled)
  }

  function Crontabs(sources: seq<Source>): (texts: seq<string>)
    reads set source | source in sources :: source.vm
    ensures |texts| == |sources|
  {
    if sources == [] then []
    else
      assert sources[|sources| - 1] in sources;
      assert forall source | source in sources[..|sources| - 1] :: source in sources;
      Crontabs(sources[..|sources| - 1]) + [sources[|sources| - 1].vm.crontab]
  }

  lemma {:induction false} CrontabsAt(sources: seq<Source>, k: nat)
    requires k < |sources|
    ensures Crontabs(sources)[k] == sources[k].vm.crontab
  {
    if k < |sources| - 1 {
      CrontabsAt(sources[..|sources| - 1], k);
    }
  }

  lemma OneMore(found: seq<bool>, k: nat)
    requires k < |found|
    ensures true in found[..k + 1] <==> true in found[..k] || found[k]
  {
    assert found[..k + 1] == found[..k] + [found[k]];
  }

  lemma FoundAt(sources: seq<Source>, texts: seq<string>, id: string, k: nat)
    requires |texts| == |sources| && k < |sources|
    ensures Managing(sources, texts, id)[k] <==> ManagedIndex(sources[k].id, texts[k], id) >= 0
    ensures Carrying(sources, texts, id)[k] <==> Carries(sources[k].id, texts[k], id)
  {
  }

  /** Installs the block with one entry replaced. */
  method Install(vm: ScriptVm, text: string, entries: seq<Entry>, index: nat, updated: Entry)
    requires index < |entries|
    modifies vm
    ensures vm.crontab == WriteManagedBlock(text, entries[index := updated])
  {
    vm.crontab := WriteManagedBlock(text, entries[index := updated]);
  }

  /** `understood`: whether the request's expression, if it has one, is one the cron library accepts. */
  method UpdateSchedule(sources: seq<Source>, id: string, request: Request, understood: bool) returns (outcome: Outcome)
    modifies set source | source in sources :: source.vm
    ensures Decides(sources, old(Crontabs(sources)), id, request, outcome)
    ensures outcome.NotUnderstood? <==> request.expression.Some? && !understood
    ensures outcome.Edited? ==>
      var text := old(Crontabs(sources))[outcome.source];
      var i := ManagedIndex(sources[outcome.source].id, text, id);
      sources[outcome.source].vm.crontab == WriteManagedBlock(text, ManagedJobs(Parsed(text))[i := outcome.after])
    ensures forall source | source in sources && !(outcome.Edited? && source.vm == sources[outcome.source].vm) ::
              source.vm.crontab == old(source.vm.crontab)
  {
    ghost var texts := Crontabs(sources);
    forall k | 0 <= k < |sources|
      ensures texts[k] == sources[k].vm.crontab
    {
      CrontabsAt(sources, k);
    }
    if request.expression.Some? && !understood {
      return NotUnderstood;
    }
    var anyLine := false;
    ghost var managing, carrying := Managing(sources, texts, id), Carrying(sources, texts, id);
    for k := 0 to |sources|
      invariant forall source | source in sources :: source.vm.crontab == old(source.vm.crontab)
      invariant true !in managing[..k]
      invariant anyLine <==> true in carrying[..k]
    {
      var text := sources[k].vm.crontab;
      assert text == texts[k];
      var entries, index, known := LookUp(sources[k].id, text, id);
      FoundAt(sources, texts, id, k);
      if index >= 0 {
        var updated := Merged(entries[index], request);
        if !sources[k].vm.writable {
          return WriteFailed(k);
        }
        Install(sources[k].vm, text, entries, index, updated);
        return Edited(k, entries[index], updated);
      }
      OneMore(managing, k);
      OneMore(carrying, k);
      anyLine := anyLine || known;
    }
    assert managing[..|sources|] == managing && carrying[..|sources|] == carrying;
    outcome := if anyLine then HandWritten else NotFound;
  }

  // ---------------------------------------------------------------- what the edit does to the file

  /** Everything a write replaces is managed, and nothing after it is. */
  predicate EditSafe(text: string) {
    var raws := SplitLines(text);
    AllManaged(JobsIn(OldBody(raws), true)) && NoneManaged(JobsIn(Tail(raws), true))
  }

  /** What can be read off the file: no end delimiter before the first begin, no second begin after the block. */
  lemma OneProperBlockIsEditSafe(text: string)
    requires !StrayEnd(SplitLines(text)) && NoBegin(Tail(SplitLines(text)))
    ensures EditSafe(text)
  {
    OldBodyIsOpen(SplitLines(text));
    TailIsForeign(SplitLines(text));
  }

  function JobFrom(entry: Entry): Job {
    Job(entry.expression, entry.command, entry.enabled, true)
  }

  /** The jobs before an edit-safe write, with the managed ones as the entries they are read as. */
  lemma JobsOfEditSafe(text: string)
    requires EditSafe(text)
    ensures var raws := SplitLines(text);
            Jobs(Parsed(text))
                == JobsIn(Head(raws), false) + ManagedFrom(ManagedJobs(Parsed(text))) + JobsIn(Tail(raws), true)
  {
    var raws := SplitLines(text);
    JobsBefore(text);
    EntriesBefore(text);
    EntriesOfNone(JobsIn(Tail(raws), true));
    ManagedOfEntries(JobsIn(OldBody(raws), true));
    assert EntriesOf(JobsIn(OldBody(raws), true)) + [] == EntriesOf(JobsIn(OldBody(raws), true));
  }

  lemma ManagedAtInTheMiddle(head: seq<Job>, entries: seq<Entry>, tail: seq<Job>, i: nat)
    requires NoneManaged(head) && i < |entries|
    ensures i < |EntriesOf(head + ManagedFrom(entries) + tail)|
    ensures ManagedAt(head + ManagedFrom(entries) + tail, i) == |head| + i
  {
    var jobs := head + ManagedFrom(entries) + tail;
    var before := entries[..i];
    assert jobs[..|head| + i] == head + ManagedFrom(before);
    EntriesOfManaged(before);
    EntriesOfThree(head, ManagedFrom(before), []);
    assert head + ManagedFrom(before) + [] == head + ManagedFrom(before);
    EntriesOfManaged(entries);
    EntriesOfThree(head, ManagedFrom(entries), tail);
    ManagedAtIsUnique(jobs, i, |head| + i);
  }

  /**
   * Writing one changed entry changes exactly the job it was read from and no other, and keeps their number and
   * order, exactly when the file is edit-safe.
   */
  lemma EditHitsOneLineExactlyWhen(text: string, i: nat, updated: Entry)
    requires i < |ManagedJobs(Parsed(text))| && EntryShaped(updated)
    ensures i < |EntriesOf(Jobs(Parsed(text)))|
    ensures Jobs(Parsed(WriteManagedBlock(text, ManagedJobs(Parsed(text))[i := updated])))
         == Jobs(Parsed(text))[ManagedAt(Jobs(Parsed(text)), i) := JobFrom(updated)]
       <==> EditSafe(text)
  {
    var entries := ManagedJobs(Parsed(text));
    EntriesAreManaged(text);
    EntriesReadAreShaped(text);
    JobsAfter(text, entries[i := updated]);
    if EditSafe(text) {
      EditOfEditSafe(text, i, updated);
    } else {
      UnsafeEditChangesTheNumber(text);
      JobsAfter(text, entries);
    }
  }

  lemma EditOfEditSafe(text: string, i: nat, updated: Entry)
    requires i < |ManagedJobs(Parsed(text))| && EditSafe(text)
    ensures var before := Jobs(Parsed(text));
            && i < |EntriesOf(before)|
            && JobsIn(Head(SplitLines(text)), false) + ManagedFrom(ManagedJobs(Parsed(text))[i := updated])
             + JobsIn(Tail(SplitLines(text)), true)
            == before[ManagedAt(before, i) := JobFrom(updated)]
  {
    JobsOfEditSafe(text);
    HeadIsForeign(SplitLines(text));
    EditInTheMiddle(JobsIn(Head(SplitLines(text)), false), ManagedJobs(Parsed(text)),
        JobsIn(Tail(SplitLines(text)), true), i, updated);
  }

  lemma EditInTheMiddle(head: seq<Job>, entries: seq<Entry>, tail: seq<Job>, i: nat, updated: Entry)
    requires NoneManaged(head) && i < |entries|
    ensures i < |EntriesOf(head + ManagedFrom(entries) + tail)|
    ensures var before := head + ManagedFrom(entries) + tail;
            head + ManagedFrom(entries[i := updated]) + tail == before[ManagedAt(before, i) := JobFrom(updated)]
  {
    ManagedAtInTheMiddle(head, entries, tail, i);
    UpdateInTheMiddle(head, ManagedFrom(entries), tail, i, JobFrom(updated));
    assert ManagedFrom(entries[i := updated]) == ManagedFrom(entries)[i := JobFrom(updated)];
  }

  lemma UpdateInTheMiddle<T>(a: seq<T>, b: seq<T>, c: seq<T>, i: nat, x: T)
    requires i < |b|
    ensures (a + b + c)[|a| + i := x] == a + b[i := x] + c
  {
  }

  /** Rewriting an unsafe file, even with the very entries read from it, drops a job or writes one twice. */
  lemma UnsafeEditChangesTheNumber(text: string)
    requires !EditSafe(text)
    ensures var raws := SplitLines(text);
            |JobsIn(Head(raws), false)| + |ManagedJobs(Parsed(text))| + |JobsIn(Tail(raws), true)|
            != |Jobs(Parsed(text))|
  {
    var raws := SplitLines(text);
    var body, tail := JobsIn(OldBody(raws), true), JobsIn(Tail(raws), true);
    JobsBefore(text);
    EntriesBefore(text);
    if AllManaged(body) {
      ManagedOfEntries(body);
      NoneManagedExactlyWhen(tail);
    } else {
      EntriesOfShorter(body);
      if StrayEnd(raws) {
        TailStartsWithEnd(raws);
        FreshTailHasNoJobs();
      } else {
        OldBodyIsOpen(raws);
      }
    }
  }

  // ---------------------------------------------------------------- the whole edit

  lemma SameCommands(jobs: seq<Job>, k: nat, job: Job)
    requires k < |jobs| && job.command == jobs[k].command
    ensures Commands(jobs[k := job]) == Commands(jobs)
  {
  }

  /** The id of a managed index is the id of the line it was read from. */
  lemma ManagedIndexNamesTheLine(sourceId: string, text: string, id: string)
    requires ManagedIndex(sourceId, text, id) >= 0
    ensures var before := Jobs(Parsed(text)); var i := ManagedIndex(sourceId, text, id);
            i < |EntriesOf(before)| && before[ManagedAt(before, i)].managed
            && IdAt(sourceId, Commands(before), ManagedAt(before, i)) == id
  {
  }

  /** The job at `p` has what was asked for and is otherwise as it was, and so is every other job, ids included. */
  predicate EditsOnly(sourceId: string, jobs: seq<Job>, p: nat, request: Request, edited: seq<Job>)
    requires p < |jobs|
  {
    && |edited| == |jobs|
    && (forall k | 0 <= k < |jobs| && k != p :: edited[k] == jobs[k])
    && edited[p].command == jobs[p].command && edited[p].managed && jobs[p].managed
    && edited[p].expression == (if request.expression.Some? then request.expression.value else jobs[p].expression)
    && edited[p].enabled == (if request.enabled.Some? then request.enabled.value else jobs[p].enabled)
    && (forall k | 0 <= k < |jobs| ::
          && IdentityAt(Commands(edited), k) == IdentityAt(Commands(jobs), k)
          && IdAt(sourceId, Commands(edited), k) == IdAt(sourceId, Commands(jobs), k))
  }

  lemma UpdatedInPlace(sourceId: string, jobs: seq<Job>, i: nat, request: Request, after: Entry)
    requires i < |EntriesOf(jobs)| && Carried(EntriesOf(jobs)[i], request, after)
    ensures EditsOnly(sourceId, jobs, ManagedAt(jobs, i), request, jobs[ManagedAt(jobs, i) := JobFrom(after)])
  {
    EntryAt(jobs, i);
    SameCommands(jobs, ManagedAt(jobs, i), JobFrom(after));
  }

  /**
   * The schedule edit, whole: in an edit-safe file, with the new line in the shape the parser reads, re-reading shows
   * the job the id names under the same id with what was asked for, and every other job with its identity, expression,
   * command and both flags. `EditKeepsForeignLines` is about the lines outside the block.
   */
  lemma EditIsIsolated(sourceId: string, text: string, id: string, request: Request, after: Entry)
    requires ManagedIndex(sourceId, text, id) >= 0 && EditSafe(text) && EntryShaped(after)
    requires var i := ManagedIndex(sourceId, text, id);
             i < |ManagedJobs(Parsed(text))| && Carried(ManagedJobs(Parsed(text))[i], request, after)
    requires NoCollisions(sourceId, Commands(Jobs(Parsed(text))))
    ensures var i := ManagedIndex(sourceId, text, id);
            var jobs := Jobs(Parsed(text));
            && i < |EntriesOf(jobs)|
            && IdAt(sourceId, Commands(jobs), ManagedAt(jobs, i)) == id
            && (forall k | 0 <= k < |jobs| && IdAt(sourceId, Commands(jobs), k) == id :: k == ManagedAt(jobs, i))
            && EditsOnly(sourceId, jobs, ManagedAt(jobs, i), request,
                         Jobs(Parsed(WriteManagedBlock(text, ManagedJobs(Parsed(text))[i := after]))))
  {
    var i := ManagedIndex(sourceId, text, id);
    EntriesAreManaged(text);
    ManagedIndexNamesTheLine(sourceId, text, id);
    EditHitsOneLineExactlyWhen(text, i, after);
    UpdatedInPlace(sourceId, Jobs(Parsed(text)), i, request, after);
  }

  /** Switching a job on or off is always such a line: only a new expression can be one the parser does not read. */
  lemma TogglingIsAlwaysShaped(text: string, i: nat, request: Request, after: Entry)
    requires i < |ManagedJobs(Parsed(text))| && request.expression.None?
    requires Carried(ManagedJobs(Parsed(text))[i], request, after)
    ensures EntryShaped(after)
  {
    EntriesReadAreShaped(text);
  }

  /** The second half of the promise: the lines outside the block, on the same edit. */
  lemma EditKeepsForeignLines(text: string, i: nat, after: Entry)
    requires i < |ManagedJobs(Parsed(text))| && EntryShaped(after)
    requires !StrayEnd(SplitLines(text))
    ensures var edited := WriteManagedBlock(text, ManagedJobs(Parsed(text))[i := after]);
            Foreign(SplitLines(edited), false) == Foreign(SplitLines(text), false) + Added(SplitLines(text))
    ensures Closed(SplitLines(text)) ==> Added(SplitLines(text)) == []
  {
    EntriesReadAreShaped(text);
    ForeignLinesSurvive(text, ManagedJobs(Parsed(text))[i := after]);
  }
}
