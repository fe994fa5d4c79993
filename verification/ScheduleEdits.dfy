/**
 * Editing a schedule: an id names the n-th line of a crontab that runs a command, and the edit has to land on exactly
 * that line and leave every other line, and every identity, where it was.
 */
module ScheduleEdits {
  import opened Options
  import opened JsText
  import opened Sequences
  import opened Crontab
  import opened CrontabLaws
  import opened ScheduleIds

  // ---------------------------------------------------------------- identities

  /** The n-th line with this command. */
  datatype Identity = Identity(command: string, occurrence: nat)

  /** How often a command stands among the commands already seen. */
  function Occurrences(seen: seq<string>, command: string): nat {
    if seen == [] then 0 else Occurrences(seen[..|seen| - 1], command) + if seen[|seen| - 1] == command then 1 else 0
  }

  lemma {:induction false} OccurrencesAreCounted(seen: seq<string>, command: string)
    ensures Occurrences(seen, command) == multiset(seen)[command]
  {
    if seen != [] {
      var n := |seen| - 1;
      OccurrencesAreCounted(seen[..n], command);
      assert seen == seen[..n] + [seen[n]];
    }
  }

  /** An id is the hash of the command and of how many of the job lines above run that very command. */
  lemma IdTellsTheOrdinal(sourceId: string, commands: seq<string>, k: nat)
    requires k < |commands|
    ensures IdAt(sourceId, commands, k) == ScheduleIdOf(sourceId, commands[k], multiset(commands[..k])[commands[k]])
  {
    OccurrencesAreCounted(commands[..k], commands[k]);
  }

  function Commands(jobs: seq<Job>): (commands: seq<string>)
    ensures |commands| == |jobs|
  {
    seq(|jobs|, i requires 0 <= i < |jobs| => jobs[i].command)
  }

  function IdentityAt(commands: seq<string>, k: nat): Identity
    requires k < |commands|
  {
    Identity(commands[k], Occurrences(commands[..k], commands[k]))
  }

  function IdAt(sourceId: string, commands: seq<string>, k: nat): string
    requires k < |commands|
  {
    ScheduleIdOf(sourceId, IdentityAt(commands, k).command, IdentityAt(commands, k).occurrence)
  }

  lemma {:induction false} OccurrencesGrow(seen: seq<string>, more: nat, command: string)
    requires more <= |seen|
    ensures Occurrences(seen[..more], command) <= Occurrences(seen, command)
    decreases |seen|
  {
    if more < |seen| {
      var shorter := seen[..|seen| - 1];
      assert shorter[..more] == seen[..more];
      OccurrencesGrow(shorter, more, command);
    } else {
      assert seen[..more] == seen;
    }
  }

  /** No two lines of a file have the same identity. */
  lemma IdentitiesAreDistinct(commands: seq<string>, j: nat, k: nat)
    requires j < k < |commands|
    ensures IdentityAt(commands, j) != IdentityAt(commands, k)
  {
    if commands[j] == commands[k] {
      var upTo := commands[..j + 1];
      assert upTo[..|upTo| - 1] == commands[..j] && upTo[|upTo| - 1] == commands[j];
      assert commands[..k][..j + 1] == upTo;
      OccurrencesGrow(commands[..k], j + 1, commands[k]);
    }
  }

  /** No two lines of the file hash to the same id. */
  predicate NoCollisions(sourceId: string, commands: seq<string>) {
    forall j, k | 0 <= j < |commands| && 0 <= k < |commands|
        && IdAt(sourceId, commands, j) == IdAt(sourceId, commands, k) :: j == k
  }

  /** Two lines share an id only where the hash of two different texts collides. */
  lemma SharedIdsAreHashCollisions(sourceId: string, commands: seq<string>, j: nat, k: nat)
    requires j < |commands| && k < |commands| && j != k
    requires Trimmed(commands[j]) && Trimmed(commands[k])
    requires IdAt(sourceId, commands, j) == IdAt(sourceId, commands, k)
    ensures var a, b := IdentityAt(commands, j), IdentityAt(commands, k);
            && Input(sourceId, a.command, a.occurrence) != Input(sourceId, b.command, b.occurrence)
            && Fnv1a(Utf16(Input(sourceId, a.command, a.occurrence)))
               == Fnv1a(Utf16(Input(sourceId, b.command, b.occurrence)))
  {
    var a, b := IdentityAt(commands, j), IdentityAt(commands, k);
    if j < k {
      IdentitiesAreDistinct(commands, j, k);
    } else {
      IdentitiesAreDistinct(commands, k, j);
    }
    IdIsTheHash(sourceId, a.command, a.occurrence);
    IdIsTheHash(sourceId, b.command, b.occurrence);
    if Input(sourceId, a.command, a.occurrence) == Input(sourceId, b.command, b.occurrence) {
      InputIsInjective(sourceId, a.command, a.occurrence, b.command, b.occurrence);
    }
  }

  // ---------------------------------------------------------------- the ids of a file, line by line

  /** The id of every line, none for lines that are not jobs: position is position in the file. */
  function LineIds(sourceId: string, lines: seq<Line>): (ids: seq<Option<string>>)
    ensures |ids| == |lines|
  {
    seq(|lines|, k requires 0 <= k < |lines| => LineIdAt(sourceId, lines, k))
  }

  /** The ordinal counts every job line above, managed or written by hand. */
  function LineIdAt(sourceId: string, lines: seq<Line>, k: nat): Option<string>
    requires k < |lines|
  {
    if lines[k].JobLine?
    then Some(ScheduleIdOf(sourceId, lines[k].command, Occurrences(Commands(Jobs(lines[..k])), lines[k].command)))
    else None
  }

  ghost predicate Counts(seen: map<string, nat>, commands: seq<string>) {
    && (forall c | c in seen :: seen[c] == Occurrences(commands, c))
    && (forall c: string | c !in seen :: Occurrences(commands, c) == 0)
  }

  lemma CountOneMore(seen: map<string, nat>, commands: seq<string>, command: string)
    requires Counts(seen, commands)
    ensures Counts(seen[command := Occurrences(commands, command) + 1], commands + [command])
  {
    var more := commands + [command];
    assert more[..|more| - 1] == commands;
    forall c: string
      ensures Occurrences(more, c) == Occurrences(commands, c) + if command == c then 1 else 0
    {
    }
  }

  lemma JobsCons(line: Line, rest: seq<Line>)
    ensures Jobs([line] + rest) == JobOf(line) + Jobs(rest)
  {
    assert ([line] + rest)[1..] == rest;
  }

  lemma {:induction false} JobsOfConcat(a: seq<Line>, b: seq<Line>)
    ensures Jobs(a + b) == Jobs(a) + Jobs(b)
  {
    if a == [] {
      assert a + b == b;
    } else {
      JobsOfConcat(a[1..], b);
      assert a == [a[0]] + a[1..];
      Regroup([a[0]], a[1..], b);
      JobsCons(a[0], a[1..] + b);
      Regroup(JobOf(a[0]), Jobs(a[1..]), Jobs(b));
    }
  }

  lemma OneMoreLine(lines: seq<Line>, k: nat)
    requires k < |lines|
    ensures Jobs(lines[..k + 1]) == Jobs(lines[..k]) + JobOf(lines[k])
  {
    assert lines[..k + 1] == lines[..k] + [lines[k]];
    JobsOfConcat(lines[..k], [lines[k]]);
    assert Jobs([lines[k]]) == JobOf(lines[k]) + Jobs([lines[k]][1..]);
  }

  lemma OneMoreCommand(lines: seq<Line>, k: nat)
    requires k < |lines|
    ensures lines[k].JobLine? ==> Commands(Jobs(lines[..k + 1])) == Commands(Jobs(lines[..k])) + [lines[k].command]
    ensures !lines[k].JobLine? ==> Commands(Jobs(lines[..k + 1])) == Commands(Jobs(lines[..k]))
  {
    OneMoreLine(lines, k);
    assert Jobs(lines[..k]) + [] == Jobs(lines[..k]);
  }

  /** What the loop knows after the first `k` lines: their commands, counted, and their ids. */
  ghost predicate Counted(sourceId: string, lines: seq<Line>, k: nat, seen: map<string, nat>, ids: seq<Option<string>>)
    requires k <= |lines|
  {
    && Counts(seen, Commands(Jobs(lines[..k])))
    && ids == LineIds(sourceId, lines)[..k]
  }

  lemma CountedOneMore(
      sourceId: string, lines: seq<Line>, k: nat, seen: map<string, nat>, ids: seq<Option<string>>, occurrence: nat)
    requires k < |lines| && Counted(sourceId, lines, k, seen, ids) && lines[k].JobLine?
    requires occurrence == if lines[k].command in seen then seen[lines[k].command] else 0
    ensures var id := Some(ScheduleIdOf(sourceId, lines[k].command, occurrence));
            Counted(sourceId, lines, k + 1, seen[lines[k].command := occurrence + 1], ids + [id])
  {
    OneMoreCommand(lines, k);
    CountOneMore(seen, Commands(Jobs(lines[..k])), lines[k].command);
    var all := LineIds(sourceId, lines);
    assert all[..k + 1] == all[..k] + [all[k]];
  }

  lemma CountedNoJob(sourceId: string, lines: seq<Line>, k: nat, seen: map<string, nat>, ids: seq<Option<string>>)
    requires k < |lines| && Counted(sourceId, lines, k, seen, ids) && !lines[k].JobLine?
    ensures Counted(sourceId, lines, k + 1, seen, ids + [None])
  {
    OneMoreCommand(lines, k);
    TakeOneMore(LineIds(sourceId, lines), k);
  }

  method OccurrenceIds(sourceId: string, lines: seq<Line>) returns (ids: seq<Option<string>>)
    ensures ids == LineIds(sourceId, lines)
  {
    var seen: map<string, nat> := map[];
    ids := [];
    for i := 0 to |lines|
      invariant Counted(sourceId, lines, i, seen, ids)
    {
      var line := lines[i];
      if line.JobLine? {
        var occurrence := if line.command in seen then seen[line.command] else 0;
        var id := ScheduleId(sourceId, line.command, occurrence);
        CountedOneMore(sourceId, lines, i, seen, ids, occurrence);
        seen := seen[line.command := occurrence + 1];
        ids := ids + [Some(id)];
      } else {
        CountedNoJob(sourceId, lines, i, seen, ids);
        ids := ids + [None];
      }
    }
    assert LineIds(sourceId, lines)[..|lines|] == LineIds(sourceId, lines);
  }

  // ---------------------------------------------------------------- the managed lines among the jobs

  /** Job `k` is managed, and `i` managed ones stand before it. */
  predicate IsManagedAt(jobs: seq<Job>, i: nat, k: nat) {
    k < |jobs| && jobs[k].managed && |EntriesOf(jobs[..k])| == i
  }

  /** Where the i-th managed job stands among all jobs. */
  function ManagedAt(jobs: seq<Job>, i: nat): (k: nat)
    requires i < |EntriesOf(jobs)|
    ensures IsManagedAt(jobs, i, k)
    decreases |jobs|
  {
    var n := |jobs| - 1;
    EntriesUpTo(jobs, n);
    assert jobs[..n + 1] == jobs;
    if i == |EntriesOf(jobs[..n])| then n
    else
      var k := ManagedAt(jobs[..n], i);
      assert jobs[..n][..k] == jobs[..k];
      k
  }

  lemma EntriesAppended(jobs: seq<Job>, job: Job)
    ensures EntriesOf(jobs + [job]) == EntriesOf(jobs) + EntryOf(job)
  {
    EntriesOfConcat(jobs, [job]);
    EntriesOfCons(job, []);
    assert [job] + [] == [job];
  }

  lemma EntriesUpTo(jobs: seq<Job>, k: nat)
    requires k < |jobs|
    ensures EntriesOf(jobs[..k + 1]) == EntriesOf(jobs[..k]) + EntryOf(jobs[k])
  {
    assert jobs[..k + 1] == jobs[..k] + [jobs[k]];
    EntriesAppended(jobs[..k], jobs[k]);
  }

  lemma EntriesGrow(jobs: seq<Job>, j: nat, k: nat)
    requires j <= k <= |jobs|
    ensures |EntriesOf(jobs[..j])| <= |EntriesOf(jobs[..k])|
  {
    assert jobs[..k] == jobs[..j] + jobs[j..k];
    EntriesOfConcat(jobs[..j], jobs[j..k]);
  }

  lemma ManagedAtIsUnique(jobs: seq<Job>, i: nat, k: nat)
    requires i < |EntriesOf(jobs)| && IsManagedAt(jobs, i, k)
    ensures ManagedAt(jobs, i) == k
  {
    var m := ManagedAt(jobs, i);
    EntriesUpTo(jobs, k);
    EntriesUpTo(jobs, m);
    if k < m {
      EntriesGrow(jobs, k + 1, m);
    } else if m < k {
      EntriesGrow(jobs, m + 1, k);
    }
  }

  lemma EntryAt(jobs: seq<Job>, i: nat)
    requires i < |EntriesOf(jobs)|
    ensures var k := ManagedAt(jobs, i);
            EntriesOf(jobs)[i] == Entry(jobs[k].expression, jobs[k].command, jobs[k].enabled)
  {
    var k := ManagedAt(jobs, i);
    EntriesUpTo(jobs, k);
    EntriesOfConcat(jobs[..k + 1], jobs[k + 1..]);
    assert jobs[..k + 1] + jobs[k + 1..] == jobs;
  }

  /** The ids of the managed lines, in file order. */
  function ManagedIds(sourceId: string, jobs: seq<Job>): (ids: seq<string>)
    ensures |ids| == |EntriesOf(jobs)|
  {
    seq(|EntriesOf(jobs)|, i requires 0 <= i < |EntriesOf(jobs)| => IdAt(sourceId, Commands(jobs), ManagedAt(jobs, i)))
  }

  lemma IdAtPrefix(sourceId: string, commands: seq<string>, more: seq<string>, k: nat)
    requires k < |commands|
    ensures IdAt(sourceId, commands + more, k) == IdAt(sourceId, commands, k)
  {
    assert (commands + more)[..k] == commands[..k];
  }

  lemma ManagedIdAmongMore(sourceId: string, jobs: seq<Job>, job: Job, i: nat)
    requires i < |EntriesOf(jobs)|
    ensures i < |EntriesOf(jobs + [job])|
    ensures ManagedIds(sourceId, jobs + [job])[i] == ManagedIds(sourceId, jobs)[i]
  {
    EntriesAppended(jobs, job);
    var k := ManagedAt(jobs, i);
    assert (jobs + [job])[..k] == jobs[..k];
    ManagedAtIsUnique(jobs + [job], i, k);
    CommandsAppended(jobs, job);
    IdAtPrefix(sourceId, Commands(jobs), [job.command], k);
  }

  lemma CommandsAppended(jobs: seq<Job>, job: Job)
    ensures Commands(jobs + [job]) == Commands(jobs) + [job.command]
  {
  }

  lemma LastManagedId(sourceId: string, jobs: seq<Job>, job: Job)
    requires job.managed
    ensures |EntriesOf(jobs)| < |EntriesOf(jobs + [job])|
    ensures ManagedIds(sourceId, jobs + [job])[|EntriesOf(jobs)|] == IdAt(sourceId, Commands(jobs + [job]), |jobs|)
  {
    EntriesAppended(jobs, job);
    assert (jobs + [job])[..|jobs|] == jobs;
    ManagedAtIsUnique(jobs + [job], |EntriesOf(jobs)|, |jobs|);
  }

  lemma OneMoreManagedId(sourceId: string, jobs: seq<Job>, job: Job)
    ensures ManagedIds(sourceId, jobs + [job])
         == ManagedIds(sourceId, jobs) + if job.managed then [IdAt(sourceId, Commands(jobs + [job]), |jobs|)] else []
  {
    EntriesAppended(jobs, job);
    forall i | 0 <= i < |EntriesOf(jobs)|
      ensures ManagedIds(sourceId, jobs + [job])[i] == ManagedIds(sourceId, jobs)[i]
    {
      ManagedIdAmongMore(sourceId, jobs, job, i);
    }
    if job.managed {
      LastManagedId(sourceId, jobs, job);
    }
  }

  /** The managed ids as `updateSchedule` collects them: the ids of the lines, the other lines left out. */
  method CollectManagedIds(sourceId: string, lines: seq<Line>, ids: seq<Option<string>>) returns (managed: seq<string>)
    requires ids == LineIds(sourceId, lines)
    ensures managed == ManagedIds(sourceId, Jobs(lines))
  {
    managed := [];
    for i := 0 to |lines|
      invariant managed == ManagedIds(sourceId, Jobs(lines[..i]))
    {
      OneMoreLine(lines, i);
      if lines[i].JobLine? {
        OneMoreManagedId(sourceId, Jobs(lines[..i]), JobOf(lines[i])[0]);
        LineIdIsJobId(sourceId, lines, i);
        if lines[i].managed {
          managed := managed + [ids[i].value];
        }
      } else {
        assert Jobs(lines[..i]) + [] == Jobs(lines[..i]);
      }
    }
    assert lines[..|lines|] == lines;
  }

  lemma LineIdIsJobId(sourceId: string, lines: seq<Line>, k: nat)
    requires k < |lines| && lines[k].JobLine?
    ensures |Jobs(lines[..k])| < |Jobs(lines[..k + 1])|
    ensures LineIdAt(sourceId, lines, k) == Some(IdAt(sourceId, Commands(Jobs(lines[..k + 1])), |Jobs(lines[..k])|))
  {
    OneMoreLine(lines, k);
    var commands := Commands(Jobs(lines[..k + 1]));
    assert commands[..|Jobs(lines[..k])|] == Commands(Jobs(lines[..k]));
  }
}
