/** What a run is promised, over every interleaving of everybody who touches it. */
module RunTheorems {
  import opened Options
  import opened RunRecord
  import opened StagedAborts
  import opened RunProtocol
  import opened RunInvariants
  import opened RunSafety
  import opened RunEffects
  import Sequences

  lemma {:induction false} LeadsOn(s: State, first: seq<Step>, m: State, second: seq<Step>, t: State)
    requires Leads(s, first, m) && Leads(m, second, t)
    ensures Leads(s, first + second, t)
    decreases |first|
  {
    if first == [] {
      assert first + second == second;
    } else {
      LeadsOn(Next(s, first[0]), first[1..], m, second, t);
      assert (first + second)[1..] == first[1..] + second;
    }
  }

  lemma OneStepFirst(s: State, step: Step, steps: seq<Step>, t: State)
    requires Enabled(s, step) && Leads(Next(s, step), steps, t)
    ensures Leads(s, [step] + steps, t)
  {
    assert ([step] + steps)[1..] == steps;
  }

  lemma ReachableOn(s: State, steps: seq<Step>, t: State)
    requires Reachable(s) && Leads(s, steps, t)
    ensures Reachable(t)
  {
    var first: State, before: seq<Step> :| Init(first) && Leads(first, before, s);
    LeadsOn(first, before, s, steps, t);
  }

  lemma AClaimedRunHasNoNewWinner(s: State, step: Step)
    requires Enabled(s, step) && !s.sh.row.status.Queued?
    ensures Next(s, step).sh.winner == s.sh.winner
  {
  }

  // ---------------------------------------------------------------- the script is started at most once

  /** How often `target.start` is called along a run. */
  ghost function StartCalls(s: State, steps: seq<Step>): nat
    decreases |steps|
  {
    if steps == [] || !Enabled(s, steps[0]) then 0
    else
      var step := steps[0];
      (if (step.Work? || step.Throw?) && s.workers[step.i].pc.StartScript? then 1 else 0)
          + StartCalls(Next(s, step), steps[1..])
  }

  lemma {:induction false} StartsCountTheCalls(s: State, steps: seq<Step>, t: State)
    requires Leads(s, steps, t)
    ensures t.sh.starts == s.sh.starts + StartCalls(s, steps)
    decreases |steps|
  {
    if steps != [] {
      StartsCountTheCalls(Next(s, steps[0]), steps[1..], t);
    }
  }

  /** Claims expire, jobs are requeued, strangers renew: the script is still started at most once. */
  lemma StartedAtMostOnce(first: State, steps: seq<Step>, t: State)
    requires Init(first) && Leads(first, steps, t)
    ensures StartCalls(first, steps) <= 1
  {
    StartsCountTheCalls(first, steps, t);
    assert Reachable(t);
    ReachableIsInv(t);
  }

  /** A run cancelled while it was queued is never started, before or after. */
  lemma CancelledIsNeverStarted(first: State, steps: seq<Step>, t: State, j: nat)
    requires Init(first) && Leads(first, steps, t)
    requires j < |t.stops| && t.stops[j].pc.Cancelled?
    ensures StartCalls(first, steps) == 0
    ensures t.sh.row.status.Aborted? && CollectionSettled(t.sh.row)
  {
    StartsCountTheCalls(first, steps, t);
    assert Reachable(t);
    ReachableIsInv(t);
    assert StopOk(t, t.stops[j]);
  }

  // ---------------------------------------------------------------- the record

  /** In every reachable state the columns of the row agree with one another. */
  lemma RecordIsCoherent(s: State)
    requires Reachable(s)
    ensures Coherent(s.sh.row)
  {
    ReachableIsInv(s);
  }

  /** Once a run is over, nothing anybody does rewrites how it ended. */
  lemma OutcomeIsFinal(s: State, steps: seq<Step>, t: State)
    requires Reachable(s) && Leads(s, steps, t) && IsTerminal(s.sh.row.status)
    ensures SameOutcome(s.sh.row, t.sh.row)
  {
    ReachableIsInv(s);
    RunKeepsInv(s, steps, t);
  }

  // ---------------------------------------------------------------- moments

  /** What did not hold before a run and holds after it came to hold in one of its steps. */
  lemma {:induction false} TheMoment(p: State -> bool, s: State, steps: seq<Step>, t: State)
    returns (before: seq<Step>, m: State, step: Step, after: seq<Step>)
    requires Leads(s, steps, t) && !p(s) && p(t)
    ensures steps == before + [step] + after
    ensures Leads(s, before, m) && Enabled(m, step) && !p(m) && p(Next(m, step)) && Leads(Next(m, step), after, t)
    decreases |steps|
  {
    var next := Next(s, steps[0]);
    if p(next) {
      before, m, step, after := [], s, steps[0], steps[1..];
    } else {
      var later;
      later, m, step, after := TheMoment(p, next, steps[1..], t);
      before := [steps[0]] + later;
      OneStepFirst(s, steps[0], later, m);
      Sequences.Prepended(steps[0], later, step, after);
    }
  }

  ghost predicate IsRequested(s: State, i: nat) {
    i < |s.workers| && s.workers[i].hold.abort.requested
  }

  /** The moment an escalation began: nobody had asked before, and the exit had not been seen. */
  ghost predicate AcceptedAt(m: State, step: Step, i: nat) {
    && Enabled(m, step)
    && !IsRequested(m, i) && IsRequested(Next(m, step), i)
    && i < |m.workers| && !m.workers[i].hold.abort.exited
  }

  lemma RequestNeedsAWorker(s: State, step: Step, i: nat)
    requires Enabled(s, step) && !IsRequested(s, i) && IsRequested(Next(s, step), i)
    ensures AcceptedAt(s, step, i)
  {
    if i < |s.workers| {
      StepMovesAbort(s, step, i);
    }
  }

  /** Behind every escalation, in every run, is one such moment. */
  lemma EscalationHadItsMoment(s: State, steps: seq<Step>, t: State, i: nat)
    returns (before: seq<Step>, m: State, step: Step, after: seq<Step>)
    requires Leads(s, steps, t) && !IsRequested(s, i) && IsRequested(t, i)
    ensures steps == before + [step] + after
    ensures Leads(s, before, m) && AcceptedAt(m, step, i) && Leads(Next(m, step), after, t)
  {
    before, m, step, after := TheMoment(x => IsRequested(x, i), s, steps, t);
    RequestNeedsAWorker(m, step, i);
  }

  ghost predicate ExitedUnasked(s: State, i: nat, code: Option<int>) {
    && i < |s.workers|
    && s.workers[i].hold.abort.exited && !s.workers[i].hold.abort.requested
    && s.workers[i].hold.channel.Closed? && s.workers[i].hold.channel.code == code
  }

  lemma ExitedUnaskedStays(s: State, step: Step, i: nat, code: Option<int>)
    requires Inv(s) && Enabled(s, step) && ExitedUnasked(s, i, code)
    ensures ExitedUnasked(Next(s, step), i, code)
  {
    assert s.sh.winner != Some(i) ==> Bystander(s.workers[i]);
    assert !s.workers[i].pc.StartScript? && s.workers[i].hold.abort.phase.Idle?;
    StepMovesAbort(s, step, i);
    StepKeepsTheChannel(s, step, i);
  }

  lemma {:induction false} ExitedUnaskedForever(s: State, steps: seq<Step>, t: State, i: nat, code: Option<int>)
    requires Inv(s) && Leads(s, steps, t) && ExitedUnasked(s, i, code)
    ensures ExitedUnasked(t, i, code)
    decreases |steps|
  {
    if steps != [] {
      StepKeepsInv(s, steps[0]);
      ExitedUnaskedStays(s, steps[0], i, code);
      ExitedUnaskedForever(Next(s, steps[0]), steps[1..], t, i, code);
    }
  }

  /**
   * A stop that arrives after the exit was seen changes nothing: nothing is signalled, and a script that exited
   * with 0 is decided to have succeeded, whatever is pressed from then on.
   */
  lemma LateStopChangesNothing(s: State, steps: seq<Step>, t: State, i: nat)
    requires Reachable(s) && Leads(s, steps, t) && ExitedUnasked(s, i, Some(0))
    ensures i < |t.workers| && t.workers[i].hold.abort.attempts == []
    ensures t.workers[i].hold.outcome.Some?
            ==> t.workers[i].hold.outcome.value == Outcome(Succeeded, Some(0), None, None)
    ensures !t.sh.row.status.Aborted?
  {
    ReachableIsInv(s);
    ExitedUnaskedForever(s, steps, t, i, Some(0));
    RunKeepsInv(s, steps, t);
    TheExitDecides(t, i);
  }

  lemma UnaskedWinner(row: Row, w: Worker, graces: Graces)
    requires WinnerOk(row, w, graces) && !w.hold.abort.requested && w.hold.abort.exited
             && w.hold.channel.code == Some(0)
    ensures w.hold.outcome.Some? ==> w.hold.outcome.value == Outcome(Succeeded, Some(0), None, None)
    ensures w.hold.abort.attempts == [] && !row.status.Aborted?
  {
  }

  lemma TheExitDecides(t: State, i: nat)
    requires Inv(t) && ExitedUnasked(t, i, Some(0))
    ensures t.workers[i].hold.abort.attempts == []
    ensures t.workers[i].hold.outcome.Some?
            ==> t.workers[i].hold.outcome.value == Outcome(Succeeded, Some(0), None, None)
    ensures !t.sh.row.status.Aborted?
  {
    assert t.sh.winner != Some(i) ==> Bystander(t.workers[i]);
    UnaskedWinner(t.sh.row, t.workers[i], t.graces);
  }

  // ---------------------------------------------------------------- the collection settles

  /** Once a view may stop asking, it may stop for ever. */
  lemma SettledForever(s: State, steps: seq<Step>, t: State)
    requires Reachable(s) && Leads(s, steps, t) && CollectionSettled(s.sh.row)
    ensures CollectionSettled(t.sh.row)
  {
    ReachableIsInv(s);
    RunKeepsInv(s, steps, t);
  }

  /**
   * A run that is over but whose collection is not: either its worker is still between the two writes, or an
   * exception or a crash took the worker out of there and only a read can settle it.
   */
  lemma UnsettledHasACollector(s: State)
    requires Reachable(s) && IsTerminal(s.sh.row.status) && !CollectionSettled(s.sh.row)
    ensures s.sh.winner.Some? && s.sh.winner.value < |s.workers|
    ensures var w := s.workers[s.sh.winner.value];
            && w.hold.outcome.Some?
            && (PlaceOf(w.pc).WindingUp? || w.hold.unwound || w.pc.Crashed?)
  {
    ReachableIsInv(s);
  }

  function Undisturbed(i: nat): Step {
    Work(i, Chance(0, true, 0))
  }

  /** Nobody but worker `i` moves, and chance is kind. */
  ghost predicate Alone(i: nat, steps: seq<Step>) {
    forall step | step in steps :: step == Undisturbed(i)
  }

  lemma AloneOn(i: nat, steps: seq<Step>)
    requires Alone(i, steps)
    ensures Alone(i, [Undisturbed(i)] + steps)
  {
  }

  function ToTheMark(pc: Pc): nat {
    match pc
    case AppendExited => 5
    case AuditOutcome => 4
    case SaveTranscript => 3
    case AppendNotSaved => 3
    case ListOutput => 2
    case RecordResults => 1
    case _ => 0
  }

  predicate MarksTheEnd(pc: Pc) {
    pc.MarkCollected? || pc.EndCollection?
  }

  lemma WindUpStep(sh: Shared, w: Worker, i: nat)
    requires CanWork(w) && PlaceOf(w.pc).WindingUp? && !MarksTheEnd(w.pc)
    ensures var w' := WorkerAfter(sh, w, Chance(0, true, 0));
            PlaceOf(w'.pc).WindingUp? && ToTheMark(w'.pc) < ToTheMark(w.pc)
    ensures SharedAfter(sh, w, i, Chance(0, true, 0)).winner == sh.winner
  {
  }

  lemma TheMark(row: Row, w: Worker, c: Chance)
    requires MarksTheEnd(w.pc) && IsTerminal(row.status)
    ensures CollectionSettled(RowAfterWork(row, w, c))
  {
  }

  /** A worker that is winding up, left undisturbed, settles the collection. */
  lemma {:induction false} CollectorSettles(s: State, i: nat) returns (steps: seq<Step>, t: State)
    requires Inv(s) && i < |s.workers| && s.sh.winner == Some(i) && PlaceOf(s.workers[i].pc).WindingUp?
    ensures Leads(s, steps, t) && Alone(i, steps) && CollectionSettled(t.sh.row)
    decreases ToTheMark(s.workers[i].pc)
  {
    var next := Worked(s, i, Chance(0, true, 0));
    if MarksTheEnd(s.workers[i].pc) {
      TheMark(s.sh.row, s.workers[i], Chance(0, true, 0));
      steps, t := [], next;
    } else {
      WindUpStep(s.sh, s.workers[i], i);
      WorkIsSafe(s, i, Chance(0, true, 0));
      steps, t := CollectorSettles(next, i);
    }
    OneStepFirst(s, Undisturbed(i), steps, t);
    AloneOn(i, steps);
    steps := [Undisturbed(i)] + steps;
  }

  /** A minute since the run ended, as far as its row says. */
  predicate EndedAMinuteAgo(found: Row, now: int) {
    && (found.finishedAt.Some? ==> 60_000 <= now - found.finishedAt.value)
    && (found.finishedAt.None? ==> 60_000 <= now - found.queuedAt)
  }

  lemma ReapDecides(s: State, k: nat, now: int)
    requires k < |s.reaps| && s.reaps[k].pc.Judging? && s.sh.claim.None?
    requires var found := s.reaps[k].pc.found;
             IsTerminal(found.status) && !CollectionSettled(found) && EndedAMinuteAgo(found, now)
    ensures Next(s, Judge(k, now)).reaps[k].pc.EndingCollection?
  {
  }

  lemma ReapWriteSettles(t: State, k: nat, at: int)
    requires Inv(t) && k < |t.reaps| && t.reaps[k].pc.EndingCollection?
    ensures CollectionSettled(Next(t, Judge(k, at)).sh.row)
  {
    assert ReapOk(t.sh.row, t.reaps[k]);
  }

  /**
   * The first read that finds the run over and unsettled, with the claim gone and the grace past, settles it: it
   * decides to, and its write lands whatever anybody does in between.
   */
  lemma FirstReapSettles(s: State, k: nat, now: int, steps: seq<Step>, t: State, at: int)
    requires Reachable(s) && k < |s.reaps| && s.reaps[k].pc.Judging? && s.sh.claim.None?
    requires var found := s.reaps[k].pc.found;
             IsTerminal(found.status) && !CollectionSettled(found) && EndedAMinuteAgo(found, now)
    requires Leads(Next(s, Judge(k, now)), steps, t)
    requires k < |t.reaps| && t.reaps[k].pc.EndingCollection?
    ensures Next(s, Judge(k, now)).reaps[k].pc.EndingCollection?
    ensures CollectionSettled(Next(t, Judge(k, at)).sh.row)
  {
    ReachableIsInv(s);
    ReapDecides(s, k, now);
    StepKeepsInv(s, Judge(k, now));
    RunKeepsInv(Next(s, Judge(k, now)), steps, t);
    ReapWriteSettles(t, k, at);
  }
}
