/**
 * The stage that a run's row records for its escalation.
 *
 * The listener of a stage writes it when the signal's answer comes; the outcome carries the stage reached when it was
 * decided. Nothing orders the two writes.
 */
module RunStages {
  import opened Options
  import opened RunRecord
  import opened StagedAborts
  import opened RunProtocol
  import opened RunInvariants
  import opened RunSafety
  import opened RunEffects
  import opened RunTheorems

  // ---------------------------------------------------------------- which step takes it back

  /** The write of the outcome takes back a stage that was reported after the outcome was decided. */
  ghost predicate OverwritesAStage(s: State, step: Step) {
    && step.Work? && step.i < |s.workers|
    && s.workers[step.i].pc.WriteOutcome? && s.workers[step.i].hold.outcome.Some?
    && StillOpen(s.sh.row)
    && StageRank(s.workers[step.i].hold.outcome.value.stage) < StageRank(s.sh.row.abortStage)
  }

  lemma WorkWritesTheStage(row: Row, w: Worker, c: Chance)
    requires CanWork(w)
    ensures RowAfterWork(row, w, c).abortStage ==
            if w.pc.WriteOutcome? && StillOpen(row) then w.hold.outcome.value.stage
            else row.abortStage
  {
  }

  lemma NothingElseWritesTheStage(s: State, step: Step)
    requires Enabled(s, step) && !step.Work? && !step.Escalate?
    ensures Next(s, step).sh.row.abortStage == s.sh.row.abortStage
  {
  }

  lemma EscalationWritesTheStageOn(s: State, i: nat, ok: bool)
    requires Inv(s) && i < |s.workers| && CanEscalate(s.workers[i].hold.abort, s.graces, ok)
    ensures StageRank(s.sh.row.abortStage) <= StageRank(EscalatedAt(s, i, ok).sh.row.abortStage)
  {
    OnlyTheWinnerEscalates(s, i, ok);
    ReportedRow(s.sh.row, s.workers[i].hold.abort, ok);
  }

  /** Other than that, no step whatsoever moves the row's abort stage backwards. */
  lemma StageGoesBackExactlyWhenOverwritten(s: State, step: Step)
    requires Reachable(s) && Enabled(s, step)
    ensures StageRank(Next(s, step).sh.row.abortStage) < StageRank(s.sh.row.abortStage) <==> OverwritesAStage(s, step)
  {
    ReachableIsInv(s);
    if step.Work? {
      WorkWritesTheStage(s.sh.row, s.workers[step.i], step.chance);
    } else if step.Escalate? {
      EscalationWritesTheStageOn(s, step.i, step.ok);
    } else {
      NothingElseWritesTheStage(s, step);
    }
  }

  // ---------------------------------------------------------------- exactly when that can happen

  /** Some run from here takes the recorded stage back. */
  ghost predicate StageCanGoBack(s: State) {
    exists steps: seq<Step>, t: State, step: Step ::
      Leads(s, steps, t) && Enabled(t, step) && OverwritesAStage(t, step)
  }

  /** The exit was seen with no signal on its way, and what was decided, if anything was, is what was reached. */
  predicate Truthful(w: Worker) {
    && w.hold.abort.exited && !w.hold.abort.phase.Signalling?
    && (w.hold.outcome.Some? ==> w.hold.outcome.value.stage == w.hold.abort.reached)
  }

  /** After the exit, only the answer to a signal moves the reached stage, and no further signal goes out. */
  lemma AfterTheExit(a: Abort, graces: Graces, ok: bool)
    requires a.exited && !a.phase.Signalling? && CanEscalate(a, graces, ok)
    ensures var b := Escalated(a, graces, ok); b.exited && !b.phase.Signalling? && b.reached == a.reached
  {
  }

  lemma WorkIsTruthful(row: Row, w: Worker, c: Chance)
    requires CanWork(w) && Truthful(w)
    ensures Truthful(w.(hold := HoldAfter(row, w, c)))
  {
    match w.pc {
      case SecondStopRead => assert HoldAfter(row, w, c) == LookedAgain(w.hold, ReadStop(row, c.ok));
      case Decide =>
      case _ => WorkRequests(row, w, c);
    }
  }

  lemma EventsAreTruthful(w: Worker, event: Happening)
    requires CanBefall(w, event) && Truthful(w)
    ensures Truthful(Befallen(w, event))
  {
    match event {
      case Death =>
      case Confirmation =>
      case Message =>
      case Closing(code, signalled) =>
      case ExitShows =>
    }
  }

  lemma EffectsAreTruthful(w: Worker, effect: Effect, graces: Graces)
    requires CanUndergo(w, effect, graces) && Truthful(w)
    ensures Truthful(Undergone(w, effect, graces))
  {
    match effect {
      case Catches => ExceptionsTouchHistoryOnly(w);
      case Escalates(ok) => AfterTheExit(w.hold.abort, graces, ok);
      case Suffers(event) => EventsAreTruthful(w, event);
      case _ =>
    }
  }

  /** A claimed run whose winner is truthful, or one that is over. */
  ghost predicate KeepsItsStage(s: State, i: nat) {
    && Inv(s) && s.sh.winner == Some(i)
    && (IsTerminal(s.sh.row.status) || Truthful(s.workers[i]))
  }

  lemma TruthStays(s: State, step: Step, i: nat)
    requires Enabled(s, step) && i < |s.workers| && Truthful(s.workers[i])
    ensures i < |Next(s, step).workers| && Truthful(Next(s, step).workers[i])
  {
    StepsHaveEffects(s, step, i);
    if WorksOn(step, i) {
      WorkIsTruthful(s.sh.row, s.workers[i], step.chance);
    } else {
      EffectsAreTruthful(s.workers[i], EffectOn(s, step, i), s.graces);
    }
  }

  lemma StageIsKept(s: State, step: Step, i: nat)
    requires KeepsItsStage(s, i) && Enabled(s, step)
    ensures KeepsItsStage(Next(s, step), i)
  {
    StepKeepsInv(s, step);
    AClaimedRunHasNoNewWinner(s, step);
    if !IsTerminal(s.sh.row.status) {
      TruthStays(s, step, i);
    }
  }

  lemma KeptIsNotOverwritten(s: State, step: Step, i: nat)
    requires KeepsItsStage(s, i) && Enabled(s, step)
    ensures !OverwritesAStage(s, step)
  {
    if step.Work? && step.i != i {
      assert Bystander(s.workers[step.i]);
    }
  }

  lemma {:induction false} NeverOverwritten(s: State, steps: seq<Step>, t: State, i: nat)
    requires KeepsItsStage(s, i) && Leads(s, steps, t)
    ensures KeepsItsStage(t, i)
    decreases |steps|
  {
    if steps != [] {
      StageIsKept(s, steps[0], i);
      NeverOverwritten(Next(s, steps[0]), steps[1..], t, i);
    }
  }

  lemma GoesBackAtOnce(s: State, step: Step)
    requires Enabled(s, step) && OverwritesAStage(s, step)
    ensures StageCanGoBack(s)
  {
    assert Leads(s, [], s);
  }

  lemma GoesBackLater(s: State, step: Step)
    requires Enabled(s, step) && StageCanGoBack(Next(s, step))
    ensures StageCanGoBack(s)
  {
    var steps: seq<Step>, t: State, last: Step :|
      Leads(Next(s, step), steps, t) && Enabled(t, last) && OverwritesAStage(t, last);
    OneStepFirst(s, step, steps, t);
  }

  /** The listener writes the stage that was reached, and the outcome decided before is still to be written. */
  lemma ReportGoesBack(s: State, i: nat)
    requires i < |s.workers| && s.workers[i].pc.WriteOutcome? && s.workers[i].hold.outcome.Some?
    requires s.sh.row.status.Running? && s.workers[i].hold.abort.phase.Reporting?
    requires StageRank(s.workers[i].hold.outcome.value.stage) < Rank(s.workers[i].hold.abort.phase.stage)
    ensures StageCanGoBack(s)
  {
    var reported := EscalatedAt(s, i, true);
    GoesBackAtOnce(reported, Undisturbed(i));
    GoesBackLater(s, Escalate(i, true));
  }

  lemma AnswerGoesBack(s: State, i: nat)
    requires i < |s.workers| && s.workers[i].pc.WriteOutcome? && s.workers[i].hold.outcome.Some?
    requires s.sh.row.status.Running? && s.workers[i].hold.abort.phase.Signalling?
    requires StageRank(s.workers[i].hold.outcome.value.stage) < Rank(s.workers[i].hold.abort.phase.stage)
    ensures StageCanGoBack(s)
  {
    ReportGoesBack(EscalatedAt(s, i, true), i);
    GoesBackLater(s, Escalate(i, true));
  }

  lemma TheDecision(sh: Shared, w: Worker, i: nat, c: Chance)
    requires w.pc.Decide? && w.hold.channel.Closed?
    ensures SharedAfter(sh, w, i, c).row == sh.row
    ensures WorkerAfter(sh, w, c)
         == w.(pc := WriteOutcome, hold := w.hold.(outcome := Some(Decided(w.hold.channel, w.hold.abort))))
  {
  }

  /** The worker decides; then the signal is answered, and the listener writes the stage it reached. */
  lemma LateAnswerGoesBack(s: State, i: nat)
    requires i < |s.workers| && s.workers[i].pc.Decide? && s.workers[i].hold.channel.Closed?
    requires Orderly(s.workers[i].hold.abort, s.graces)
    requires s.sh.row.status.Running? && s.workers[i].hold.abort.phase.Signalling?
    ensures StageCanGoBack(s)
  {
    TheDecision(s.sh, s.workers[i], i, Chance(0, true, 0));
    AnswerGoesBack(Worked(s, i, Chance(0, true, 0)), i);
    GoesBackLater(s, Undisturbed(i));
  }

  /**
   * As the outcome is about to be decided: the recorded stage can go back later if and only if the run is still running
   * and a signal is still on its way.
   */
  lemma StageCanGoBackExactlyWhen(s: State, i: nat)
    requires Reachable(s) && s.sh.winner == Some(i) && i < |s.workers| && s.workers[i].pc.Decide?
    ensures StageCanGoBack(s) <==> s.sh.row.status.Running? && s.workers[i].hold.abort.phase.Signalling?
  {
    ReachableIsInv(s);
    if s.sh.row.status.Running? && s.workers[i].hold.abort.phase.Signalling? {
      LateAnswerGoesBack(s, i);
    } else {
      assert KeepsItsStage(s, i);
      forall steps: seq<Step>, t: State, step: Step | Leads(s, steps, t) && Enabled(t, step)
        ensures !OverwritesAStage(t, step)
      {
        NeverOverwritten(s, steps, t, i);
        KeptIsNotOverwritten(t, step, i);
      }
    }
  }
}
