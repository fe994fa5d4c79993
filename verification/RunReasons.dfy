/** Why a run failed: the reason its row gives names something that happened to it. */
module RunReasons {
  import opened Options
  import opened RunRecord
  import opened StagedAborts
  import opened RunProtocol
  import opened RunInvariants
  import opened RunSafety
  import opened RunEffects
  import opened RunTheorems
  import opened RunReaps
  import opened RunOutcomes

  // ---------------------------------------------------------------- who writes a reason

  /** The step writes this reason, with the exit code that goes with it. */
  ghost predicate WritesReason(s: State, step: Step, reason: FailureReason) {
    match step
    case Work(i, c) =>
      && i < |s.workers|
      && (|| (s.workers[i].pc.FailRow? && s.workers[i].pc.reason == reason)
          || (s.workers[i].pc.AbortRow? && reason.AbortedByUser?)
          || (s.sh.winner == Some(i) && s.workers[i].pc.WriteOutcome? && s.workers[i].hold.outcome.Some?
              && s.workers[i].hold.outcome.value.reason == Some(reason)
              && Enabled(s, step) && Next(s, step).sh.row.exitCode == s.workers[i].hold.outcome.value.code))
    case Operate(j, _) => j < |s.stops| && s.stops[j].pc.CancelRow? && reason.AbortedByUser?
    case Judge(k, _) => k < |s.reaps| && s.reaps[k].pc.FailingRow? && reason.WorkerLost?
    case _ => false
  }

  lemma WorkWritesReason(row: Row, w: Worker, c: Chance, reason: FailureReason)
    requires CanWork(w) && row.failureReason != Some(reason)
    requires RowAfterWork(row, w, c).failureReason == Some(reason)
    ensures || (w.pc.FailRow? && w.pc.reason == reason)
            || (w.pc.AbortRow? && reason.AbortedByUser?)
            || (w.pc.WriteOutcome? && w.hold.outcome.value.reason == Some(reason)
                && RowAfterWork(row, w, c).exitCode == w.hold.outcome.value.code)
  {
  }

  lemma OthersWriteReason(s: State, step: Step, reason: FailureReason)
    requires Enabled(s, step) && !step.Work? && s.sh.row.failureReason != Some(reason)
    requires Next(s, step).sh.row.failureReason == Some(reason)
    ensures WritesReason(s, step, reason)
  {
  }

  lemma WritersOfReasons(s: State, step: Step, reason: FailureReason)
    requires Inv(s) && Enabled(s, step) && s.sh.row.failureReason != Some(reason)
    requires Next(s, step).sh.row.failureReason == Some(reason)
    ensures WritesReason(s, step, reason)
  {
    if step.Work? {
      WorkWritesReason(s.sh.row, s.workers[step.i], step.chance, reason);
      assert s.sh.winner != Some(step.i) ==> Bystander(s.workers[step.i]);
    } else {
      OthersWriteReason(s, step, reason);
    }
  }

  lemma EndedRowStays(m: State, steps: seq<Step>, t: State)
    requires Inv(m) && m.sh.row.failureReason.Some? && Leads(m, steps, t)
    ensures t.sh.row.exitCode == m.sh.row.exitCode
  {
    RunKeepsInv(m, steps, t);
  }

  /** In a run that gave its row a reason there is the step that wrote it, and the code beside it stayed. */
  lemma WrittenAtAMoment(first: State, steps: seq<Step>, t: State, reason: FailureReason)
    returns (before: seq<Step>, m: State, step: Step, after: seq<Step>)
    requires Init(first) && Leads(first, steps, t) && t.sh.row.failureReason == Some(reason)
    ensures steps == before + [step] + after && Leads(first, before, m) && Inv(m) && Enabled(m, step)
    ensures WritesReason(m, step, reason) && Next(m, step).sh.row.exitCode == t.sh.row.exitCode
  {
    before, m, step, after := TheMoment((x: State) => x.sh.row.failureReason == Some(reason), first, steps, t);
    assert Inv(first);
    RunKeepsInv(first, before, m);
    WritersOfReasons(m, step, reason);
    StepKeepsInv(m, step);
    EndedRowStays(Next(m, step), after, t);
  }

  // ---------------------------------------------------------------- what is behind a reason

  /** What the reason says: of the worker `i`, or for a lost worker of the read `i`. */
  ghost predicate Causes(m: State, step: Step, i: nat, reason: FailureReason, code: Option<int>) {
    match reason
    case ExitCode => step == Befall(i, Closing(code, false)) && code != Some(0)
    case ConnectionLost =>
      || (step == Befall(i, Closing(code, true)) && code != Some(0))
      || (step == Throw(i) && i < |m.workers| && CanThrow(m.workers[i].pc)
          && (Handler(m.workers[i].pc) == FailRow(ConnectionLost, FromCatch)
              || Handler(m.workers[i].pc) == Unwire(true)))
    case ConnectFailed => step == Throw(i) && i < |m.workers| && m.workers[i].pc.Connect?
    case StartFailed =>
      && i < |m.workers|
      && (|| (exists at, count :: step == Work(i, Chance(at, false, count))
                && (m.workers[i].pc.FindScript? || m.workers[i].pc.StatScript?))
          || (step == Throw(i) && CanThrow(m.workers[i].pc)
              && (Handler(m.workers[i].pc) == FailRow(StartFailed, LastResort)
                  || Handler(m.workers[i].pc) == Cleanup(true))))
    case WorkerLost =>
      exists now: int ::
        && step == Judge(i, now) && i < |m.reaps| && m.reaps[i].pc.Judging? && StillOpen(m.reaps[i].pc.found)
        && m.sh.claim.None? && GraceIsPast(m.reaps[i].pc.found, now)
    case AbortedByUser => false
  }

  ghost predicate IsMoment(
      first: State, steps: seq<Step>, before: seq<Step>, m: State, step: Step, after: seq<Step>) {
    steps == before + [step] + after && Leads(first, before, m)
  }

  /** Somewhere in the run there was what the reason says. */
  ghost predicate CausedBy(first: State, steps: seq<Step>, i: nat, reason: FailureReason, code: Option<int>) {
    exists before: seq<Step>, m: State, step: Step, after: seq<Step> ::
      IsMoment(first, steps, before, m, step, after) && Causes(m, step, i, reason, code)
  }

  lemma EarlierCauses(
      first: State, steps: seq<Step>, earlier: seq<Step>, last: Step, rest: seq<Step>, i: nat, reason: FailureReason,
      code: Option<int>)
    requires steps == earlier + [last] + rest && CausedBy(first, earlier, i, reason, code)
    ensures CausedBy(first, steps, i, reason, code)
  {
    var before: seq<Step>, m: State, step: Step, after: seq<Step> :|
      IsMoment(first, earlier, before, m, step, after) && Causes(m, step, i, reason, code);
    assert steps == before + [step] + (after + [last] + rest);
    assert IsMoment(first, steps, before, m, step, after + [last] + rest);
  }

  /** About to write the reason, or unwinding towards it. */
  ghost predicate OnTheWay(s: State, i: nat, reason: FailureReason) {
    && i < |s.workers|
    && (|| (s.workers[i].pc.FailRow? && s.workers[i].pc.reason == reason)
        || (s.workers[i].pc == Unwire(true) && reason.ConnectionLost?)
        || (s.workers[i].pc == Cleanup(true) && reason.StartFailed?))
  }

  /** Only an exception unwinds. */
  lemma UnwindingNeedsAnException(s: State, step: Step, i: nat)
    requires Enabled(s, step) && i < |s.workers| && i < |Next(s, step).workers|
    requires var pc := Next(s, step).workers[i].pc; pc != s.workers[i].pc && (pc == Unwire(true) || pc == Cleanup(true))
    ensures step == Throw(i) && Handler(s.workers[i].pc) == Next(s, step).workers[i].pc
  {
    StepsHaveEffects(s, step, i);
    if WorksOn(step, i) {
      WorkUnwindsNothing(s.sh, s.workers[i].pc, step.chance);
    } else {
      EffectsByThrow(s, step, i);
      OnlyExceptionsMove(s.workers[i], EffectOn(s, step, i), s.graces);
    }
  }

  lemma WorkUnwindsNothing(sh: Shared, pc: Pc, c: Chance)
    ensures PcAfter(sh, pc, c) != Unwire(true) && PcAfter(sh, pc, c) != Cleanup(true)
  {
  }

  lemma OnlyExceptionsMove(w: Worker, effect: Effect, graces: Graces)
    requires CanUndergo(w, effect, graces)
    ensures var pc := Undergone(w, effect, graces).pc;
            pc == w.pc || pc.Crashed? || (effect.Catches? && pc == Handler(w.pc))
  {
    match effect {
      case Suffers(event) =>
      case _ =>
    }
  }

  lemma OnTheWayNeedsACause(s: State, step: Step, i: nat, reason: FailureReason, code: Option<int>)
    requires Enabled(s, step) && !OnTheWay(s, i, reason) && OnTheWay(Next(s, step), i, reason)
    ensures Causes(s, step, i, reason, code)
  {
    NewcomersAreFresh(s, step);
    var pc := Next(s, step).workers[i].pc;
    if pc.FailRow? {
      ReasonsOfFailing(s, step, i);
      if step == Throw(i) {
        ThrownByHandler(s, i);
      } else {
        assert WorksOn(step, i);
        assert step == Work(i, Chance(step.chance.at, false, step.chance.count));
      }
    } else {
      UnwindingNeedsAnException(s, step, i);
    }
  }

  lemma ThrownByHandler(s: State, i: nat)
    requires Enabled(s, Throw(i))
    ensures Next(s, Throw(i)).workers[i].pc == Handler(s.workers[i].pc)
  {
  }

  lemma FailingHadItsCause(
      first: State, steps: seq<Step>, t: State, i: nat, reason: FailureReason, code: Option<int>)
    requires Init(first) && Leads(first, steps, t) && OnTheWay(t, i, reason)
    ensures CausedBy(first, steps, i, reason, code)
  {
    var before, m, step, after := TheMoment(x => OnTheWay(x, i, reason), first, steps, t);
    OnTheWayNeedsACause(m, step, i, reason, code);
    assert IsMoment(first, steps, before, m, step, after);
  }

  // ---------------------------------------------------------------- the channel, and the read

  lemma DecisionHadItsCause(first: State, steps: seq<Step>, t: State, i: nat, reason: FailureReason)
    requires Init(first) && Leads(first, steps, t) && Inv(t) && t.sh.winner == Some(i) && i < |t.workers|
    requires var outcome := t.workers[i].hold.outcome; outcome.Some? && outcome.value.reason == Some(reason)
    requires reason != AbortedByUser
    ensures CausedBy(first, steps, i, reason, t.workers[i].hold.outcome.value.code)
  {
    DecisionsTellTheExit(t.workers[i].hold, t.graces);
    var channel := t.workers[i].hold.channel;
    var before, m, step, after :=
      TheMoment(x => ClosedWith(x, i, channel.code, channel.signalled), first, steps, t);
    StepCloses(m, step, i, channel.code, channel.signalled);
    assert IsMoment(first, steps, before, m, step, after);
  }

  ghost predicate GivesUp(s: State, k: nat) {
    k < |s.reaps| && s.reaps[k].pc.FailingRow?
  }

  lemma GivingUpNeedsACause(s: State, step: Step, k: nat, code: Option<int>)
    requires Enabled(s, step) && !GivesUp(s, k) && GivesUp(Next(s, step), k)
    ensures Causes(s, step, k, WorkerLost, code)
  {
    assert step.Judge? && step.k == k;
    assert step == Judge(k, step.now);
    ReadFailsTheRunExactlyWhen(s, k, step.now);
  }

  lemma LossHadItsCause(first: State, steps: seq<Step>, t: State, k: nat, code: Option<int>)
    requires Init(first) && Leads(first, steps, t) && GivesUp(t, k)
    ensures CausedBy(first, steps, k, WorkerLost, code)
  {
    var before, m, step, after := TheMoment(x => GivesUp(x, k), first, steps, t);
    GivingUpNeedsACause(m, step, k, code);
    assert IsMoment(first, steps, before, m, step, after);
  }

  // ---------------------------------------------------------------- every failed run

  lemma WriterHadItsCause(first: State, steps: seq<Step>, m: State, step: Step, reason: FailureReason)
    returns (i: nat)
    requires Init(first) && Leads(first, steps, m) && Inv(m) && Enabled(m, step)
    requires WritesReason(m, step, reason) && reason != AbortedByUser
    ensures CausedBy(first, steps, i, reason, Next(m, step).sh.row.exitCode)
  {
    if step.Judge? {
      i := step.k;
      LossHadItsCause(first, steps, m, i, Next(m, step).sh.row.exitCode);
    } else {
      i := step.i;
      if m.workers[i].pc.FailRow? {
        FailingHadItsCause(first, steps, m, i, reason, Next(m, step).sh.row.exitCode);
      } else {
        DecisionHadItsCause(first, steps, m, i, reason);
      }
    }
  }

  lemma FailedRowsGiveAReason(s: State)
    requires Inv(s) && s.sh.row.status.Failed?
    ensures s.sh.row.failureReason.Some? && s.sh.row.failureReason != Some(AbortedByUser)
  {
  }

  /**
   * Behind every failed run is what its reason says: the exit with the code on record and no signal; a channel that a
   * signal or a lost connection closed, or an exception while driving; a connect that was refused; a script that was
   * gone, or an exception before or behind the drive; or a read that found the claim gone and the grace past.
   */
  lemma FailedRunsTellWhy(first: State, steps: seq<Step>, t: State) returns (i: nat)
    requires Init(first) && Leads(first, steps, t) && t.sh.row.status.Failed?
    ensures t.sh.row.failureReason.Some?
    ensures CausedBy(first, steps, i, t.sh.row.failureReason.value, t.sh.row.exitCode)
  {
    assert Inv(first);
    RunKeepsInv(first, steps, t);
    FailedRowsGiveAReason(t);
    var reason, code := t.sh.row.failureReason.value, t.sh.row.exitCode;
    var before, m, step, after := WrittenAtAMoment(first, steps, t, reason);
    i := WriterHadItsCause(first, before, m, step, reason);
    EarlierCauses(first, steps, before, step, after, i, reason, code);
  }
}
