/**
 * The reads that reap, and what keeps them from it.
 *
 * A claim key that is there is taken for a worker at its work. A worker that an exception took out after its renewal
 * timer was started, and before the block that stops the timer, renews the key for as long as it lives.
 */
module RunReaps {
  import opened Options
  import opened RunRecord
  import opened StagedAborts
  import opened RunProtocol
  import opened RunInvariants
  import opened RunSafety
  import opened RunEffects

  // ---------------------------------------------------------------- a read that finds the run open

  /** A minute since the run was started, or since it was queued where it has not been. */
  predicate GraceIsPast(found: Row, now: int) {
    && (found.startedAt.Some? ==> 60_000 <= now - found.startedAt.value)
    && (found.startedAt.None? ==> 60_000 <= now - found.queuedAt)
  }

  /** A read fails the run exactly when it found it open, with the claim gone and the grace past. */
  lemma ReadFailsTheRunExactlyWhen(s: State, k: nat, now: int)
    requires k < |s.reaps| && s.reaps[k].pc.Judging?
    ensures Enabled(s, Judge(k, now))
    ensures var found := s.reaps[k].pc.found;
            Next(s, Judge(k, now)).reaps[k].pc.FailingRow?
            <==> StillOpen(found) && s.sh.claim.None? && GraceIsPast(found, now)
  {
  }

  lemma ReapWriteEnds(row: Row, now: int)
    requires !row.status.Queued?
    ensures var after := RowAfterReap(row, Reap(FailingRow), now);
            && (StillOpen(row)
               ==> after.status.Failed? && after.failureReason == Some(WorkerLost) && CollectionSettled(after))
            && (!StillOpen(row) ==> after == row && IsTerminal(row.status))
  {
  }

  /**
   * The first read that finds the run open, with the claim gone and the grace past, ends it: its write, whenever it
   * lands, fails a run that is still open for its lost worker and settles it, or finds it over and leaves it alone.
   */
  lemma FirstReapEnds(s: State, k: nat, now: int, steps: seq<Step>, t: State, at: int)
    requires Reachable(s) && k < |s.reaps| && s.reaps[k].pc.Judging? && s.sh.claim.None?
    requires StillOpen(s.reaps[k].pc.found) && GraceIsPast(s.reaps[k].pc.found, now)
    requires Leads(Next(s, Judge(k, now)), steps, t)
    requires k < |t.reaps| && t.reaps[k].pc.FailingRow?
    ensures Next(s, Judge(k, now)).reaps[k].pc.FailingRow?
    ensures var after := Next(t, Judge(k, at)).sh.row;
            && IsTerminal(after.status)
            && (StillOpen(t.sh.row)
               ==> after.status.Failed? && after.failureReason == Some(WorkerLost) && CollectionSettled(after))
            && (!StillOpen(t.sh.row) ==> after == t.sh.row)
  {
    ReachableIsInv(s);
    ReadFailsTheRunExactlyWhen(s, k, now);
    StepKeepsInv(s, Judge(k, now));
    RunKeepsInv(Next(s, Judge(k, now)), steps, t);
    assert ReapOk(t.sh.row, t.reaps[k]);
    ReapWriteEnds(t.sh.row, at);
  }

  // ---------------------------------------------------------------- who renews

  /** The timer runs while the subscription is there, and a worker that leaves with it never looked again. */
  predicate TimerOk(w: Worker) {
    && (w.hold.renewing <==> Connected(w.hold))
    && (w.hold.subscription.Disconnected? ==> !w.hold.secondRead.NotRead?)
    && (PlaceOf(w.pc).Leaving? && Connected(w.hold) ==> w.hold.secondRead.NotRead?)
  }

  /** Where a worker leaves from. */
  lemma LeavesFrom(sh: Shared, pc: Pc, c: Chance)
    requires PlaceOf(PcAfter(sh, pc, c)).Leaving?
    ensures var from := PlaceOf(pc); from.Leaving? || from.Outside? || from.Preparing? || from.StoodDown? || pc.Unwire?
  {
  }

  lemma WorkOnTheTimer(row: Row, w: Worker, c: Chance)
    requires CanWork(w)
    ensures var h := HoldAfter(row, w, c);
            && (h.renewing == if w.pc.WireUp? then true else if w.pc.Unwire? then false else w.hold.renewing)
            && (h.subscription == if w.pc.WireUp? then Subscribing else if w.pc.Unwire? then Disconnected
                                  else w.hold.subscription)
  {
    if w.pc.SecondStopRead? {
      assert HoldAfter(row, w, c) == LookedAgain(w.hold, ReadStop(row, c.ok));
    }
  }

  /** Before the script is started nobody subscribes, and the subscription closes only after the second look. */
  lemma PlacesOfTheTimer(row: Row, w: Worker, graces: Graces)
    requires WinnerOk(row, w, graces) || Bystander(w)
    ensures var place := PlaceOf(w.pc);
            && (place.Outside? || place.Preparing? || place.Committed? || place.StoodDown? || place.Launched?
                ==> w.hold.subscription.Unsubscribed?)
            && (w.hold.subscription.Unsubscribed? || place.Wired? || place.Watching? ==> w.hold.secondRead.NotRead?)
            && (w.pc.Unwire? ==> !w.hold.secondRead.NotRead?)
  {
  }

  lemma WorkKeepsTheTimer(sh: Shared, w: Worker, c: Chance, graces: Graces)
    requires CanWork(w) && TimerOk(w) && (WinnerOk(sh.row, w, graces) || Bystander(w))
    ensures TimerOk(WorkerAfter(sh, w, c))
  {
    WorkOnTheTimer(sh.row, w, c);
    WorkLooks(sh.row, w, c);
    PlacesOfTheTimer(sh.row, w, graces);
    if PlaceOf(PcAfter(sh, w.pc, c)).Leaving? {
      LeavesFrom(sh, w.pc, c);
    }
  }

  /** Where an exception takes a worker out from. */
  lemma ThrownOutFrom(pc: Pc)
    requires CanThrow(pc) && PlaceOf(Handler(pc)).Leaving?
    ensures var from := PlaceOf(pc);
            || from.Leaving? || from.Outside? || from.Preparing? || from.Committed? || from.StandingDown?
            || from.StoodDown? || from.Launched? || from.Wired? || from.Watching?
  {
  }

  lemma StandingDownIsUnsubscribed(row: Row, w: Worker, graces: Graces)
    requires WinnerOk(row, w, graces) && PlaceOf(w.pc).StandingDown?
    ensures w.hold.subscription.Unsubscribed?
  {
  }

  lemma ThrowKeepsTheTimer(row: Row, w: Worker, graces: Graces)
    requires CanThrow(w.pc) && TimerOk(w) && (WinnerOk(row, w, graces) || Bystander(w))
    ensures TimerOk(Threw(w))
  {
    ExceptionsTouchHistoryOnly(w);
    PlacesOfTheTimer(row, w, graces);
    if PlaceOf(Handler(w.pc)).Leaving? {
      ThrownOutFrom(w.pc);
      if PlaceOf(w.pc).StandingDown? {
        StandingDownIsUnsubscribed(row, w, graces);
      }
    }
  }

  lemma EventsKeepTheTimer(w: Worker, event: Happening)
    requires CanBefall(w, event) && TimerOk(w)
    ensures TimerOk(Befallen(w, event))
  {
    EventsLeaveTheLooks(w, event);
    match event {
      case Death =>
      case Confirmation =>
      case Message =>
      case Closing(code, signalled) =>
      case ExitShows =>
    }
  }

  lemma EffectsKeepTheTimer(row: Row, w: Worker, effect: Effect, graces: Graces)
    requires CanUndergo(w, effect, graces) && TimerOk(w) && (WinnerOk(row, w, graces) || Bystander(w))
    ensures TimerOk(Undergone(w, effect, graces))
  {
    match effect {
      case Catches => ThrowKeepsTheTimer(row, w, graces);
      case Suffers(event) => EventsKeepTheTimer(w, event);
      case _ =>
    }
  }

  predicate TimersOk(workers: seq<Worker>) {
    forall i | 0 <= i < |workers| :: TimerOk(workers[i])
  }

  lemma StepKeepsTheTimer(s: State, step: Step, i: nat)
    requires Inv(s) && Enabled(s, step) && i < |s.workers| && TimerOk(s.workers[i])
    ensures i < |Next(s, step).workers| && TimerOk(Next(s, step).workers[i])
  {
    assert s.sh.winner != Some(i) ==> Bystander(s.workers[i]);
    StepsHaveEffects(s, step, i);
    if WorksOn(step, i) {
      WorkKeepsTheTimer(s.sh, s.workers[i], step.chance, s.graces);
    } else {
      EffectsKeepTheTimer(s.sh.row, s.workers[i], EffectOn(s, step, i), s.graces);
    }
  }

  lemma StepKeepsTimers(s: State, step: Step)
    requires Inv(s) && Enabled(s, step) && TimersOk(s.workers)
    ensures TimersOk(Next(s, step).workers)
  {
    NewcomersAreFresh(s, step);
    forall i | 0 <= i < |Next(s, step).workers|
      ensures TimerOk(Next(s, step).workers[i])
    {
      if i < |s.workers| {
        StepKeepsTheTimer(s, step, i);
      }
    }
  }

  lemma {:induction false} RunKeepsTimers(s: State, steps: seq<Step>, t: State)
    requires Inv(s) && TimersOk(s.workers) && Leads(s, steps, t)
    ensures TimersOk(t.workers)
    decreases |steps|
  {
    if steps != [] {
      StepKeepsTimers(s, steps[0]);
      StepKeepsInv(s, steps[0]);
      RunKeepsTimers(Next(s, steps[0]), steps[1..], t);
    }
  }

  lemma TimersAreOk(s: State)
    requires Reachable(s)
    ensures TimersOk(s.workers)
  {
    var first: State, steps: seq<Step> :| Init(first) && Leads(first, steps, s);
    assert Inv(first) && TimersOk(first.workers);
    RunKeepsTimers(first, steps, s);
  }

  // ---------------------------------------------------------------- a renewal nobody stops

  /**
   * A worker on its way out, or done, still renews the claim if and only if its timer was started and it never came to
   * its second look. The run is over then, or about to be failed, or failing it was rejected.
   */
  lemma LeavingStillRenewsExactlyWhen(s: State, i: nat)
    requires Reachable(s) && s.sh.winner == Some(i) && i < |s.workers| && PlaceOf(s.workers[i].pc).Leaving?
    ensures var h := s.workers[i].hold; Enabled(s, Renew(i)) <==> !h.subscription.Unsubscribed? && h.secondRead.NotRead?
    ensures Enabled(s, Renew(i)) && StillOpen(s.sh.row) ==> s.workers[i].pc.FailRow? || s.workers[i].hold.failRejected
  {
    ReachableIsInv(s);
    TimersAreOk(s);
    assert TimerOk(s.workers[i]);
    assert Failing(s.sh.row, s.workers[i]) && Consistent(s.workers[i].hold, s.graces);
  }

  predicate Renewing(w: Worker) {
    w.pc.Crashed? || (PlaceOf(w.pc).Leaving? && w.hold.renewing)
  }

  lemma LeavingGoesOn(sh: Shared, w: Worker, c: Chance)
    requires CanWork(w) && PlaceOf(w.pc).Leaving?
    ensures PlaceOf(WorkerAfter(sh, w, c).pc).Leaving? && WorkerAfter(sh, w, c).hold == w.hold
  {
    if w.pc.FailRow? {
      FailStep(sh, w, 0, c);
    } else {
      LeavingIsQuiet(sh, w, 0, c);
    }
  }

  lemma LeavingCatches(w: Worker)
    requires CanThrow(w.pc) && PlaceOf(w.pc).Leaving?
    ensures PlaceOf(Threw(w).pc).Leaving? && Threw(w).hold.renewing == w.hold.renewing
  {
    ExceptionsTouchHistoryOnly(w);
    HandlerPlaces(w.pc);
  }

  lemma StillRenewing(s: State, step: Step, i: nat)
    requires Enabled(s, step) && i < |s.workers| && Renewing(s.workers[i])
    ensures i < |Next(s, step).workers| && Renewing(Next(s, step).workers[i])
  {
    StepsHaveEffects(s, step, i);
    if WorksOn(step, i) {
      LeavingGoesOn(s.sh, s.workers[i], step.chance);
    } else {
      match EffectOn(s, step, i) {
        case Catches => LeavingCatches(s.workers[i]);
        case _ =>
      }
    }
  }

  lemma {:induction false} RenewingForEver(s: State, steps: seq<Step>, t: State, i: nat)
    requires i < |s.workers| && Renewing(s.workers[i]) && Leads(s, steps, t)
    ensures i < |t.workers| && Renewing(t.workers[i])
    decreases |steps|
  {
    if steps != [] {
      StillRenewing(s, steps[0], i);
      RenewingForEver(Next(s, steps[0]), steps[1..], t, i);
    }
  }

  lemma HeldIsLeftAlone(s: State, k: nat, now: int)
    requires k < |s.reaps| && s.reaps[k].pc.Judging? && s.sh.claim.Some?
    ensures Next(s, Judge(k, now)).reaps[k].pc.Returned? && Next(s, Judge(k, now)).sh.row == s.sh.row
  {
  }

  /**
   * Such a worker can renew the claim at every later point of every run until it dies, and after a renewal every read
   * that was about to judge leaves the run alone.
   */
  lemma StrayRenewalHoldsOff(s: State, i: nat, steps: seq<Step>, t: State, k: nat, now: int)
    requires i < |s.workers| && PlaceOf(s.workers[i].pc).Leaving? && Enabled(s, Renew(i))
    requires Leads(s, steps, t) && i < |t.workers| && !t.workers[i].pc.Crashed?
    requires k < |t.reaps| && t.reaps[k].pc.Judging?
    ensures Enabled(t, Renew(i))
    ensures var held := Next(t, Renew(i));
            Next(held, Judge(k, now)).reaps[k].pc.Returned? && Next(held, Judge(k, now)).sh.row == t.sh.row
  {
    RenewingForEver(s, steps, t, i);
    HeldIsLeftAlone(Next(t, Renew(i)), k, now);
  }
}
