/**
 * What becomes of a stop that was accepted.
 *
 * A worker learns of a stop in three ways: it looks at the row before it starts the script, it looks again once the
 * script runs, and it is told over a channel whose subscription nobody waits for.
 */
module RunStops {
  import opened Options
  import opened RunRecord
  import opened StagedAborts
  import opened RunProtocol
  import opened RunInvariants
  import opened RunSafety
  import opened RunEffects
  import opened RunTheorems

  // ---------------------------------------------------------------- every accepted stop

  /** Between its two looks at the row. */
  predicate SecondLookAhead(pc: Pc) {
    pc.StartScript? || pc.AppendPtyOpened? || pc.WireUp? || pc.MarkRunning? || pc.AppendStarted? || pc.SecondStopRead?
  }

  /** Told, about to be told, too late, or dead. */
  predicate Told(w: Worker) {
    w.hold.abort.requested || w.hold.abort.exited || w.hold.inbox > 0 || w.pc.Crashed?
  }

  /**
   * An exception took the worker out before its second look: the run is failed, or about to be, or that was rejected.
   */
  predicate ThrownOut(row: Row, w: Worker) {
    && PlaceOf(w.pc).Leaving? && w.hold.secondRead.NotRead?
    && (IsTerminal(row.status) || w.pc.FailRow? || w.hold.failRejected)
  }

  /** The second look failed, or it saw no request and the subscription was not in effect yet. */
  predicate Overlooked(h: Hold) {
    h.secondRead.ReadFailed? || (h.secondRead.SawNone? && !h.subscribedAtRead)
  }

  /**
   * Where a stop that `abortRun` accepted has got to, at the worker that holds the run. The script was not started;
   * or the worker was told; or, if the message went out while nobody listened, the second look is still ahead, or an
   * exception kept the worker from it, or it did not see the request.
   */
  predicate AnsweredBy(row: Row, w: Worker, starts: nat, stop: Stop) {
    if w.hold.firstRead.NotRead? || w.hold.firstRead.SawStop? then starts == 0
    else Told(w) || (!stop.delivered && (SecondLookAhead(w.pc) || ThrownOut(row, w) || Overlooked(w.hold)))
  }

  predicate Answered(s: State, stop: Stop) {
    if stop.pc.Cancelled? then s.sh.row.status.Aborted? && s.sh.starts == 0
    else
      && s.sh.row.abortRequestedAt.Some?
      && match s.sh.winner
         case None => IsTerminal(s.sh.row.status) && s.sh.starts == 0
         case Some(i) => i < |s.workers| && AnsweredBy(s.sh.row, s.workers[i], s.sh.starts, stop)
  }

  lemma HeedingIsTold(w: Worker, graces: Graces)
    requires Consistent(w.hold, graces) && Heeds(w)
    ensures Told(w)
  {
  }

  lemma UnreadIsAheadOrOut(row: Row, w: Worker, graces: Graces)
    requires WinnerOk(row, w, graces) && w.hold.secondRead.NotRead? && !w.pc.Crashed?
    requires w.hold.firstRead.SawNone? || w.hold.firstRead.ReadFailed?
    ensures SecondLookAhead(w.pc) || ThrownOut(row, w)
  {
  }

  lemma TheWinnerAnswers(row: Row, w: Worker, starts: nat, stop: Stop, graces: Graces)
    requires WinnerOk(row, w, graces) && Ears(w, stop) && starts == if w.hold.startCalled then 1 else 0
    ensures AnsweredBy(row, w, starts, stop)
  {
    if Heeds(w) {
      HeedingIsTold(w, graces);
    } else if w.hold.secondRead.NotRead? && !w.hold.firstRead.NotRead? && !w.hold.firstRead.SawStop? {
      UnreadIsAheadOrOut(row, w, graces);
    }
  }

  lemma EveryAcceptedStopIsAnswered(s: State, j: nat)
    requires Reachable(s) && j < |s.stops|
    requires s.stops[j].pc.Accepted? || s.stops[j].pc.Cancelled?
    ensures Answered(s, s.stops[j])
  {
    ReachableIsInv(s);
    assert StopOk(s, s.stops[j]);
    if s.sh.winner.Some? && s.stops[j].pc.Accepted? {
      TheWinnerAnswers(s.sh.row, s.workers[s.sh.winner.value], s.sh.starts, s.stops[j], s.graces);
    }
  }

  // ---------------------------------------------------------------- before the first look

  /** The row's request is in, and nobody has looked past it. */
  ghost predicate RecordedInTime(s: State) {
    && s.sh.row.abortRequestedAt.Some?
    && !s.sh.row.status.Queued?
    && (s.sh.winner.Some? ==> s.sh.winner.value < |s.workers| && !s.workers[s.sh.winner.value].hold.firstRead.SawNone?)
  }

  lemma RecordedInTimeStays(s: State, step: Step)
    requires Inv(s) && Enabled(s, step) && RecordedInTime(s)
    ensures RecordedInTime(Next(s, step))
  {
    StepKeepsInv(s, step);
    AClaimedRunHasNoNewWinner(s, step);
    if s.sh.winner.Some? {
      NoLookPast(s, step, s.sh.winner.value);
    }
  }

  lemma {:induction false} RecordedInTimeForever(s: State, steps: seq<Step>, t: State)
    requires Inv(s) && Leads(s, steps, t) && RecordedInTime(s)
    ensures RecordedInTime(t)
    decreases |steps|
  {
    if steps != [] {
      RecordedInTimeStays(s, steps[0]);
      StepKeepsInv(s, steps[0]);
      RecordedInTimeForever(Next(s, steps[0]), steps[1..], t);
    }
  }

  /**
   * A request that is in the row before the worker's first look keeps the script from ever being started, however
   * the run goes on, as long as that look does not fail.
   */
  lemma RecordedStopPreventsTheStart(s: State, steps: seq<Step>, t: State)
    requires Reachable(s) && Leads(s, steps, t)
    requires s.sh.row.abortRequestedAt.Some?
    requires s.sh.winner.Some?
             ==> s.sh.winner.value < |s.workers| && s.workers[s.sh.winner.value].hold.firstRead.NotRead?
    requires s.sh.winner.None? ==> !s.sh.row.status.Queued?
    ensures (t.sh.winner.Some? && t.sh.winner.value < |t.workers|
            && t.workers[t.sh.winner.value].hold.firstRead.ReadFailed?)
            || t.sh.starts == 0
  {
    ReachableIsInv(s);
    RecordedInTimeForever(s, steps, t);
    RunKeepsInv(s, steps, t);
  }

  // ---------------------------------------------------------------- after it: no accepted stop is lost

  /** An accepted stop stays what it is, and the run stays its winner's. */
  ghost predicate Kept(s: State, j: nat, i: nat, stop: Stop) {
    && j < |s.stops| && s.stops[j] == stop && stop.pc.Accepted?
    && s.sh.winner == Some(i) && !s.sh.row.status.Queued? && s.sh.row.abortRequestedAt.Some? && i < |s.workers|
  }

  lemma AcceptedStopsRest(s: State, step: Step, j: nat)
    requires Enabled(s, step) && j < |s.stops| && s.stops[j].pc.Accepted?
    ensures j < |Next(s, step).stops| && Next(s, step).stops[j] == s.stops[j]
  {
  }

  lemma KeptStays(s: State, step: Step, j: nat, i: nat, stop: Stop)
    requires Inv(s) && Enabled(s, step) && Kept(s, j, i, stop)
    ensures Kept(Next(s, step), j, i, stop)
    ensures Next(s, step).workers[i].hold.secondRead.SawNone? ==> s.workers[i].hold.secondRead.SawNone?
  {
    StepKeepsInv(s, step);
    AcceptedStopsRest(s, step, j);
    AClaimedRunHasNoNewWinner(s, step);
    NoLookPast(s, step, i);
  }

  lemma {:induction false} KeptForever(s: State, steps: seq<Step>, t: State, j: nat, i: nat, stop: Stop)
    requires Inv(s) && Leads(s, steps, t) && Kept(s, j, i, stop)
    ensures Inv(t) && Kept(t, j, i, stop)
    ensures t.workers[i].hold.secondRead.SawNone? ==> s.workers[i].hold.secondRead.SawNone?
    decreases |steps|
  {
    if steps != [] {
      KeptStays(s, steps[0], j, i, stop);
      StepKeepsInv(s, steps[0]);
      KeptForever(Next(s, steps[0]), steps[1..], t, j, i, stop);
    }
  }

  /** Its chance to learn of the stop has been taken: the messages are handled, or the second look went through. */
  predicate HadItsChance(published: Worker, now: Worker) {
    || (Listening(published) && now.hold.inbox == 0 && !now.pc.Crashed?)
    || (published.hold.secondRead.NotRead? && (now.hold.secondRead.SawNone? || now.hold.secondRead.SawStop?))
  }

  lemma PublishedIsKept(s: State, j: nat, at: int, i: nat)
    requires Inv(s) && j < |s.stops| && s.stops[j].pc.Publish? && s.sh.winner == Some(i) && i < |s.workers|
    ensures var t := OperatedBy(s, j, at);
            && Kept(t, j, i, s.stops[j].(pc := Accepted, delivered := Listening(s.workers[i])))
            && t.workers[i] == Reached(s.workers[i])
  {
    assert StopOk(s, s.stops[j]);
  }

  /**
   * A stop published to a worker that was listening or had not looked for the second time starts the escalation, or
   * finds the process gone, as soon as the worker handled its messages or looked: however the run went on meanwhile.
   */
  lemma NoAcceptedStopIsLost(s: State, j: nat, at: int, steps: seq<Step>, t: State, i: nat)
    requires Reachable(s) && j < |s.stops| && s.stops[j].pc.Publish? && s.sh.winner == Some(i) && i < |s.workers|
    requires Leads(OperatedBy(s, j, at), steps, t)
    requires i < |t.workers| && HadItsChance(s.workers[i], t.workers[i])
    ensures t.workers[i].hold.abort.exited
            || (t.workers[i].hold.abort.requested && !t.workers[i].hold.abort.phase.Idle?)
  {
    ReachableIsInv(s);
    var stop := s.stops[j].(pc := Accepted, delivered := Listening(s.workers[i]));
    PublishedIsKept(s, j, at, i);
    Operated(s, j, at);
    KeptForever(OperatedBy(s, j, at), steps, t, j, i, stop);
    assert StopOk(t, t.stops[j]);
    assert Consistent(t.workers[i].hold, t.graces);
  }

  // ---------------------------------------------------------------- exactly when it can still be heard

  ghost predicate Silent(s: State, step: Step) {
    step.Operate? && step.j < |s.stops| ==> !s.stops[step.j].pc.Publish?
  }

  /** No stop is published along the run. */
  ghost predicate SilentRun(s: State, steps: seq<Step>)
    decreases |steps|
  {
    steps == [] || (Enabled(s, steps[0]) && Silent(s, steps[0]) && SilentRun(Next(s, steps[0]), steps[1..]))
  }

  /** Without another stop, the escalation can still begin. */
  ghost predicate CanBeHeard(s: State, i: nat) {
    exists steps: seq<Step>, t: State :: Leads(s, steps, t) && SilentRun(s, steps) && IsRequested(t, i)
  }

  /** A started worker that will not look and has not been told. */
  predicate Deaf(w: Worker) {
    !w.hold.abort.requested && (w.pc.Crashed? || (w.hold.startCalled && !SecondLookAhead(w.pc) && w.hold.inbox == 0))
  }

  lemma NoWayBack(sh: Shared, pc: Pc, c: Chance)
    requires !SecondLookAhead(pc) && !pc.FirstStopRead?
    ensures !SecondLookAhead(PcAfter(sh, pc, c))
  {
  }

  lemma WorkLeavesTheInbox(row: Row, w: Worker, c: Chance)
    requires CanWork(w)
    ensures HoldAfter(row, w, c).inbox == w.hold.inbox
  {
    if w.pc.SecondStopRead? {
      assert HoldAfter(row, w, c) == LookedAgain(w.hold, ReadStop(row, c.ok));
    }
  }

  lemma TheDeafWork(sh: Shared, w: Worker, c: Chance)
    requires CanWork(w) && Deaf(w) && !w.pc.FirstStopRead?
    ensures Deaf(WorkerAfter(sh, w, c))
  {
    NoWayBack(sh, w.pc, c);
    WorkRequests(sh.row, w, c);
    WorkLeavesTheInbox(sh.row, w, c);
    OnlyTheStartCounts(sh.row, w, c);
  }

  lemma TheDeafThrow(w: Worker)
    requires CanThrow(w.pc) && Deaf(w)
    ensures Deaf(Threw(w))
  {
    ExceptionsTouchHistoryOnly(w);
    assert !SecondLookAhead(Handler(w.pc));
  }

  lemma TheDeafAreBefallen(w: Worker, event: Happening)
    requires CanBefall(w, event) && Deaf(w)
    ensures Deaf(Befallen(w, event))
  {
  }

  lemma TheDeafStayDeaf(s: State, step: Step, i: nat)
    requires Inv(s) && s.sh.winner == Some(i) && Enabled(s, step) && Silent(s, step) && Deaf(s.workers[i])
    ensures i < |Next(s, step).workers| && Deaf(Next(s, step).workers[i])
  {
    StepsHaveEffects(s, step, i);
    if WorksOn(step, i) {
      TheDeafWork(s.sh, s.workers[i], step.chance);
    } else {
      match EffectOn(s, step, i) {
        case Catches => TheDeafThrow(s.workers[i]);
        case Suffers(event) => TheDeafAreBefallen(s.workers[i], event);
        case _ =>
      }
    }
  }

  lemma {:induction false} TheDeafNeverHear(s: State, steps: seq<Step>, t: State, i: nat)
    requires Inv(s) && s.sh.winner == Some(i) && Leads(s, steps, t) && SilentRun(s, steps) && Deaf(s.workers[i])
    ensures !IsRequested(t, i)
    decreases |steps|
  {
    if steps != [] {
      TheDeafStayDeaf(s, steps[0], i);
      AClaimedRunHasNoNewWinner(s, steps[0]);
      StepKeepsInv(s, steps[0]);
      TheDeafNeverHear(Next(s, steps[0]), steps[1..], t, i);
    }
  }

  // ---------------------------------------------------------------- the second look

  function ToTheLook(pc: Pc): nat {
    match pc
    case StartScript => 5
    case AppendPtyOpened => 4
    case WireUp => 3
    case MarkRunning => 2
    case AppendStarted => 1
    case _ => 0
  }

  lemma TowardsTheLook(sh: Shared, w: Worker, i: nat, c: Chance)
    requires SecondLookAhead(w.pc) && !w.pc.SecondStopRead?
    ensures var w' := WorkerAfter(sh, w, c);
            SecondLookAhead(w'.pc) && ToTheLook(w'.pc) < ToTheLook(w.pc) && w'.hold.abort == w.hold.abort
    ensures SharedAfter(sh, w, i, c).winner == sh.winner
  {
  }

  lemma TheLookItself(row: Row, w: Worker, c: Chance)
    requires w.pc.SecondStopRead? && row.abortRequestedAt.Some? && c.ok
    ensures var abort := HoldAfter(row, w, c).abort; w.hold.abort.exited || abort.requested
  {
  }

  lemma AStepTowardsTheLook(s: State, i: nat, c: Chance)
    requires Inv(s) && s.sh.winner == Some(i) && s.sh.row.abortRequestedAt.Some?
    requires SecondLookAhead(s.workers[i].pc) && !s.workers[i].pc.SecondStopRead?
    ensures var next := Worked(s, i, c);
            && Inv(next) && next.sh.winner == Some(i) && next.sh.row.abortRequestedAt.Some?
            && SecondLookAhead(next.workers[i].pc) && ToTheLook(next.workers[i].pc) < ToTheLook(s.workers[i].pc)
            && next.workers[i].hold.abort == s.workers[i].hold.abort
  {
    TowardsTheLook(s.sh, s.workers[i], i, c);
    WorkIsSafe(s, i, c);
  }

  /** A worker whose second look is ahead of it, left undisturbed, acts on the request in the row. */
  lemma {:induction false} SecondLookAnswers(s: State, i: nat) returns (steps: seq<Step>, t: State)
    requires Inv(s) && s.sh.winner == Some(i) && SecondLookAhead(s.workers[i].pc) && s.sh.row.abortRequestedAt.Some?
    ensures Leads(s, steps, t) && Alone(i, steps)
    ensures i < |t.workers| && (s.workers[i].hold.abort.exited || t.workers[i].hold.abort.requested)
    decreases ToTheLook(s.workers[i].pc)
  {
    var w, c := s.workers[i], Chance(0, true, 0);
    var next := Worked(s, i, c);
    if w.pc.SecondStopRead? {
      TheLookItself(s.sh.row, w, c);
      steps, t := [], next;
    } else {
      AStepTowardsTheLook(s, i, c);
      steps, t := SecondLookAnswers(next, i);
    }
    OneStepFirst(s, Undisturbed(i), steps, t);
    AloneOn(i, steps);
    steps := [Undisturbed(i)] + steps;
  }

  lemma {:induction false} AloneIsSilent(s: State, steps: seq<Step>, t: State, i: nat)
    requires Leads(s, steps, t) && Alone(i, steps)
    ensures SilentRun(s, steps)
    decreases |steps|
  {
    if steps != [] {
      assert steps[0] in steps;
      assert forall step | step in steps[1..] :: step in steps;
      AloneIsSilent(Next(s, steps[0]), steps[1..], t, i);
    }
  }

  lemma AMessageIsHeard(s: State, i: nat)
    requires i < |s.workers| && Listening(s.workers[i]) && s.workers[i].hold.inbox > 0
             && !s.workers[i].hold.abort.exited
    ensures CanBeHeard(s, i)
  {
    var step := Befall(i, Message);
    var t := Next(s, step);
    assert [step][1..] == [];
    assert Leads(s, [step], t) && SilentRun(s, [step]);
    assert IsRequested(t, i);
  }

  /**
   * With the script started, the exit not seen and a request in the row: without another stop, the escalation can
   * still begin if and only if the second look is ahead or a message waits for a worker that listens.
   */
  lemma HeardExactlyWhen(s: State, i: nat)
    requires Inv(s) && s.sh.winner == Some(i) && s.sh.row.abortRequestedAt.Some?
    requires s.workers[i].hold.startCalled || s.workers[i].pc.StartScript?
    requires !s.workers[i].hold.abort.exited && !s.workers[i].hold.abort.requested
    ensures CanBeHeard(s, i)
            <==> SecondLookAhead(s.workers[i].pc) || (Listening(s.workers[i]) && s.workers[i].hold.inbox > 0)
  {
    var w := s.workers[i];
    if SecondLookAhead(w.pc) {
      var steps, t := SecondLookAnswers(s, i);
      AloneIsSilent(s, steps, t, i);
    } else if Listening(w) && w.hold.inbox > 0 {
      AMessageIsHeard(s, i);
    } else {
      assert Consistent(w.hold, s.graces) && Deaf(w);
      forall steps: seq<Step>, t: State | Leads(s, steps, t) && SilentRun(s, steps)
        ensures !IsRequested(t, i)
      {
        TheDeafNeverHear(s, steps, t, i);
      }
    }
  }

  /**
   * A stop published while the script runs, nobody having asked before, can be heard if and only if the worker's second
   * look is ahead or its subscription is in effect at that moment. One that takes effect later does not help.
   */
  lemma AStopIsHeardExactlyWhen(s: State, j: nat, i: nat, at: int)
    requires Reachable(s) && j < |s.stops| && s.stops[j].pc.Publish?
    requires s.sh.winner == Some(i) && i < |s.workers|
    requires s.workers[i].hold.startCalled || s.workers[i].pc.StartScript?
    requires !s.workers[i].hold.abort.exited && !s.workers[i].hold.abort.requested
    ensures CanBeHeard(OperatedBy(s, j, at), i) <==> SecondLookAhead(s.workers[i].pc) || Listening(s.workers[i])
  {
    ReachableIsInv(s);
    PublishedIsKept(s, j, at, i);
    Operated(s, j, at);
    HeardExactlyWhen(OperatedBy(s, j, at), i);
  }

  predicate Missed(w: Worker) {
    !SecondLookAhead(w.pc) && w.hold.secondRead.NotRead?
  }

  lemma WorkDoesNotMiss(sh: Shared, w: Worker, c: Chance)
    requires SecondLookAhead(w.pc)
    ensures !Missed(WorkerAfter(sh, w, c))
  {
    if w.pc.SecondStopRead? {
      WorkLooks(sh.row, w, c);
    } else {
      TowardsTheLook(sh, w, 0, c);
    }
  }

  lemma AnExceptionMisses(w: Worker)
    requires SecondLookAhead(w.pc) && CanThrow(w.pc) && w.hold.secondRead.NotRead?
    ensures Missed(Threw(w))
  {
    ExceptionsTouchHistoryOnly(w);
  }

  lemma EventsMissExactlyWhenDeadly(w: Worker, event: Happening)
    requires SecondLookAhead(w.pc) && CanBefall(w, event) && w.hold.secondRead.NotRead?
    ensures Missed(Befallen(w, event)) <==> event.Death?
  {
    EventsLeaveTheLooks(w, event);
  }

  lemma EffectsMissExactlyWhen(w: Worker, effect: Effect, graces: Graces)
    requires SecondLookAhead(w.pc) && CanUndergo(w, effect, graces) && w.hold.secondRead.NotRead?
    ensures Missed(Undergone(w, effect, graces)) <==> effect.Catches? || effect == Suffers(Death)
  {
    match effect {
      case Catches => AnExceptionMisses(w);
      case Suffers(event) => EventsMissExactlyWhenDeadly(w, event);
      case _ =>
    }
  }

  lemma NotYetRead(row: Row, w: Worker, graces: Graces)
    requires WinnerOk(row, w, graces) && SecondLookAhead(w.pc)
    ensures w.hold.secondRead.NotRead?
  {
  }

  lemma EffectsByStep(s: State, step: Step, i: nat)
    requires Enabled(s, step) && i < |s.workers|
    ensures EffectOn(s, step, i).Catches? <==> step == Throw(i)
    ensures EffectOn(s, step, i) == Suffers(Death) <==> step == Befall(i, Death)
  {
  }

  /** Only an exception or its death takes a worker past its second look without looking. */
  lemma LookIsMissedExactlyWhen(s: State, step: Step, i: nat)
    requires Reachable(s) && Enabled(s, step) && s.sh.winner == Some(i) && i < |s.workers|
             && SecondLookAhead(s.workers[i].pc)
    ensures i < |Next(s, step).workers|
    ensures Missed(Next(s, step).workers[i]) <==> step == Throw(i) || step == Befall(i, Death)
  {
    ReachableIsInv(s);
    NotYetRead(s.sh.row, s.workers[i], s.graces);
    StepsHaveEffects(s, step, i);
    EffectsByStep(s, step, i);
    if WorksOn(step, i) {
      WorkDoesNotMiss(s.sh, s.workers[i], step.chance);
    } else {
      EffectsMissExactlyWhen(s.workers[i], EffectOn(s, step, i), s.graces);
    }
  }
}
