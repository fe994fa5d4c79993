/** Runs that show why promises about a stop, and one about a claim, need their conditions. */
module RunWitnesses {
  import opened Options
  import opened RunRecord
  import opened StagedAborts
  import opened RunProtocol
  import opened RunTheorems
  import opened RunStages
  import opened RunSafety
  import opened RunStops

  const GRACES := Graces(5_000, 10_000)

  const QUEUED_ROW :=
    Row("area", "report.sh", ReadOnly, 0, Queued, None, None, None, None, None, None, None, None, None, None)

  const STARTING_ROW := QUEUED_ROW.(status := Starting, workerId := Some("w"))

  const RUNNING_ROW := STARTING_ROW.(status := Running, startedAt := Some(0))

  const ASKED_ROW := AbortRecorded(RUNNING_ROW, "operator", 0)

  const STOPPED := [ThePress(Accepted)]

  const DELIVERED := [ThePress(Accepted).(delivered := true)]

  /** The run and one worker that holds it. */
  function Solo(row: Row, pc: Pc, hold: Hold, stops: seq<Stop>): State {
    State(Shared(row, 0, Some("w"), Some(0), if hold.startCalled then 1 else 0), [Worker("w", pc, hold)], stops, [],
        GRACES)
  }

  function ThePress(pc: StopPc): Stop {
    Stop("operator", ["area"], None, pc, false)
  }

  const LOOKED := NOTHING_HELD.(firstRead := SawNone)
  const STARTED := LOOKED.(startCalled := true, channel := Open)
  const WIRED := STARTED.(subscription := Subscribing, renewing := true)

  lemma Goes(s: State, step: Step, t: State)
    requires Reachable(s) && Enabled(s, step) && Next(s, step) == t
    ensures Reachable(t)
  {
    assert [step][1..] == [];
    assert Leads(t, [], t);
    ReachableOn(s, [step], t);
  }

  lemma WorkGoes(s: State, t: State)
    requires Reachable(s) && |s.workers| > 0 && CanWork(s.workers[0]) && Worked(s, 0, Chance(0, true, 0)) == t
    ensures Reachable(t)
  {
    Goes(s, Undisturbed(0), t);
  }

  lemma SoloWorks(row: Row, pc: Pc, hold: Hold, stops: seq<Stop>, row': Row, pc': Pc, hold': Hold, c: Chance)
    requires CanWork(Worker("w", pc, hold))
    requires SharedAfter(Solo(row, pc, hold, stops).sh, Worker("w", pc, hold), 0, c) == Solo(row', pc', hold', stops).sh
    requires WorkerAfter(Solo(row, pc, hold, stops).sh, Worker("w", pc, hold), c) == Worker("w", pc', hold')
    ensures Worked(Solo(row, pc, hold, stops), 0, c) == Solo(row', pc', hold', stops)
  {
  }

  lemma WorkerGoes(row: Row, pc: Pc, hold: Hold, stops: seq<Stop>, row': Row, pc': Pc, hold': Hold)
    requires Reachable(Solo(row, pc, hold, stops))
    requires var w := Worker("w", pc, hold);
             var sh := Solo(row, pc, hold, stops).sh;
             && CanWork(w)
             && SharedAfter(sh, w, 0, Chance(0, true, 0)) == Solo(row', pc', hold', stops).sh
             && WorkerAfter(sh, w, Chance(0, true, 0)) == Worker("w", pc', hold')
    ensures Reachable(Solo(row', pc', hold', stops))
  {
    SoloWorks(row, pc, hold, stops, row', pc', hold', Chance(0, true, 0));
    WorkGoes(Solo(row, pc, hold, stops), Solo(row', pc', hold', stops));
  }

  lemma WorkerSuffers(row: Row, pc: Pc, hold: Hold, stops: seq<Stop>, event: Happening, hold': Hold)
    requires Reachable(Solo(row, pc, hold, stops)) && CanBefall(Worker("w", pc, hold), event)
    requires Befallen(Worker("w", pc, hold), event) == Worker("w", pc, hold') && hold'.startCalled == hold.startCalled
    ensures Reachable(Solo(row, pc, hold', stops))
  {
    Goes(Solo(row, pc, hold, stops), Befall(0, event), Solo(row, pc, hold', stops));
  }

  lemma WorkerThrows(row: Row, pc: Pc, hold: Hold, stops: seq<Stop>, pc': Pc, hold': Hold)
    requires Reachable(Solo(row, pc, hold, stops)) && CanThrow(pc) && !pc.StartScript?
    requires Threw(Worker("w", pc, hold)) == Worker("w", pc', hold')
    ensures Reachable(Solo(row, pc', hold', stops))
  {
    Goes(Solo(row, pc, hold, stops), Throw(0), Solo(row, pc', hold', stops));
  }

  lemma WorkerEscalates(row: Row, pc: Pc, hold: Hold, stops: seq<Stop>, row': Row, hold': Hold)
    requires Reachable(Solo(row, pc, hold, stops)) && CanEscalate(hold.abort, GRACES, true) && !pc.Crashed?
    requires RowAfterEscalation(row, hold.abort, true) == row'
             && hold' == hold.(abort := Escalated(hold.abort, GRACES, true))
    ensures Reachable(Solo(row', pc, hold', stops))
  {
    Goes(Solo(row, pc, hold, stops), Escalate(0, true), Solo(row', pc, hold', stops));
  }

  lemma StopGoes(row: Row, pc: Pc, hold: Hold, stop: Stop, row': Row, stop': Stop)
    requires Reachable(Solo(row, pc, hold, [stop])) && CanOperate(stop) && !stop.pc.Publish?
    requires RowAfterStop(row, stop, 0) == row' && StopAfter(row, stop, true) == stop'
    ensures Reachable(Solo(row', pc, hold, [stop']))
  {
    Goes(Solo(row, pc, hold, [stop]), Operate(0, 0), Solo(row', pc, hold, [stop']));
  }

  /** The queued run and the worker that popped its job. */
  function Popping(claim: Option<string>, pc: Pc): State {
    State(Shared(QUEUED_ROW, 0, claim, None, 0), [Worker("w", pc, NOTHING_HELD)], [], [], GRACES)
  }

  lemma TheJobIsPopped()
    ensures Reachable(Popping(None, SetClaim))
  {
    var s0 := State(Shared(QUEUED_ROW, 0, None, None, 0), [], [], [], GRACES);
    assert Leads(s0, [], s0);
    Goes(s0, Enqueue, Enqueued(s0));
    Goes(Enqueued(s0), Pop("w"), Popping(None, SetClaim));
  }

  lemma TheKeyIsSet()
    ensures Reachable(Popping(Some("w"), ClaimRow))
  {
    TheJobIsPopped();
    WorkGoes(Popping(None, SetClaim), Popping(Some("w"), ReadRun));
    WorkGoes(Popping(Some("w"), ReadRun), Popping(Some("w"), ClaimRow));
  }

  lemma TheRowIsClaimed()
    ensures Reachable(Solo(STARTING_ROW, AppendClaimed, NOTHING_HELD, []))
  {
    TheKeyIsSet();
    Goes(Popping(Some("w"), ClaimRow), Undisturbed(0), Solo(STARTING_ROW, AppendClaimed, NOTHING_HELD, []));
  }

  lemma TheHostIsReached()
    ensures Reachable(Solo(STARTING_ROW, AppendConnected, NOTHING_HELD, []))
  {
    TheRowIsClaimed();
    WorkerGoes(STARTING_ROW, AppendClaimed, NOTHING_HELD, [], STARTING_ROW, FindScript, NOTHING_HELD);
    WorkerGoes(STARTING_ROW, FindScript, NOTHING_HELD, [], STARTING_ROW, Connect, NOTHING_HELD);
    WorkerGoes(STARTING_ROW, Connect, NOTHING_HELD, [], STARTING_ROW, AppendConnected, NOTHING_HELD);
  }

  lemma TheOutputIsListed()
    ensures Reachable(Solo(STARTING_ROW, StatScript, NOTHING_HELD, []))
  {
    TheHostIsReached();
    WorkerGoes(STARTING_ROW, AppendConnected, NOTHING_HELD, [], STARTING_ROW, ListBefore, NOTHING_HELD);
    WorkerGoes(STARTING_ROW, ListBefore, NOTHING_HELD, [], STARTING_ROW, StatScript, NOTHING_HELD);
  }

  lemma TheScriptIsFound()
    ensures Reachable(Solo(STARTING_ROW, StartScript, LOOKED, []))
  {
    TheOutputIsListed();
    WorkerGoes(STARTING_ROW, StatScript, NOTHING_HELD, [], STARTING_ROW, FirstStopRead, NOTHING_HELD);
    WorkerGoes(STARTING_ROW, FirstStopRead, NOTHING_HELD, [], STARTING_ROW, StartScript, LOOKED);
  }

  lemma TheTerminalIsOpen()
    ensures Reachable(Solo(STARTING_ROW, AppendPtyOpened, STARTED, []))
  {
    TheScriptIsFound();
    WorkerGoes(STARTING_ROW, StartScript, LOOKED, [], STARTING_ROW, AppendPtyOpened, STARTED);
  }

  lemma TheScriptStarts()
    ensures Reachable(Solo(STARTING_ROW, MarkRunning, WIRED, []))
  {
    TheTerminalIsOpen();
    WorkerGoes(STARTING_ROW, AppendPtyOpened, STARTED, [], STARTING_ROW, WireUp, STARTED);
    WorkerGoes(STARTING_ROW, WireUp, STARTED, [], STARTING_ROW, MarkRunning, WIRED);
  }

  lemma TheScriptRuns()
    ensures Reachable(Solo(RUNNING_ROW, SecondStopRead, WIRED, []))
  {
    TheScriptStarts();
    WorkerGoes(STARTING_ROW, MarkRunning, WIRED, [], RUNNING_ROW, AppendStarted, WIRED);
    WorkerGoes(RUNNING_ROW, AppendStarted, WIRED, [], RUNNING_ROW, SecondStopRead, WIRED);
  }

  /** A read-only script that has not ended, in the area of the operator. */
  predicate MayBeStopped(row: Row) {
    row.areaId == "area" && row.criticality.ReadOnly? && StillOpen(row)
  }

  lemma StopIsRecorded(row: Row, pc: Pc, hold: Hold)
    requires Reachable(Solo(row, pc, hold, [])) && MayBeStopped(row)
    ensures Reachable(Solo(AbortRecorded(row, "operator", 0), pc, hold, [ThePress(Publish)]))
  {
    Goes(Solo(row, pc, hold, []), Press("operator", ["area"], None), Solo(row, pc, hold, [ThePress(Asking)]));
    StopGoes(row, pc, hold, ThePress(Asking), row, ThePress(RecordRequest));
    StopGoes(row, pc, hold, ThePress(RecordRequest), AbortRecorded(row, "operator", 0), ThePress(Publish));
  }

  /** `abortRun` while nobody listens. */
  lemma StopIsPressed(row: Row, pc: Pc, hold: Hold)
    requires Reachable(Solo(row, pc, hold, [])) && MayBeStopped(row) && !hold.subscription.Subscribed?
    ensures Reachable(Solo(AbortRecorded(row, "operator", 0), pc, hold, STOPPED))
  {
    StopIsRecorded(row, pc, hold);
    var s := Solo(AbortRecorded(row, "operator", 0), pc, hold, [ThePress(Publish)]);
    assert Published(s.workers) == s.workers;
    Goes(s, Operate(0, 0), Solo(AbortRecorded(row, "operator", 0), pc, hold, STOPPED));
  }

  /** `abortRun` while the worker listens. */
  lemma StopIsDelivered(row: Row, pc: Pc, hold: Hold)
    requires Reachable(Solo(row, pc, hold, [])) && MayBeStopped(row) && hold.subscription.Subscribed? && !pc.Crashed?
    ensures Reachable(Solo(AbortRecorded(row, "operator", 0), pc, hold.(inbox := hold.inbox + 1), DELIVERED))
  {
    StopIsRecorded(row, pc, hold);
    var s := Solo(AbortRecorded(row, "operator", 0), pc, hold, [ThePress(Publish)]);
    assert Published(s.workers) == [Reached(s.workers[0])];
    Goes(s, Operate(0, 0), Solo(AbortRecorded(row, "operator", 0), pc, hold.(inbox := hold.inbox + 1), DELIVERED));
  }

  /** An accepted stop that nobody heard, of a script that was started, and that nobody will hear without another. */
  ghost predicate StopIsLost(s: State) {
    && |s.stops| == 1 && s.stops[0].pc.Accepted?
    && |s.workers| == 1 && s.sh.winner == Some(0)
    && s.workers[0].hold.startCalled && s.workers[0].hold.channel.Open? && !s.workers[0].pc.Crashed?
    && !s.workers[0].hold.abort.requested
    && !CanBeHeard(s, 0)
  }

  lemma NobodyWillHear(row: Row, pc: Pc, hold: Hold)
    requires Reachable(Solo(row, pc, hold, STOPPED)) && row.abortRequestedAt.Some? && !SecondLookAhead(pc)
             && !pc.Crashed?
    requires hold.startCalled && hold.channel.Open? && hold.inbox == 0 && hold.abort == FRESH
    ensures StopIsLost(Solo(row, pc, hold, STOPPED))
  {
    ReachableIsInv(Solo(row, pc, hold, STOPPED));
    HeardExactlyWhen(Solo(row, pc, hold, STOPPED), 0);
  }

  const WATCHING := WIRED.(secondRead := SawNone)

  lemma TheConfirmationComesLate()
    ensures Reachable(Solo(ASKED_ROW, AwaitExit, WATCHING.(subscription := Subscribed), STOPPED))
  {
    TheScriptRuns();
    WorkerGoes(RUNNING_ROW, SecondStopRead, WIRED, [], RUNNING_ROW, AwaitExit, WATCHING);
    StopIsPressed(RUNNING_ROW, AwaitExit, WATCHING);
    WorkerSuffers(ASKED_ROW, AwaitExit, WATCHING, STOPPED, Confirmation, WATCHING.(subscription := Subscribed));
  }

  /**
   * The subscription is not awaited. When it takes effect only after the worker's second look, a stop accepted in
   * between reaches nobody: the script runs on, the message is gone, and both looks had gone through.
   */
  lemma LateSubscriptionLosesAStop()
    ensures exists s: State ::
              && Reachable(s) && StopIsLost(s)
              && s.workers[0].pc.AwaitExit? && s.workers[0].hold.subscription.Subscribed?
              && s.workers[0].hold.firstRead.SawNone? && s.workers[0].hold.secondRead.SawNone?
  {
    TheConfirmationComesLate();
    NobodyWillHear(ASKED_ROW, AwaitExit, WATCHING.(subscription := Subscribed));
  }

  const ASKED_EARLY := AbortRecorded(STARTING_ROW, "operator", 0)

  const GIVEN_UP := ASKED_EARLY.(status := Failed, finishedAt := Some(0), failureReason := Some(ConnectionLost),
      collectedAt := Some(0))

  lemma TheAppendThrows()
    ensures Reachable(Solo(ASKED_EARLY, FailRow(ConnectionLost, FromCatch), STARTED, STOPPED))
  {
    TheTerminalIsOpen();
    StopIsPressed(STARTING_ROW, AppendPtyOpened, STARTED);
    WorkerThrows(ASKED_EARLY, AppendPtyOpened, STARTED, STOPPED, FailRow(ConnectionLost, FromCatch), STARTED);
  }

  lemma TheRunIsGivenUp()
    ensures Reachable(Solo(GIVEN_UP, AppendFailure(ConnectionLost, FromCatch), STARTED, STOPPED))
  {
    TheAppendThrows();
    var pc, pc' := FailRow(ConnectionLost, FromCatch), AppendFailure(ConnectionLost, FromCatch);
    WorkerGoes(ASKED_EARLY, pc, STARTED, STOPPED, GIVEN_UP, pc', STARTED);
  }

  /**
   * The append after the start of the script throws. The worker fails the run and leaves; the script, whose terminal is
   * open, was never told of the stop that is in the row, and the run can no longer be stopped.
   */
  lemma ThrownOutWorkerLosesAStop()
    ensures exists s: State ::
              && Reachable(s) && StopIsLost(s)
              && s.sh.row.status.Failed? && s.sh.row.abortRequestedAt.Some?
              && s.workers[0].hold.firstRead.SawNone? && ThrownOut(s.sh.row, s.workers[0])
  {
    TheRunIsGivenUp();
    var pc := AppendFailure(ConnectionLost, FromCatch);
    NobodyWillHear(GIVEN_UP, pc, STARTED);
    assert ThrownOut(GIVEN_UP, Worker("w", pc, STARTED));
  }

  const HEARING := WIRED.(subscription := Subscribed, secondRead := SawNone, subscribedAtRead := true)
  const HEARD := HEARING.(heard := true, abort := Requesting(FRESH))
  const ESCALATING := HEARD.(abort := Abort(true, None, false, Signalling(Sigint), [Sigint]))
  const EXITING := ESCALATING.(channel := Closed(Some(0), false), abort := ESCALATING.abort.(exited := true))
  const DECIDED := EXITING.(outcome := Some(Outcome(Succeeded, Some(0), None, None)))
  const REPORTED := DECIDED.(abort := DECIDED.abort.(phase := Pausing(Sigint), reached := Some(Sigint)))

  lemma TheWorkerListens()
    ensures Reachable(Solo(RUNNING_ROW, AwaitExit, HEARING, []))
  {
    TheScriptRuns();
    var subscribed := WIRED.(subscription := Subscribed);
    WorkerSuffers(RUNNING_ROW, SecondStopRead, WIRED, [], Confirmation, subscribed);
    WorkerGoes(RUNNING_ROW, SecondStopRead, subscribed, [], RUNNING_ROW, AwaitExit, HEARING);
  }

  lemma TheStopIsHeard()
    ensures Reachable(Solo(ASKED_ROW, AwaitExit, HEARD, DELIVERED))
  {
    TheWorkerListens();
    StopIsDelivered(RUNNING_ROW, AwaitExit, HEARING);
    WorkerSuffers(ASKED_ROW, AwaitExit, HEARING.(inbox := 1), DELIVERED, Message, HEARD);
  }

  lemma TheSignalIsSent()
    ensures Reachable(Solo(ASKED_ROW, AwaitExit, ESCALATING, DELIVERED))
  {
    TheStopIsHeard();
    assert FRESH.attempts + [Sigint] == [Sigint];
    WorkerEscalates(ASKED_ROW, AwaitExit, HEARD, DELIVERED, ASKED_ROW, ESCALATING);
  }

  lemma TheProcessExits()
    ensures Reachable(Solo(ASKED_ROW, AwaitExit, EXITING, DELIVERED))
  {
    TheSignalIsSent();
    var closed := ESCALATING.(channel := Closed(Some(0), false));
    WorkerSuffers(ASKED_ROW, AwaitExit, ESCALATING, DELIVERED, Closing(Some(0), false), closed);
    WorkerSuffers(ASKED_ROW, AwaitExit, closed, DELIVERED, ExitShows, EXITING);
  }

  lemma TheOutcomeIsDecided()
    ensures Reachable(Solo(ASKED_ROW, WriteOutcome, DECIDED, DELIVERED))
  {
    TheProcessExits();
    WorkerGoes(ASKED_ROW, AwaitExit, EXITING, DELIVERED, ASKED_ROW, Decide, EXITING);
    WorkerGoes(ASKED_ROW, Decide, EXITING, DELIVERED, ASKED_ROW, WriteOutcome, DECIDED);
  }

  lemma TheListenerComesLate()
    ensures Reachable(Solo(ASKED_ROW.(abortStage := Some(Sigint)), WriteOutcome, REPORTED, DELIVERED))
  {
    TheOutcomeIsDecided();
    var reached := DECIDED.(abort := DECIDED.abort.(phase := Reporting(Sigint), reached := Some(Sigint)));
    WorkerEscalates(ASKED_ROW, WriteOutcome, DECIDED, DELIVERED, ASKED_ROW, reached);
    WorkerEscalates(ASKED_ROW, WriteOutcome, reached, DELIVERED, ASKED_ROW.(abortStage := Some(Sigint)), REPORTED);
  }

  /**
   * The recorded stage can go backwards. The process exits with 0 while SIGINT is on its way; the outcome is decided;
   * then the signal's answer comes and the listener records `sigint`; then the outcome is written, with no stage.
   */
  lemma RecordedStageCanGoBack()
    ensures exists s: State, step: Step :: Reachable(s) && Enabled(s, step) && OverwritesAStage(s, step)
  {
    TheListenerComesLate();
    assert OverwritesAStage(Solo(ASKED_ROW.(abortStage := Some(Sigint)), WriteOutcome, REPORTED, DELIVERED),
           Undisturbed(0));
  }

  const REJECTED := WIRED.(failRejected := true)

  const FAILING_FIRST := FailRow(ConnectionLost, FromCatch)

  const FAILING_LAST := FailRow(StartFailed, LastResort)

  lemma TheFirstAppendThrows()
    ensures Reachable(Solo(RUNNING_ROW, FAILING_FIRST, WIRED, []))
  {
    TheScriptStarts();
    WorkerGoes(STARTING_ROW, MarkRunning, WIRED, [], RUNNING_ROW, AppendStarted, WIRED);
    WorkerThrows(RUNNING_ROW, AppendStarted, WIRED, [], FAILING_FIRST, WIRED);
  }

  lemma FailingThrows()
    ensures Reachable(Solo(RUNNING_ROW, Cleanup(true), REJECTED, []))
  {
    TheFirstAppendThrows();
    WorkerThrows(RUNNING_ROW, FAILING_FIRST, WIRED, [], Cleanup(true), REJECTED);
  }

  lemma TheLastResort()
    ensures Reachable(Solo(RUNNING_ROW, FAILING_LAST, REJECTED, []))
  {
    FailingThrows();
    WorkerGoes(RUNNING_ROW, Cleanup(true), REJECTED, [], RUNNING_ROW, FAILING_LAST, REJECTED);
  }

  /** The append after the start throws, and so does each of the two writes that would fail the run. */
  lemma TheRunCannotBeFailed()
    ensures Reachable(Solo(RUNNING_ROW, ReleaseClaim, REJECTED, []))
  {
    TheLastResort();
    WorkerThrows(RUNNING_ROW, FAILING_LAST, REJECTED, [], ReleaseClaim, REJECTED);
  }

  /** The open run, the worker that is done, and no claim. */
  function Abandoned(): State {
    State(Shared(RUNNING_ROW, 0, None, Some(0), 1), [Worker("w", Done, REJECTED)], [], [], GRACES)
  }

  lemma TheClaimIsReleased()
    ensures Reachable(Abandoned())
  {
    TheRunCannotBeFailed();
    WorkGoes(Solo(RUNNING_ROW, ReleaseClaim, REJECTED, []), Abandoned());
  }

  /**
   * An open run whose worker is done and still renews its claim. No read reaps it while that goes on, which is for as
   * long as the worker's process lives.
   */
  lemma StrayRenewalKeepsARunOpen()
    ensures exists s: State ::
              && Reachable(s) && StillOpen(s.sh.row) && s.sh.winner == Some(0)
              && |s.workers| == 1 && s.workers[0].pc.Done? && Enabled(s, Renew(0))
  {
    TheClaimIsReleased();
    assert Enabled(Abandoned(), Renew(0));
  }
}
