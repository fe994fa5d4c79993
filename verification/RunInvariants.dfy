/**
 * What holds in every reachable state of a run.
 *
 * Only the worker whose claim of the row landed (the winner) can do anything that matters, so the invariant has a
 * long clause for the winner, a short one for the bystanders, and one each for operators and reads.
 */
module RunInvariants {
  import opened Options
  import opened RunRecord
  import opened StagedAborts
  import opened RunProtocol

  // ---------------------------------------------------------------- where a worker is

  datatype Place =
    | Outside       // has not won the row
    | Preparing     // up to the first look for a stop
    | Committed     // looked, saw none: about to start the script
    | StandingDown  // looked, saw a stop: about to write the run off
    | StoodDown
    | Launched      // the script was started, nobody listens yet
    | Wired         // the subscription was requested
    | Watching      // up to the second look
    | Waiting
    | Deciding
    | Writing
    | WindingUp     // between the write of the outcome and the write that says the collection is over
    | Reported
    | Unwinding     // an exception left the try block that closes the subscription
    | Leaving
    | Gone

  function PlaceOf(pc: Pc): Place {
    match pc
    case SetClaim => Outside
    case ReadRun => Outside
    case ClaimRow => Outside
    case AppendClaimed => Preparing
    case FindScript => Preparing
    case Connect => Preparing
    case AppendConnected => Preparing
    case ListBefore => Preparing
    case StatScript => Preparing
    case FirstStopRead => Preparing
    case StartScript => Committed
    case AppendStopAsked => StandingDown
    case AbortRow => StandingDown
    case AuditAborted => StoodDown
    case AppendPtyOpened => Launched
    case WireUp => Launched
    case MarkRunning => Wired
    case AppendStarted => Watching
    case SecondStopRead => Watching
    case AwaitExit => Waiting
    case Decide => Deciding
    case WriteOutcome => Writing
    case AppendExited => WindingUp
    case AuditOutcome => WindingUp
    case SaveTranscript => WindingUp
    case AppendNotSaved => WindingUp
    case ListOutput => WindingUp
    case RecordResults => WindingUp
    case MarkCollected => WindingUp
    case EndCollection => WindingUp
    case AppendCollected => Reported
    case AppendNotCollected => Reported
    case Unwire(threw) => if threw then Unwinding else Reported
    case Crashed => Gone
    case _ => Leaving
  }

  // ---------------------------------------------------------------- the invariant

  /** A worker that did not win the row can do nothing but leave, or fail the run on its way out. */
  ghost predicate Bystander(w: Worker) {
    && w.hold == NOTHING_HELD
    && (w.pc.SetClaim? || w.pc.ReadRun? || w.pc.ClaimRow?
        || w.pc == FailRow(StartFailed, LastResort) || w.pc == AppendFailure(StartFailed, LastResort)
        || w.pc.ReleaseClaim? || w.pc.Done? || w.pc.Crashed?)
  }

  /** What the winner's place says about the status of the row and about what the winner has done so far. */
  ghost predicate AtPlace(place: Place, row: Row, h: Hold) {
    match place
    case Outside => false
    case Preparing => !h.startCalled && h.firstRead.NotRead? && (row.status.Starting? || row.status.Failed?)
    case Committed =>
      && !h.startCalled && (h.firstRead.SawNone? || h.firstRead.ReadFailed?)
      && (row.status.Starting? || row.status.Failed?)
    case StandingDown => !h.startCalled && h.firstRead.SawStop? && (row.status.Starting? || row.status.Failed?)
    case StoodDown => !h.startCalled && h.firstRead.SawStop? && IsTerminal(row.status)
    case Launched =>
      && h.startCalled && h.subscription.Unsubscribed? && h.outcome.None?
      && (row.status.Starting? || row.status.Failed?)
    case Wired =>
      && h.startCalled && Connected(h) && h.secondRead.NotRead? && h.outcome.None?
      && (row.status.Starting? || row.status.Failed?)
    case Watching =>
      && h.startCalled && Connected(h) && h.secondRead.NotRead? && h.outcome.None?
      && (row.status.Running? || row.status.Failed?)
    case Waiting =>
      && h.startCalled && Connected(h) && !h.secondRead.NotRead? && h.outcome.None?
      && (row.status.Running? || row.status.Failed?)
    case Deciding =>
      && h.startCalled && !h.secondRead.NotRead? && h.abort.exited && h.outcome.None?
      && (row.status.Running? || row.status.Failed?)
    case Writing =>
      && h.startCalled && !h.secondRead.NotRead? && h.outcome.Some?
      && (row.status.Running? || row.status.Failed?)
    case WindingUp => !h.secondRead.NotRead? && h.outcome.Some? && IsTerminal(row.status)
    case Reported => !h.secondRead.NotRead? && h.outcome.Some? && IsTerminal(row.status) && row.collectedAt.Some?
    case Unwinding => !h.secondRead.NotRead? && h.outcome.Some? && h.unwound
    case Leaving => h.firstRead.SawNone? || h.firstRead.ReadFailed? ==> h.startCalled
    case Gone => true
  }

  predicate Connected(h: Hold) {
    h.subscription.Subscribing? || h.subscription.Subscribed?
  }

  /** What the row says about the winner. */
  ghost predicate Accounted(row: Row, h: Hold) {
    && !row.status.Queued?
    && (row.status.Running? ==> h.startCalled)
    && (row.status.Aborted? ==>
          if h.outcome.Some? then h.outcome.value.status.Aborted? && row.abortStage == h.outcome.value.stage
          else !h.startCalled && h.firstRead.SawStop? && row.abortStage.None?)
    && (row.status.Succeeded? ==> h.outcome.Some? && h.outcome.value.status.Succeeded?)
    && StageRank(row.abortStage) <= StageRank(h.abort.reached)
  }

  /**
   * A run that is over but not collected is the winner's to collect, unless an exception or a crash kept it from it.
   */
  ghost predicate Collecting(place: Place, row: Row, h: Hold) {
    IsTerminal(row.status) && row.collectedAt.None? ==>
      h.outcome.Some? && (place.WindingUp? || h.unwound || place.Gone?)
  }

  /** What the winner's own fields say about one another. */
  ghost predicate Consistent(h: Hold, graces: Graces) {
    && Orderly(h.abort, graces)
    && (h.abort.exited ==> h.channel.Closed?)
    && (h.abort.requested ==> h.heard)
    && (h.heard ==> h.abort.requested || h.abort.exited)
    && (h.subscription.Unsubscribed? ==> h.abort == FRESH && h.inbox == 0 && h.secondRead.NotRead?)
    && (h.subscription.Disconnected? ==> h.abort.exited)
    && (h.inbox > 0 ==> h.subscription.Subscribed? || h.subscription.Disconnected?)
    && (h.secondRead.SawStop? ==> h.heard)
    && (h.subscribedAtRead ==> h.subscription.Subscribed? || h.subscription.Disconnected?)
    && (h.startCalled ==> h.firstRead.SawNone? || h.firstRead.ReadFailed?)
    && (!h.startCalled ==> h.subscription.Unsubscribed? && h.channel.NoChannel? && h.outcome.None?)
    && (h.outcome.Some? ==>
          && h.channel.Closed?
          && h.abort.exited
          && h.outcome.value == Decided(h.channel, h.abort.(reached := h.outcome.value.stage))
          && StageRank(h.outcome.value.stage) <= StageRank(h.abort.reached))
  }

  /** `fail` is never called with a reason that is the script's or the operator's. */
  predicate BlamesThePlatform(pc: Pc) {
    pc.FailRow? ==> pc.reason.StartFailed? || pc.reason.ConnectFailed? || pc.reason.ConnectionLost?
  }

  /**
   * An exception took the worker out before its second look: the run is failed, or about to be, or failing it failed.
   */
  ghost predicate Failing(row: Row, w: Worker) {
    PlaceOf(w.pc).Leaving? && w.hold.startCalled && w.hold.secondRead.NotRead?
    ==> IsTerminal(row.status) || w.pc.FailRow? || w.hold.failRejected
  }

  ghost predicate WinnerOk(row: Row, w: Worker, graces: Graces) {
    && AtPlace(PlaceOf(w.pc), row, w.hold)
    && BlamesThePlatform(w.pc)
    && Accounted(row, w.hold)
    && Collecting(PlaceOf(w.pc), row, w.hold)
    && Failing(row, w)
    && Consistent(w.hold, graces)
  }

  /** The operator got past the guard of `abortRun`: entitled to the area, and the confirmation names the script. */
  ghost predicate PassedGuard(row: Row, stop: Stop) {
    && !stop.pc.Asking? && !stop.pc.Rejected?
    && row.areaId in stop.areaIds
    && AuthoriseAbort(row.criticality, row.scriptFileName, stop.confirmation).Authorised?
  }

  ghost predicate SomebodyPassedGuard(row: Row, stops: seq<Stop>) {
    exists j :: 0 <= j < |stops| && PassedGuard(row, stops[j])
  }

  /** It was told of a stop, or will be, or it is past caring. */
  ghost predicate Heeds(w: Worker) {
    w.hold.heard || w.hold.inbox > 0 || w.hold.subscription.Disconnected? || w.pc.Crashed?
  }

  /** A worker that was subscribed when it read the row for the second time has every stop accepted since. */
  ghost predicate NotDeaf(w: Worker) {
    w.hold.secondRead.SawNone? && w.hold.subscribedAtRead ==> Heeds(w)
  }

  /** What an accepted stop may expect of the worker that holds its run. */
  ghost predicate Ears(w: Worker, stop: Stop) {
    NotDeaf(w) && (stop.delivered ==> Heeds(w))
  }

  ghost predicate KeepsEars(before: Worker, after: Worker) {
    (Heeds(before) ==> Heeds(after)) && (NotDeaf(before) ==> NotDeaf(after))
  }

  ghost predicate StopOk(s: State, stop: Stop) {
    && (!stop.pc.Asking? && !stop.pc.Rejected? ==> PassedGuard(s.sh.row, stop))
    && (stop.pc.RecordRequest? || stop.pc.Publish? || stop.pc.Accepted? ==> !s.sh.row.status.Queued?)
    && (stop.pc.Publish? || stop.pc.Accepted? ==> s.sh.row.abortRequestedAt.Some?)
    && (stop.pc.Cancelled? ==> s.sh.winner.None? && s.sh.row.status.Aborted?)
    && (stop.pc.Accepted? && s.sh.winner.Some?
       ==> s.sh.winner.value < |s.workers| && Ears(s.workers[s.sh.winner.value], stop))
  }

  ghost predicate ReapOk(row: Row, reap: Reap) {
    && (reap.pc.EndingCollection? ==> IsTerminal(row.status))
    && (reap.pc.FailingRow? ==> !row.status.Queued?)
    && (reap.pc.Judging? ==>
          && Coherent(reap.pc.found)
          && (IsTerminal(reap.pc.found.status) ==> IsTerminal(row.status))
          && (row.status.Queued? ==> reap.pc.found.status.Queued?))
  }

  ghost predicate WinnerInv(s: State) {
    match s.sh.winner
    case None =>
      && s.sh.starts == 0
      && s.sh.row.abortStage.None?
      && (s.sh.row.status.Queued? || s.sh.row.status.Aborted? || s.sh.row.status.Failed?)
      && (IsTerminal(s.sh.row.status) ==> s.sh.row.collectedAt.Some?)
    case Some(i) =>
      && i < |s.workers|
      && WinnerOk(s.sh.row, s.workers[i], s.graces)
      && s.sh.starts == (if s.workers[i].hold.startCalled then 1 else 0)
  }

  /** No stop has reached this worker by any way. */
  ghost predicate Unasked(h: Hold) {
    h.inbox == 0 && !h.abort.requested && !h.firstRead.SawStop?
  }

  ghost predicate GuardInv(s: State) {
    || SomebodyPassedGuard(s.sh.row, s.stops)
    || (&& s.sh.row.abortRequestedAt.None?
        && !s.sh.row.status.Aborted?
        && forall i | 0 <= i < |s.workers| :: Unasked(s.workers[i].hold))
  }

  ghost predicate Inv(s: State) {
    && Coherent(s.sh.row)
    && WinnerInv(s)
    && (forall i | 0 <= i < |s.workers| && s.sh.winner != Some(i) :: Bystander(s.workers[i]))
    && GuardInv(s)
    && (forall j | 0 <= j < |s.stops| :: StopOk(s, s.stops[j]))
    && (forall k | 0 <= k < |s.reaps| :: ReapOk(s.sh.row, s.reaps[k]))
  }

  // ---------------------------------------------------------------- rows moved by somebody else

  /** How anybody but the winner may move the row of a run that has been claimed. */
  ghost predicate Foreign(before: Row, after: Row) {
    && Evolves(before, after)
    && (!before.status.Queued?
       ==> after.abortStage == before.abortStage && (after.status == before.status || after.status.Failed?))
    && (!IsTerminal(before.status) && IsTerminal(after.status) ==> after.collectedAt.Some?)
  }

  lemma WinnerSurvives(before: Row, after: Row, w: Worker, graces: Graces)
    requires WinnerOk(before, w, graces) && Foreign(before, after)
    ensures WinnerOk(after, w, graces)
  {
  }

  // ---------------------------------------------------------------- the winner's own steps

  /**
   * What a step of the winner owes: the row stays coherent and only moves forward, and the winner stays as it should.
   */
  ghost predicate WinnerStepOk(before: Row, after: Row, w: Worker, graces: Graces) {
    && Coherent(after)
    && Evolves(before, after)
    && WinnerOk(after, w, graces)
  }

  ghost predicate CanTakeStep(sh: Shared, w: Worker, graces: Graces) {
    Coherent(sh.row) && WinnerOk(sh.row, w, graces) && CanWork(w)
  }

  lemma HearingIsConsistent(h: Hold, graces: Graces)
    requires Consistent(h, graces) && !h.subscription.Unsubscribed?
    ensures Consistent(Hearing(h), graces)
    ensures Hearing(h).abort.reached == h.abort.reached && Hearing(h).abort.exited == h.abort.exited
  {
  }

  lemma DisconnectingIsConsistent(h: Hold, graces: Graces)
    requires Consistent(h, graces) && h.abort.exited
    ensures Consistent(h.(subscription := Disconnected, renewing := false), graces)
  {
  }

  /** `fail` either finds the run over, or ends it in one coherent write. */
  lemma FailedRow(row: Row, reason: FailureReason, at: int, from: set<RunStatus>)
    requires Coherent(row) && reason != AbortedByUser
    requires !row.status.Queued? && forall status | status in from :: !IsTerminal(status)
    ensures var after := Transitioned(row, Failed, EndPatch(reason, at), from);
            && Coherent(after)
            && Foreign(row, after)
  {
  }

  /** The winner goes elsewhere, and that is all. */
  lemma MovedOn(row: Row, w: Worker, pc: Pc, graces: Graces)
    requires WinnerOk(row, w, graces)
    requires AtPlace(PlaceOf(pc), row, w.hold) && Collecting(PlaceOf(pc), row, w.hold)
    requires BlamesThePlatform(pc) && Failing(row, w.(pc := pc))
    ensures WinnerOk(row, w.(pc := pc), graces)
  {
  }

  /** A step that does nothing but move on: neither the row nor what the worker holds is touched. */
  ghost predicate Quiet(sh: Shared, w: Worker, i: nat, c: Chance)
    requires CanWork(w)
  {
    && SharedAfter(sh, w, i, c).row == sh.row
    && WorkerAfter(sh, w, c).hold == w.hold
    && BlamesThePlatform(WorkerAfter(sh, w, c).pc)
  }

  lemma QuietStep(sh: Shared, w: Worker, i: nat, c: Chance, graces: Graces)
    requires CanTakeStep(sh, w, graces) && Quiet(sh, w, i, c)
    requires var to := PlaceOf(WorkerAfter(sh, w, c).pc); AtPlace(to, sh.row, w.hold) && Collecting(to, sh.row, w.hold)
    ensures WinnerStepOk(sh.row, SharedAfter(sh, w, i, c).row, WorkerAfter(sh, w, c), graces)
  {
  }

  lemma PreparingIsQuiet(sh: Shared, w: Worker, i: nat, c: Chance)
    requires CanWork(w) && PlaceOf(w.pc).Preparing? && !w.pc.FirstStopRead?
    ensures Quiet(sh, w, i, c)
    ensures var to := PlaceOf(WorkerAfter(sh, w, c).pc); to.Preparing? || to.Leaving?
  {
    assert !w.pc.Unwire? && !w.pc.FailRow? && !w.pc.Cleanup?;
  }

  lemma WindingUpIsQuiet(sh: Shared, w: Worker, i: nat, c: Chance)
    requires CanWork(w) && PlaceOf(w.pc).WindingUp? && !w.pc.MarkCollected? && !w.pc.EndCollection?
    ensures Quiet(sh, w, i, c)
    ensures PlaceOf(WorkerAfter(sh, w, c).pc).WindingUp?
  {
  }

  lemma ReportingIsQuiet(sh: Shared, w: Worker, i: nat, c: Chance)
    requires CanWork(w) && (w.pc.AppendCollected? || w.pc.AppendNotCollected?)
    ensures Quiet(sh, w, i, c)
    ensures PlaceOf(WorkerAfter(sh, w, c).pc).Reported?
  {
  }

  lemma LeavingIsQuiet(sh: Shared, w: Worker, i: nat, c: Chance)
    requires CanWork(w) && PlaceOf(w.pc).Leaving? && !w.pc.FailRow?
    ensures Quiet(sh, w, i, c)
    ensures PlaceOf(WorkerAfter(sh, w, c).pc).Leaving?
  {
  }

  lemma WinnerLooksFirst(sh: Shared, w: Worker, i: nat, c: Chance, graces: Graces)
    requires CanTakeStep(sh, w, graces) && w.pc.FirstStopRead?
    ensures WinnerStepOk(sh.row, SharedAfter(sh, w, i, c).row, WorkerAfter(sh, w, c), graces)
  {
  }

  lemma WinnerPrepares(sh: Shared, w: Worker, i: nat, c: Chance, graces: Graces)
    requires CanTakeStep(sh, w, graces) && PlaceOf(w.pc).Preparing? && !w.pc.FirstStopRead?
    ensures WinnerStepOk(sh.row, SharedAfter(sh, w, i, c).row, WorkerAfter(sh, w, c), graces)
  {
    PreparingIsQuiet(sh, w, i, c);
    QuietStep(sh, w, i, c, graces);
  }

  lemma WinnerCommits(sh: Shared, w: Worker, i: nat, c: Chance, graces: Graces)
    requires CanTakeStep(sh, w, graces) && PlaceOf(w.pc).Committed?
    ensures WinnerStepOk(sh.row, SharedAfter(sh, w, i, c).row, WorkerAfter(sh, w, c), graces)
  {
  }

  lemma WinnerStandsDown(sh: Shared, w: Worker, i: nat, c: Chance, graces: Graces)
    requires CanTakeStep(sh, w, graces) && PlaceOf(w.pc).StandingDown?
    ensures WinnerStepOk(sh.row, SharedAfter(sh, w, i, c).row, WorkerAfter(sh, w, c), graces)
  {
  }

  lemma WinnerStoodDown(sh: Shared, w: Worker, i: nat, c: Chance, graces: Graces)
    requires CanTakeStep(sh, w, graces) && PlaceOf(w.pc).StoodDown?
    ensures WinnerStepOk(sh.row, SharedAfter(sh, w, i, c).row, WorkerAfter(sh, w, c), graces)
  {
  }

  lemma WinnerLaunches(sh: Shared, w: Worker, i: nat, c: Chance, graces: Graces)
    requires CanTakeStep(sh, w, graces) && PlaceOf(w.pc).Launched?
    ensures WinnerStepOk(sh.row, SharedAfter(sh, w, i, c).row, WorkerAfter(sh, w, c), graces)
  {
  }

  lemma MarkedRunning(row: Row, h: Hold, at: int)
    requires Coherent(row) && Accounted(row, h) && h.startCalled && (row.status.Starting? || row.status.Failed?)
    ensures var after := Transitioned(row, Running, NO_CHANGE.(startedAt := Some(at)), {Starting});
            && Coherent(after) && Evolves(row, after) && Accounted(after, h)
            && (after.status.Running? || after.status.Failed?) && (IsTerminal(after.status) ==> after == row)
  {
  }

  lemma WinnerIsWired(sh: Shared, w: Worker, i: nat, c: Chance, graces: Graces)
    requires CanTakeStep(sh, w, graces) && PlaceOf(w.pc).Wired?
    ensures WinnerStepOk(sh.row, SharedAfter(sh, w, i, c).row, WorkerAfter(sh, w, c), graces)
  {
    MarkedRunning(sh.row, w.hold, c.at);
    assert WorkerAfter(sh, w, c) == w.(pc := AppendStarted);
  }

  lemma WinnerWatches(sh: Shared, w: Worker, i: nat, c: Chance, graces: Graces)
    requires CanTakeStep(sh, w, graces) && w.pc.AppendStarted?
    ensures WinnerStepOk(sh.row, SharedAfter(sh, w, i, c).row, WorkerAfter(sh, w, c), graces)
  {
  }

  lemma LookingAgainIsConsistent(h: Hold, read: StopRead, graces: Graces)
    requires Consistent(h, graces) && Connected(h)
    ensures Consistent(LookedAgain(h, read), graces)
    ensures LookedAgain(h, read) == h.(secondRead := read, subscribedAtRead := h.subscription.Subscribed?,
            abort := LookedAgain(h, read).abort, heard := LookedAgain(h, read).heard)
    ensures LookedAgain(h, read).abort.reached == h.abort.reached
  {
    HearingIsConsistent(h, graces);
  }

  lemma WinnerLooksAgain(sh: Shared, w: Worker, i: nat, c: Chance, graces: Graces)
    requires CanTakeStep(sh, w, graces) && w.pc.SecondStopRead?
    ensures WinnerStepOk(sh.row, SharedAfter(sh, w, i, c).row, WorkerAfter(sh, w, c), graces)
  {
    LookingAgainIsConsistent(w.hold, ReadStop(sh.row, c.ok), graces);
  }

  lemma WinnerWaits(sh: Shared, w: Worker, i: nat, c: Chance, graces: Graces)
    requires CanTakeStep(sh, w, graces) && PlaceOf(w.pc).Waiting?
    ensures WinnerStepOk(sh.row, SharedAfter(sh, w, i, c).row, WorkerAfter(sh, w, c), graces)
  {
  }

  lemma WinnerDecides(sh: Shared, w: Worker, i: nat, c: Chance, graces: Graces)
    requires CanTakeStep(sh, w, graces) && PlaceOf(w.pc).Deciding?
    ensures WinnerStepOk(sh.row, SharedAfter(sh, w, i, c).row, WorkerAfter(sh, w, c), graces)
  {
  }

  /** The write of the outcome, on the row alone: it lands on a running row and only there. */
  lemma OutcomeRow(row: Row, h: Hold, graces: Graces, at: int)
    requires Coherent(row) && Consistent(h, graces) && Accounted(row, h) && h.outcome.Some?
    requires row.status.Running? || row.status.Failed?
    ensures var after := Transitioned(row, h.outcome.value.status, OutcomePatch(h.outcome.value, at),
            {Running, Starting});
            && Coherent(after) && Evolves(row, after) && IsTerminal(after.status) && Accounted(after, h)
  {
  }

  lemma WinnerWritesOutcome(sh: Shared, w: Worker, i: nat, c: Chance, graces: Graces)
    requires CanTakeStep(sh, w, graces) && PlaceOf(w.pc).Writing?
    ensures WinnerStepOk(sh.row, SharedAfter(sh, w, i, c).row, WorkerAfter(sh, w, c), graces)
  {
    OutcomeRow(sh.row, w.hold, graces, c.at);
    assert WorkerAfter(sh, w, c) == w.(pc := AppendExited);
  }

  /** Either way of ending the collection leaves a row that is over as it was, and collected. */
  lemma MarkedRow(row: Row, after: Row, h: Hold)
    requires Coherent(row) && IsTerminal(row.status) && Accounted(row, h)
    requires after == row.(collectedAt := after.collectedAt, resultCount := after.resultCount)
    requires after.collectedAt.Some? && (row.resultCount.Some? ==> after.resultCount.Some?)
    ensures Coherent(after) && Evolves(row, after) && Accounted(after, h)
    ensures IsTerminal(after.status) && after.collectedAt.Some?
  {
  }

  lemma WinnerMarksCollected(sh: Shared, w: Worker, i: nat, c: Chance, graces: Graces)
    requires CanTakeStep(sh, w, graces) && w.pc.MarkCollected?
    ensures WinnerStepOk(sh.row, SharedAfter(sh, w, i, c).row, WorkerAfter(sh, w, c), graces)
  {
    MarkedRow(sh.row, Collected(sh.row, c.count, c.at), w.hold);
    assert WorkerAfter(sh, w, c) == w.(pc := AppendCollected);
  }

  lemma WinnerEndsCollection(sh: Shared, w: Worker, i: nat, c: Chance, graces: Graces)
    requires CanTakeStep(sh, w, graces) && w.pc.EndCollection?
    ensures WinnerStepOk(sh.row, SharedAfter(sh, w, i, c).row, WorkerAfter(sh, w, c), graces)
  {
    MarkedRow(sh.row, CollectionEnded(sh.row, c.at), w.hold);
    assert WorkerAfter(sh, w, c) == w.(pc := AppendNotCollected);
  }

  lemma WinnerWindsUp(sh: Shared, w: Worker, i: nat, c: Chance, graces: Graces)
    requires CanTakeStep(sh, w, graces) && PlaceOf(w.pc).WindingUp? && !w.pc.MarkCollected? && !w.pc.EndCollection?
    ensures WinnerStepOk(sh.row, SharedAfter(sh, w, i, c).row, WorkerAfter(sh, w, c), graces)
  {
    WindingUpIsQuiet(sh, w, i, c);
    QuietStep(sh, w, i, c, graces);
  }

  lemma WinnerReports(sh: Shared, w: Worker, i: nat, c: Chance, graces: Graces)
    requires CanTakeStep(sh, w, graces) && (w.pc.AppendCollected? || w.pc.AppendNotCollected?)
    ensures WinnerStepOk(sh.row, SharedAfter(sh, w, i, c).row, WorkerAfter(sh, w, c), graces)
  {
    ReportingIsQuiet(sh, w, i, c);
    QuietStep(sh, w, i, c, graces);
  }

  lemma WinnerUnwires(sh: Shared, w: Worker, i: nat, c: Chance, graces: Graces)
    requires CanTakeStep(sh, w, graces) && w.pc == Unwire(false)
    ensures WinnerStepOk(sh.row, SharedAfter(sh, w, i, c).row, WorkerAfter(sh, w, c), graces)
  {
    DisconnectingIsConsistent(w.hold, graces);
    assert WorkerAfter(sh, w, c)
           == w.(pc := Cleanup(false), hold := w.hold.(subscription := Disconnected, renewing := false));
  }

  lemma WinnerUnwinds(sh: Shared, w: Worker, i: nat, c: Chance, graces: Graces)
    requires CanTakeStep(sh, w, graces) && w.pc == Unwire(true)
    ensures WinnerStepOk(sh.row, SharedAfter(sh, w, i, c).row, WorkerAfter(sh, w, c), graces)
  {
    DisconnectingIsConsistent(w.hold, graces);
    var pc := FailRow(ConnectionLost, FromCatch);
    assert WorkerAfter(sh, w, c) == w.(pc := pc, hold := w.hold.(subscription := Disconnected, renewing := false));
  }

  lemma FailStep(sh: Shared, w: Worker, i: nat, c: Chance)
    requires w.pc.FailRow?
    ensures SharedAfter(sh, w, i, c).row
            == Transitioned(sh.row, Failed, EndPatch(w.pc.reason, c.at), {Queued, Starting, Running})
    ensures IsTerminal(SharedAfter(sh, w, i, c).row.status)
    ensures WorkerAfter(sh, w, c) == w.(pc := AppendFailure(w.pc.reason, w.pc.scope))
  {
  }

  lemma GivenUp(before: Row, after: Row, w: Worker, reason: FailureReason, scope: FailScope, graces: Graces)
    requires WinnerOk(before, w, graces) && PlaceOf(w.pc).Leaving?
    requires Coherent(after) && Foreign(before, after) && IsTerminal(after.status)
    ensures WinnerStepOk(before, after, w.(pc := AppendFailure(reason, scope)), graces)
  {
    WinnerSurvives(before, after, w, graces);
    MovedOn(after, w, AppendFailure(reason, scope), graces);
  }

  lemma WinnerFails(sh: Shared, w: Worker, i: nat, c: Chance, graces: Graces)
    requires CanTakeStep(sh, w, graces) && w.pc.FailRow?
    ensures WinnerStepOk(sh.row, SharedAfter(sh, w, i, c).row, WorkerAfter(sh, w, c), graces)
  {
    FailStep(sh, w, i, c);
    FailedRow(sh.row, w.pc.reason, c.at, {Queued, Starting, Running});
    GivenUp(sh.row, SharedAfter(sh, w, i, c).row, w, w.pc.reason, w.pc.scope, graces);
  }

  lemma WinnerLeaves(sh: Shared, w: Worker, i: nat, c: Chance, graces: Graces)
    requires CanTakeStep(sh, w, graces) && PlaceOf(w.pc).Leaving? && !w.pc.FailRow?
    ensures WinnerStepOk(sh.row, SharedAfter(sh, w, i, c).row, WorkerAfter(sh, w, c), graces)
  {
    LeavingIsQuiet(sh, w, i, c);
    QuietStep(sh, w, i, c, graces);
  }

  /** The steps that lead to the script's start, or away from it. */
  lemma WinnerWorksBefore(sh: Shared, w: Worker, i: nat, c: Chance, graces: Graces)
    requires CanTakeStep(sh, w, graces)
    requires var place := PlaceOf(w.pc); place.Preparing? || place.Committed? || place.StandingDown? || place.StoodDown?
    ensures WinnerStepOk(sh.row, SharedAfter(sh, w, i, c).row, WorkerAfter(sh, w, c), graces)
  {
    match PlaceOf(w.pc) {
      case Preparing =>
        if w.pc.FirstStopRead? { WinnerLooksFirst(sh, w, i, c, graces); }
        else { WinnerPrepares(sh, w, i, c, graces); }
      case Committed => WinnerCommits(sh, w, i, c, graces);
      case StandingDown => WinnerStandsDown(sh, w, i, c, graces);
      case StoodDown => WinnerStoodDown(sh, w, i, c, graces);
    }
  }

  /** The steps while the script runs, up to the write of the outcome. */
  lemma WinnerWorksMeanwhile(sh: Shared, w: Worker, i: nat, c: Chance, graces: Graces)
    requires CanTakeStep(sh, w, graces)
    requires var place := PlaceOf(w.pc);
             place.Launched? || place.Wired? || place.Watching? || place.Waiting? || place.Deciding? || place.Writing?
    ensures WinnerStepOk(sh.row, SharedAfter(sh, w, i, c).row, WorkerAfter(sh, w, c), graces)
  {
    match PlaceOf(w.pc) {
      case Launched => WinnerLaunches(sh, w, i, c, graces);
      case Wired => WinnerIsWired(sh, w, i, c, graces);
      case Watching =>
        if w.pc.SecondStopRead? { WinnerLooksAgain(sh, w, i, c, graces); }
        else { WinnerWatches(sh, w, i, c, graces); }
      case Waiting => WinnerWaits(sh, w, i, c, graces);
      case Deciding => WinnerDecides(sh, w, i, c, graces);
      case Writing => WinnerWritesOutcome(sh, w, i, c, graces);
    }
  }

  /** The steps after that, and those of a run that is given up. */
  lemma WinnerWorksAfter(sh: Shared, w: Worker, i: nat, c: Chance, graces: Graces)
    requires CanTakeStep(sh, w, graces)
    requires var place := PlaceOf(w.pc); place.WindingUp? || place.Reported? || place.Unwinding? || place.Leaving?
    ensures WinnerStepOk(sh.row, SharedAfter(sh, w, i, c).row, WorkerAfter(sh, w, c), graces)
  {
    match PlaceOf(w.pc) {
      case WindingUp =>
        if w.pc.MarkCollected? { WinnerMarksCollected(sh, w, i, c, graces); }
        else if w.pc.EndCollection? { WinnerEndsCollection(sh, w, i, c, graces); }
        else { WinnerWindsUp(sh, w, i, c, graces); }
      case Reported =>
        if w.pc.Unwire? { WinnerUnwires(sh, w, i, c, graces); }
        else { WinnerReports(sh, w, i, c, graces); }
      case Unwinding => WinnerUnwinds(sh, w, i, c, graces);
      case Leaving => if w.pc.FailRow? { WinnerFails(sh, w, i, c, graces); } else { WinnerLeaves(sh, w, i, c, graces); }
    }
  }

  /** Every step the winner takes, whatever chance brings. */
  lemma WinnerWorks(sh: Shared, w: Worker, i: nat, c: Chance, graces: Graces)
    requires CanTakeStep(sh, w, graces)
    ensures WinnerStepOk(sh.row, SharedAfter(sh, w, i, c).row, WorkerAfter(sh, w, c), graces)
  {
    match PlaceOf(w.pc) {
      case Outside =>
      case Gone =>
      case Preparing => WinnerWorksBefore(sh, w, i, c, graces);
      case Committed => WinnerWorksBefore(sh, w, i, c, graces);
      case StandingDown => WinnerWorksBefore(sh, w, i, c, graces);
      case StoodDown => WinnerWorksBefore(sh, w, i, c, graces);
      case WindingUp => WinnerWorksAfter(sh, w, i, c, graces);
      case Reported => WinnerWorksAfter(sh, w, i, c, graces);
      case Unwinding => WinnerWorksAfter(sh, w, i, c, graces);
      case Leaving => WinnerWorksAfter(sh, w, i, c, graces);
      case _ => WinnerWorksMeanwhile(sh, w, i, c, graces);
    }
  }

  /** Where an exception leads that neither leaves the try block around the subscription nor stops the start. */
  lemma HandlerPlaces(pc: Pc)
    requires CanThrow(pc) && !pc.StartScript? && Handler(pc) != Unwire(true)
    ensures var from, to := PlaceOf(pc), PlaceOf(Handler(pc));
            && (to.Leaving? || (to.WindingUp? && (from.WindingUp? || from.Reported?)))
            && (to.Leaving?
               ==> (Handler(pc).FailRow? && !from.WindingUp? && !from.Reported?) || from.Leaving? || from.Outside?)
            && !from.Committed?
    ensures BlamesThePlatform(Handler(pc))
  {
  }

  lemma WinnerThrowsQuietly(row: Row, w: Worker, graces: Graces)
    requires WinnerOk(row, w, graces) && CanThrow(w.pc)
    requires !w.pc.StartScript? && Handler(w.pc) != Unwire(true) && !w.pc.FailRow?
    ensures WinnerOk(row, Threw(w), graces)
  {
    HandlerPlaces(w.pc);
    assert Threw(w) == w.(pc := Handler(w.pc));
    MovedOn(row, w, Handler(w.pc), graces);
  }

  /** A worker whose write of `failed` was rejected. */
  function CannotFail(w: Worker): Worker {
    w.(hold := w.hold.(failRejected := w.hold.failRejected || w.hold.startCalled))
  }

  lemma FailThrows(w: Worker)
    requires w.pc.FailRow?
    ensures Threw(w) == CannotFail(w).(pc := Handler(w.pc))
    ensures PlaceOf(Handler(w.pc)).Leaving? && BlamesThePlatform(Handler(w.pc))
  {
  }

  lemma WinnerCannotFail(row: Row, w: Worker, graces: Graces)
    requires WinnerOk(row, w, graces) && w.pc.FailRow?
    ensures WinnerOk(row, Threw(w), graces)
  {
    FailThrows(w);
    assert WinnerOk(row, CannotFail(w), graces);
    MovedOn(row, CannotFail(w), Handler(w.pc), graces);
  }

  lemma WinnerThrowsWhileStarting(row: Row, w: Worker, graces: Graces)
    requires WinnerOk(row, w, graces) && w.pc.StartScript?
    ensures WinnerOk(row, Threw(w), graces)
  {
  }

  lemma UnwindingThrows(w: Worker)
    requires CanThrow(w.pc) && Handler(w.pc) == Unwire(true)
    ensures PlaceOf(w.pc).Writing? || PlaceOf(w.pc).WindingUp? || PlaceOf(w.pc).Reported?
    ensures Threw(w) == Unwound(w)
  {
  }

  function Unwound(w: Worker): Worker {
    w.(hold := w.hold.(unwound := true), pc := Unwire(true))
  }

  lemma UnwoundIsOk(row: Row, w: Worker, graces: Graces)
    requires WinnerOk(row, w, graces) && (PlaceOf(w.pc).Writing? || PlaceOf(w.pc).WindingUp? || PlaceOf(w.pc).Reported?)
    ensures WinnerOk(row, Unwound(w), graces)
  {
  }

  lemma WinnerThrowsWindingUp(row: Row, w: Worker, graces: Graces)
    requires WinnerOk(row, w, graces) && CanThrow(w.pc) && Handler(w.pc) == Unwire(true)
    ensures WinnerOk(row, Threw(w), graces)
  {
    UnwindingThrows(w);
    UnwoundIsOk(row, w, graces);
  }

  /** An exception anywhere leaves the winner in order too. */
  lemma WinnerThrows(row: Row, w: Worker, graces: Graces)
    requires WinnerOk(row, w, graces) && CanThrow(w.pc)
    ensures WinnerOk(row, Threw(w), graces)
  {
    if w.pc.StartScript? {
      WinnerThrowsWhileStarting(row, w, graces);
    } else if Handler(w.pc) == Unwire(true) {
      WinnerThrowsWindingUp(row, w, graces);
    } else if w.pc.FailRow? {
      WinnerCannotFail(row, w, graces);
    } else {
      WinnerThrowsQuietly(row, w, graces);
    }
  }

  // ---------------------------------------------------------------- what reaches the winner from outside

  /** The listener's write touches the stage alone, and only that of a running row. */
  lemma ReportedRow(row: Row, a: Abort, ok: bool)
    requires Coherent(row)
    ensures var after := RowAfterEscalation(row, a, ok);
            && after == row.(abortStage := after.abortStage)
            && (after == row || (row.status.Running? && a.phase.Reporting? && after.abortStage == Some(a.phase.stage)))
            && Coherent(after) && Evolves(row, after)
  {
  }

  lemma EscalatingIsConsistent(h: Hold, graces: Graces, ok: bool)
    requires Consistent(h, graces) && CanEscalate(h.abort, graces, ok)
    ensures var a := Escalated(h.abort, graces, ok);
            && Consistent(h.(abort := a), graces)
            && a.exited == h.abort.exited && StageRank(h.abort.reached) <= StageRank(a.reached)
  {
    EscalatedIsOrderly(h.abort, graces, ok);
  }

  lemma WinnerEscalates(row: Row, w: Worker, graces: Graces, ok: bool)
    requires Coherent(row) && WinnerOk(row, w, graces) && CanEscalate(w.hold.abort, graces, ok)
    ensures var hold := w.hold.(abort := Escalated(w.hold.abort, graces, ok));
            WinnerStepOk(row, RowAfterEscalation(row, w.hold.abort, ok), w.(hold := hold), graces)
  {
    EscalatingIsConsistent(w.hold, graces, ok);
    ReportedRow(row, w.hold.abort, ok);
    assert RowAfterEscalation(row, w.hold.abort, ok) != row ==>
        Escalated(w.hold.abort, graces, ok).reached == w.hold.abort.reached == Some(w.hold.abort.phase.stage);
  }

  lemma WinnerHears(row: Row, w: Worker, graces: Graces)
    requires WinnerOk(row, w, graces) && w.hold.subscription.Subscribed? && w.hold.inbox > 0
    ensures WinnerOk(row, w.(hold := Hearing(w.hold.(inbox := w.hold.inbox - 1))), graces)
  {
    var h := w.hold.(inbox := w.hold.inbox - 1);
    assert Consistent(h, graces);
    HearingIsConsistent(h, graces);
  }

  lemma WinnerIsReached(row: Row, w: Worker, graces: Graces)
    requires WinnerOk(row, w, graces)
    ensures WinnerOk(row, Reached(w), graces)
  {
  }

  lemma WinnerChannel(row: Row, w: Worker, graces: Graces, code: Option<int>, signalled: bool)
    requires WinnerOk(row, w, graces) && w.hold.channel.Open?
    ensures WinnerOk(row, w.(hold := w.hold.(channel := Closed(code, signalled))), graces)
  {
  }

  lemma WinnerSeesExit(row: Row, w: Worker, graces: Graces)
    requires WinnerOk(row, w, graces) && w.hold.channel.Closed? && !w.hold.subscription.Unsubscribed?
    ensures WinnerOk(row, w.(hold := w.hold.(abort := Exiting(w.hold.abort))), graces)
  {
    assert Orderly(Exiting(w.hold.abort), graces);
  }

  lemma WinnerSubscribes(row: Row, w: Worker, graces: Graces)
    requires WinnerOk(row, w, graces) && w.hold.subscription.Subscribing?
    ensures WinnerOk(row, w.(hold := w.hold.(subscription := Subscribed)), graces)
  {
  }

  lemma WinnerCrashes(row: Row, w: Worker, graces: Graces)
    requires WinnerOk(row, w, graces)
    ensures WinnerOk(row, w.(pc := Crashed), graces)
  {
  }
}
