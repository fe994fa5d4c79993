/**
 * One run, and everybody who touches it: the operators who start and stop it, the workers who pop its job, the
 * reads that reap it. They share a row with guarded updates, a queue, a claim key that can vanish, and a control
 * channel that reaches only whoever is subscribed. Everything else about a run is keyed by its id, so runs do not
 * meet each other.
 *
 * Every `await` is a point where anybody else may move, so each actor is a program counter and `Next` performs
 * the single effect between two of them.
 */
module RunProtocol {
  import opened Options
  import opened RunRecord
  import opened StagedAborts

  // ---------------------------------------------------------------- the worker

  /** Who called `fail`, and hence where it returns to and who catches it when it throws. */
  datatype FailScope =
    | BeforeDriving // `runOnce`, before the try block
    | InsideDrive   // `drive`, inside the try block
    | FromCatch     // the catch block around `drive`
    | LastResort    // the catch block of `executeRun`

  /** What a worker is about to do. The names follow the awaits of `claimAndRun`, `runOnce`, `drive` and `collect`. */
  datatype Pc =
    | SetClaim
    | ReadRun
    | ClaimRow
    | AppendClaimed
    | FindScript
    | Connect
    | AppendConnected
    | ListBefore
    | StatScript
    | FirstStopRead
    | AppendStopAsked
    | AbortRow
    | AuditAborted
    | StartScript
    | AppendPtyOpened
    | WireUp
    | MarkRunning
    | AppendStarted
    | SecondStopRead
    | AwaitExit
    | Decide
    | WriteOutcome
    | AppendExited
    | AuditOutcome
    | SaveTranscript
    | AppendNotSaved
    | ListOutput
    | RecordResults
    | MarkCollected
    | AppendCollected
    | EndCollection
    | AppendNotCollected
    | Unwire(threw: bool)
    | FailRow(reason: FailureReason, scope: FailScope)
    | AppendFailure(reason: FailureReason, scope: FailScope)
    | AuditFailure(reason: FailureReason, scope: FailScope)
    | Cleanup(threw: bool)
    | ReleaseClaim
    | Done
    | Crashed

  /** What the SSH channel of the script says. A connection that dies closes it with neither code nor signal. */
  datatype Channel = NoChannel | Open | Closed(code: Option<int>, signalled: bool)

  /** The subscription is requested in a constructor and not awaited; it takes effect when Redis says so. */
  datatype Subscription = Unsubscribed | Subscribing | Subscribed | Disconnected

  datatype StopRead = NotRead | ReadFailed | SawNone | SawStop

  /** What `drive` decided the run's end to be, before the write that says so is issued. */
  datatype Outcome =
    Outcome(status: RunStatus, code: Option<int>, reason: Option<FailureReason>, stage: Option<AbortStage>)

  /**
   * What an activation holds of its run. `startCalled`, `firstRead`, `secondRead`, `subscribedAtRead`, `heard`,
   * `unwound` and `failRejected` are history: which of these things it has done, and how they went. `failRejected`
   * says that, with the script started, a write of `failed` was itself rejected.
   */
  datatype Hold = Hold(
    startCalled: bool,
    channel: Channel,
    subscription: Subscription,
    inbox: nat,
    renewing: bool,
    abort: Abort,
    outcome: Option<Outcome>,
    firstRead: StopRead,
    secondRead: StopRead,
    subscribedAtRead: bool,
    heard: bool,
    unwound: bool,
    failRejected: bool
  )

  /** One popped job. */
  datatype Worker = Worker(name: string, pc: Pc, hold: Hold)

  const NOTHING_HELD :=
    Hold(false, NoChannel, Unsubscribed, 0, false, FRESH, None, NotRead, NotRead, false, false, false, false)

  function FreshWorker(name: string): Worker {
    Worker(name, SetClaim, NOTHING_HELD)
  }

  // ---------------------------------------------------------------- operators and reads

  datatype StopPc = Asking | Rejected | CancelRow | RecordRequest | Publish | Accepted | Cancelled

  /**
   * One call of `abortRun`. `delivered` is history: whether the run's worker was listening when the message went out.
   */
  datatype Stop =
    Stop(username: string, areaIds: seq<string>, confirmation: Option<string>, pc: StopPc, delivered: bool)

  datatype ReapPc = Reading | Judging(found: Row) | EndingCollection | FailingRow | Returned

  /** One call of `reapIfOrphaned`, from the read of the row it is handed. */
  datatype Reap = Reap(pc: ReapPc)

  // ---------------------------------------------------------------- the system

  /** `winner` and `starts` are history: whose claim of the row landed, and how often `target.start` was called. */
  datatype Shared = Shared(row: Row, jobs: nat, claim: Option<string>, winner: Option<nat>, starts: nat)

  datatype State = State(sh: Shared, workers: seq<Worker>, stops: seq<Stop>, reaps: seq<Reap>, graces: Graces)

  /** A step's share of chance: the clock it read, how a lookup or delivery went, a count. */
  datatype Chance = Chance(at: int, ok: bool, count: nat)

  /**
   * What happens to a worker from outside: it dies, Redis confirms, a message arrives, the channel closes, the exit
   * shows.
   */
  datatype Happening =
    | Death
    | Confirmation
    | Message
    | Closing(code: Option<int>, signalled: bool)
    | ExitShows

  datatype Step =
    | Enqueue                                       // the control plane pushes the job, or somebody requeues it
    | Pop(name: string)                             // a worker slot takes it
    | Work(i: nat, chance: Chance)
    | Throw(i: nat)                                 // the awaited call rejects
    | Befall(i: nat, event: Happening)
    | Renew(i: nat)                                 // the renewal timer fires
    | Escalate(i: nat, ok: bool)
    | ClaimExpires
    | Press(username: string, areaIds: seq<string>, confirmation: Option<string>)
    | Operate(j: nat, at: int)
    | Look
    | Judge(k: nat, now: int)

  predicate Init(s: State) {
    && s.sh.row.status.Queued?
    && s.sh.row.workerId.None? && s.sh.row.startedAt.None? && s.sh.row.finishedAt.None? && s.sh.row.exitCode.None?
    && s.sh.row.failureReason.None? && s.sh.row.abortStage.None?
    && s.sh.row.abortRequestedBy.None? && s.sh.row.abortRequestedAt.None?
    && s.sh.row.resultCount.None? && s.sh.row.collectedAt.None?
    && s.sh.jobs == 0 && s.sh.claim.None? && s.sh.winner.None? && s.sh.starts == 0
    && s.workers == [] && s.stops == [] && s.reaps == []
  }

  // ---------------------------------------------------------------- the worker's steps

  function ReadStop(row: Row, ok: bool): StopRead {
    if !ok then ReadFailed else if row.abortRequestedAt.Some? then SawStop else SawNone
  }

  /** A reached stage alone makes the run aborted: an escalation that reached none leaves the channel's word. */
  function Decided(channel: Channel, abort: Abort): Outcome
    requires channel.Closed?
  {
    var stopped := abort.reached.Some?;
    Outcome(
      if stopped then Aborted else if channel.code == Some(0) then Succeeded else Failed,
      channel.code,
      if stopped then Some(AbortedByUser)
      else if channel.code == Some(0) then None
      else if channel.signalled then Some(ConnectionLost)
      else Some(ExitCode),
      abort.reached)
  }

  function EndPatch(reason: FailureReason, at: int): Patch {
    NO_CHANGE.(finishedAt := Some(at), failureReason := Some(Some(reason)), collectedAt := Some(at))
  }

  function OutcomePatch(outcome: Outcome, at: int): Patch {
    NO_CHANGE.(finishedAt := Some(at), exitCode := Some(outcome.code), failureReason := Some(outcome.reason),
        abortStage := Some(outcome.stage))
  }

  predicate CanWork(w: Worker) {
    match w.pc
    case AwaitExit => w.hold.abort.exited
    case Decide => w.hold.channel.Closed?
    case WriteOutcome => w.hold.outcome.Some?
    case Done => false
    case Crashed => false
    case _ => true
  }

  function WriteRow(sh: Shared, row: Row): Shared {
    sh.(row := row)
  }

  /** `abort.request()`, from whoever calls it. */
  function Hearing(h: Hold): Hold {
    h.(abort := Requesting(h.abort), heard := true)
  }

  /** What the worker's next await writes to the row. */
  function RowAfterWork(row: Row, w: Worker, c: Chance): Row
    requires CanWork(w)
  {
    match w.pc
    case ClaimRow => Transitioned(row, Starting, NO_CHANGE.(workerId := Some(w.name)), {Queued})
    case AbortRow => Transitioned(row, Aborted, EndPatch(AbortedByUser, c.at), {Starting})
    case MarkRunning => Transitioned(row, Running, NO_CHANGE.(startedAt := Some(c.at)), {Starting})
    case WriteOutcome =>
      Transitioned(row, w.hold.outcome.value.status, OutcomePatch(w.hold.outcome.value, c.at), {Running, Starting})
    case MarkCollected => Collected(row, c.count, c.at)
    case EndCollection => CollectionEnded(row, c.at)
    case FailRow(reason, scope) => Transitioned(row, Failed, EndPatch(reason, c.at), {Queued, Starting, Running})
    case _ => row
  }

  /** A delete of the key that fails leaves it to expire. */
  function ClaimAfter(claim: Option<string>, w: Worker, c: Chance): Option<string> {
    if w.pc.SetClaim? && claim.None? then Some(w.name)
    else if w.pc.ReleaseClaim? && c.ok then None
    else claim
  }

  /** The effect of the worker's next await on what is shared. */
  function SharedAfter(sh: Shared, w: Worker, i: nat, c: Chance): Shared
    requires CanWork(w)
  {
    sh.(
    row := RowAfterWork(sh.row, w, c),
    claim := ClaimAfter(sh.claim, w, c),
    winner := if w.pc.ClaimRow? && sh.row.status.Queued? then Some(i) else sh.winner,
    starts := if w.pc.StartScript? then sh.starts + 1 else sh.starts)
  }

  /** A stop seen in the row on the second look is heard like one that was published. */
  function LookedAgain(h: Hold, read: StopRead): Hold {
    var hold := h.(secondRead := read, subscribedAtRead := h.subscription.Subscribed?);
    if read.SawStop? then Hearing(hold) else hold
  }

  /** The effect of the worker's next await on what it holds. */
  function HoldAfter(row: Row, w: Worker, c: Chance): Hold
    requires CanWork(w)
  {
    match w.pc
    case FirstStopRead => w.hold.(firstRead := ReadStop(row, c.ok))
    case StartScript => w.hold.(startCalled := true, channel := Open)
    case WireUp => w.hold.(subscription := Subscribing, renewing := true)
    case SecondStopRead => LookedAgain(w.hold, ReadStop(row, c.ok))
    case Decide => w.hold.(outcome := Some(Decided(w.hold.channel, w.hold.abort)))
    case Unwire(_) => w.hold.(subscription := Disconnected, renewing := false)
    case _ => w.hold
  }

  /** Where the worker goes when its next await resolves. */
  function PcAfter(sh: Shared, pc: Pc, c: Chance): Pc {
    match pc
    case SetClaim => if sh.claim.None? then ReadRun else Done
    case ReadRun => ClaimRow
    case ClaimRow => if sh.row.status.Queued? then AppendClaimed else ReleaseClaim
    case AppendClaimed => FindScript
    case FindScript => if c.ok then Connect else FailRow(StartFailed, BeforeDriving)
    case Connect => AppendConnected
    case AppendConnected => ListBefore
    case ListBefore => StatScript
    case StatScript => if c.ok then FirstStopRead else FailRow(StartFailed, InsideDrive)
    case FirstStopRead => if ReadStop(sh.row, c.ok).SawStop? then AppendStopAsked else StartScript
    case AppendStopAsked => AbortRow
    case AbortRow => AuditAborted
    case AuditAborted => Cleanup(false)
    case StartScript => AppendPtyOpened
    case AppendPtyOpened => WireUp
    case WireUp => MarkRunning
    case MarkRunning => AppendStarted
    case AppendStarted => SecondStopRead
    case SecondStopRead => AwaitExit
    case AwaitExit => Decide
    case Decide => WriteOutcome
    case WriteOutcome => AppendExited
    case AppendExited => AuditOutcome
    case AuditOutcome => SaveTranscript
    case SaveTranscript => ListOutput
    case AppendNotSaved => ListOutput
    case ListOutput => RecordResults
    case RecordResults => MarkCollected
    case MarkCollected => AppendCollected
    case AppendCollected => Unwire(false)
    case EndCollection => AppendNotCollected
    case AppendNotCollected => Unwire(false)
    case Unwire(threw) => if threw then FailRow(ConnectionLost, FromCatch) else Cleanup(false)
    case FailRow(reason, scope) => AppendFailure(reason, scope)
    case AppendFailure(reason, scope) => if scope.LastResort? then ReleaseClaim else AuditFailure(reason, scope)
    case AuditFailure(reason, scope) => if scope.BeforeDriving? then ReleaseClaim else Cleanup(false)
    case Cleanup(threw) => if threw then FailRow(StartFailed, LastResort) else ReleaseClaim
    case ReleaseClaim => Done
    case Done => Done
    case Crashed => Crashed
  }

  /** The effect of the worker's next await on the worker. */
  function WorkerAfter(sh: Shared, w: Worker, c: Chance): Worker
    requires CanWork(w)
  {
    w.(pc := PcAfter(sh, w.pc, c), hold := HoldAfter(sh.row, w, c))
  }

  /** Awaits that may reject. The others swallow their own failures. */
  predicate CanThrow(pc: Pc) {
    match pc
    case ListBefore => false
    case FirstStopRead => false
    case SecondStopRead => false
    case WireUp => false
    case AwaitExit => false
    case Decide => false
    case Unwire(_) => false
    case Cleanup(_) => false
    case ReleaseClaim => false
    case Done => false
    case Crashed => false
    case _ => true
  }

  /** Who catches it. */
  function Handler(pc: Pc): Pc
    requires CanThrow(pc)
  {
    match pc
    case SetClaim => Done
    case ReadRun => FailRow(StartFailed, LastResort)
    case ClaimRow => FailRow(StartFailed, LastResort)
    case AppendClaimed => FailRow(StartFailed, LastResort)
    case FindScript => FailRow(StartFailed, LastResort)
    case Connect => FailRow(ConnectFailed, BeforeDriving)
    case AppendConnected => FailRow(StartFailed, LastResort)
    case StatScript => FailRow(ConnectionLost, FromCatch)
    case AppendStopAsked => FailRow(ConnectionLost, FromCatch)
    case AbortRow => FailRow(ConnectionLost, FromCatch)
    case AuditAborted => FailRow(ConnectionLost, FromCatch)
    case StartScript => FailRow(ConnectionLost, FromCatch)
    case AppendPtyOpened => FailRow(ConnectionLost, FromCatch)
    case MarkRunning => FailRow(ConnectionLost, FromCatch)
    case AppendStarted => FailRow(ConnectionLost, FromCatch)
    case WriteOutcome => Unwire(true)
    case AppendExited => Unwire(true)
    case AuditOutcome => Unwire(true)
    case SaveTranscript => AppendNotSaved
    case AppendNotSaved => Unwire(true)
    case ListOutput => EndCollection
    case RecordResults => EndCollection
    case MarkCollected => EndCollection
    case AppendCollected => EndCollection
    case EndCollection => Unwire(true)
    case AppendNotCollected => Unwire(true)
    case FailRow(_, scope) => FailHandler(scope)
    case AppendFailure(_, scope) => FailHandler(scope)
    case AuditFailure(_, scope) => FailHandler(scope)
  }

  function FailHandler(scope: FailScope): Pc {
    match scope
    case BeforeDriving => FailRow(StartFailed, LastResort)
    case InsideDrive => FailRow(ConnectionLost, FromCatch)
    case FromCatch => Cleanup(true)
    case LastResort => ReleaseClaim
  }

  /** A call of `target.start` that rejects was still a call. */
  function Threw(w: Worker): Worker
    requires CanThrow(w.pc)
  {
    w.(pc := Handler(w.pc),
    hold := w.hold.(
      startCalled := w.hold.startCalled || w.pc.StartScript?,
      unwound := w.hold.unwound || Handler(w.pc) == Unwire(true),
      failRejected := w.hold.failRejected || (w.pc.FailRow? && w.hold.startCalled)))
  }

  // ---------------------------------------------------------------- operators

  function Asked(row: Row, stop: Stop): StopPc {
    if row.areaId !in stop.areaIds then Rejected
    else if IsTerminal(row.status) then Rejected
    else if !AuthoriseAbort(row.criticality, row.scriptFileName, stop.confirmation).Authorised? then Rejected
    else if row.status.Queued? then CancelRow
    else RecordRequest
  }

  predicate CanOperate(stop: Stop) {
    !stop.pc.Rejected? && !stop.pc.Accepted? && !stop.pc.Cancelled?
  }

  function RowAfterStop(row: Row, stop: Stop, at: int): Row {
    match stop.pc
    case CancelRow => Transitioned(row, Aborted, EndPatch(AbortedByUser, at), {Queued})
    case RecordRequest => AbortRecorded(row, stop.username, at)
    case _ => row
  }

  function StopAfter(row: Row, stop: Stop, listening: bool): Stop
    requires CanOperate(stop)
  {
    match stop.pc
    case Asking => stop.(pc := Asked(row, stop))
    case CancelRow => stop.(pc := if row.status.Queued? then Cancelled else RecordRequest)
    case RecordRequest => stop.(pc := Publish)
    case Publish => stop.(pc := Accepted, delivered := listening)
  }

  predicate Listening(w: Worker) {
    w.hold.subscription.Subscribed? && !w.pc.Crashed?
  }

  /** Whether the worker that holds the run is listening. */
  predicate RunListens(s: State) {
    s.sh.winner.Some? && s.sh.winner.value < |s.workers| && Listening(s.workers[s.sh.winner.value])
  }

  /** A message reaches exactly those who are subscribed at that moment. */
  function Reached(w: Worker): Worker {
    if Listening(w) then w.(hold := w.hold.(inbox := w.hold.inbox + 1)) else w
  }

  function Published(workers: seq<Worker>): seq<Worker> {
    seq(|workers|, i requires 0 <= i < |workers| => Reached(workers[i]))
  }

  // ---------------------------------------------------------------- reads that reap

  predicate CanJudge(reap: Reap) {
    !reap.pc.Returned?
  }

  function RowAfterReap(row: Row, reap: Reap, now: int): Row {
    match reap.pc
    case EndingCollection => CollectionEnded(row, now)
    case FailingRow => Transitioned(row, Failed, EndPatch(WorkerLost, now), {Starting, Running})
    case _ => row
  }

  function ReapAfter(sh: Shared, reap: Reap, now: int): Reap {
    match reap.pc
    case Reading => Reap(Judging(sh.row))
    case Judging(found) =>
      (match ReapDecision(found, now, sh.claim.Some?)
       case LeaveAlone => Reap(Returned)
       case EndTheCollection => Reap(EndingCollection)
       case FailTheRun => Reap(FailingRow))
    case _ => Reap(Returned)
  }

  // ---------------------------------------------------------------- one step of the system

  predicate Enabled(s: State, step: Step) {
    match step
    case Enqueue => true
    case Pop(_) => s.sh.jobs > 0
    case Work(i, _) => i < |s.workers| && CanWork(s.workers[i])
    case Throw(i) => i < |s.workers| && CanThrow(s.workers[i].pc)
    case Befall(i, event) => i < |s.workers| && CanBefall(s.workers[i], event)
    case Renew(i) => i < |s.workers| && s.workers[i].hold.renewing && !s.workers[i].pc.Crashed?
    case Escalate(i, ok) =>
      && i < |s.workers| && CanEscalate(s.workers[i].hold.abort, s.graces, ok)
      && !s.workers[i].pc.Crashed?
    case ClaimExpires => true
    case Press(_, _, _) => true
    case Operate(j, _) => j < |s.stops| && CanOperate(s.stops[j])
    case Look => true
    case Judge(k, _) => k < |s.reaps| && CanJudge(s.reaps[k])
  }

  function SetWorker(s: State, i: nat, w: Worker): State
    requires i < |s.workers|
  {
    s.(workers := s.workers[i := w])
  }

  function SetHold(s: State, i: nat, hold: Hold): State
    requires i < |s.workers|
  {
    SetWorker(s, i, s.workers[i].(hold := hold))
  }

  /** The stage listener: a stage is written to the row of a run that is still running. */
  function RowAfterEscalation(row: Row, a: Abort, ok: bool): Row {
    if a.phase.Reporting? && ok
    then Transitioned(row, Running, NO_CHANGE.(abortStage := Some(Some(a.phase.stage))), {Running})
    else row
  }

  function Enqueued(s: State): State {
    s.(sh := s.sh.(jobs := s.sh.jobs + 1))
  }

  function Popped(s: State, name: string): State
    requires s.sh.jobs > 0
  {
    s.(sh := s.sh.(jobs := s.sh.jobs - 1), workers := s.workers + [FreshWorker(name)])
  }

  function Worked(s: State, i: nat, c: Chance): State
    requires i < |s.workers| && CanWork(s.workers[i])
  {
    SetWorker(s.(sh := SharedAfter(s.sh, s.workers[i], i, c)), i, WorkerAfter(s.sh, s.workers[i], c))
  }

  function Thrown(s: State, i: nat): State
    requires i < |s.workers| && CanThrow(s.workers[i].pc)
  {
    SetWorker(
      if s.workers[i].pc.StartScript? then s.(sh := s.sh.(starts := s.sh.starts + 1)) else s, i, Threw(s.workers[i]))
  }

  predicate CanBefall(w: Worker, event: Happening) {
    match event
    case Death => true
    case Confirmation => w.hold.subscription.Subscribing? && !w.pc.Crashed?
    case Message => Listening(w) && w.hold.inbox > 0
    case Closing(_, _) => w.hold.channel.Open?
    case ExitShows => w.hold.channel.Closed? && w.hold.subscription != Unsubscribed && !w.pc.Crashed?
  }

  function Befallen(w: Worker, event: Happening): Worker
    requires CanBefall(w, event)
  {
    match event
    case Death => w.(pc := Crashed)
    case Confirmation => w.(hold := w.hold.(subscription := Subscribed))
    case Message => w.(hold := Hearing(w.hold.(inbox := w.hold.inbox - 1)))
    case Closing(code, signalled) => w.(hold := w.hold.(channel := Closed(code, signalled)))
    case ExitShows => w.(hold := w.hold.(abort := Exiting(w.hold.abort)))
  }

  function Renewed(s: State, i: nat): State
    requires i < |s.workers|
  {
    s.(sh := s.sh.(claim := Some(s.workers[i].name)))
  }

  function EscalatedAt(s: State, i: nat, ok: bool): State
    requires i < |s.workers| && CanEscalate(s.workers[i].hold.abort, s.graces, ok)
  {
    SetHold(s.(sh := WriteRow(s.sh, RowAfterEscalation(s.sh.row, s.workers[i].hold.abort, ok))), i,
            s.workers[i].hold.(abort := Escalated(s.workers[i].hold.abort, s.graces, ok)))
  }

  function Pressed(s: State, stop: Stop): State {
    s.(stops := s.stops + [stop])
  }

  function Looked(s: State): State {
    s.(reaps := s.reaps + [Reap(Reading)])
  }

  function OperatedBy(s: State, j: nat, at: int): State
    requires j < |s.stops| && CanOperate(s.stops[j])
  {
    s.(sh := WriteRow(s.sh, RowAfterStop(s.sh.row, s.stops[j], at)),
    stops := s.stops[j := StopAfter(s.sh.row, s.stops[j], RunListens(s))],
    workers := if s.stops[j].pc.Publish? then Published(s.workers) else s.workers)
  }

  function JudgedBy(s: State, k: nat, now: int): State
    requires k < |s.reaps|
  {
    s.(sh := WriteRow(s.sh, RowAfterReap(s.sh.row, s.reaps[k], now)),
    reaps := s.reaps[k := ReapAfter(s.sh, s.reaps[k], now)])
  }

  function Next(s: State, step: Step): State
    requires Enabled(s, step)
  {
    match step
    case Enqueue => Enqueued(s)
    case Pop(name) => Popped(s, name)
    case Work(i, c) => Worked(s, i, c)
    case Throw(i) => Thrown(s, i)
    case Befall(i, event) => SetWorker(s, i, Befallen(s.workers[i], event))
    case Renew(i) => Renewed(s, i)
    case Escalate(i, ok) => EscalatedAt(s, i, ok)
    case ClaimExpires => s.(sh := s.sh.(claim := None))
    case Press(username, areaIds, confirmation) => Pressed(s, Stop(username, areaIds, confirmation, Asking, false))
    case Operate(j, at) => OperatedBy(s, j, at)
    case Look => Looked(s)
    case Judge(k, now) => JudgedBy(s, k, now)
  }

  /** `t` is where `s` gets by `steps`. */
  ghost predicate Leads(s: State, steps: seq<Step>, t: State)
    decreases |steps|
  {
    if steps == [] then t == s
    else Enabled(s, steps[0]) && Leads(Next(s, steps[0]), steps[1..], t)
  }

  ghost predicate Reachable(s: State) {
    exists first: State, steps: seq<Step> :: Init(first) && Leads(first, steps, s)
  }
}
