/**
 * The row of the `runs` table and its only writers: the guarded `transition`, the three unguarded marks,
 * and the decisions that read the row (who may stop a run, when its collection is over, when it is orphaned).
 */
module RunRecord {
  import opened Options
  import JsText

  datatype RunStatus = Queued | Starting | Running | Succeeded | Failed | Aborted

  datatype FailureReason = ExitCode | ConnectionLost | ConnectFailed | StartFailed | WorkerLost | AbortedByUser

  datatype AbortStage = Sigint | Sigterm | Sigkill

  datatype Criticality = ReadOnly | Modifying | Unknown

  /** Timestamps are integers (milliseconds); nothing is assumed about the clocks that produced them. */
  datatype Row = Row(
    areaId: string,
    scriptFileName: string,
    criticality: Criticality,
    queuedAt: int,
    status: RunStatus,
    workerId: Option<string>,
    startedAt: Option<int>,
    finishedAt: Option<int>,
    exitCode: Option<int>,
    failureReason: Option<FailureReason>,
    abortStage: Option<AbortStage>,
    abortRequestedBy: Option<string>,
    abortRequestedAt: Option<int>,
    resultCount: Option<nat>,
    collectedAt: Option<int>
  )

  /** A partial update: an absent field is left alone, a present one is written, null included. */
  datatype Patch = Patch(
    workerId: Option<string>,
    startedAt: Option<int>,
    finishedAt: Option<int>,
    exitCode: Option<Option<int>>,
    failureReason: Option<Option<FailureReason>>,
    abortStage: Option<Option<AbortStage>>,
    collectedAt: Option<int>
  )

  const NO_CHANGE := Patch(None, None, None, None, None, None, None)

  const ORPHAN_GRACE_MS := 60_000

  predicate IsTerminal(status: RunStatus) {
    status.Succeeded? || status.Failed? || status.Aborted?
  }

  function StageRank(stage: Option<AbortStage>): nat {
    match stage
    case None => 0
    case Some(Sigint) => 1
    case Some(Sigterm) => 2
    case Some(Sigkill) => 3
  }

  /** Claimed, and not over. */
  predicate StillOpen(row: Row) {
    row.status.Starting? || row.status.Running?
  }

  // ---------------------------------------------------------------- the writers, on values

  function Patched(row: Row, to: RunStatus, patch: Patch): Row {
    row.(
    status := to,
    workerId := if patch.workerId.Some? then patch.workerId else row.workerId,
    startedAt := if patch.startedAt.Some? then patch.startedAt else row.startedAt,
    finishedAt := if patch.finishedAt.Some? then patch.finishedAt else row.finishedAt,
    exitCode := if patch.exitCode.Some? then patch.exitCode.value else row.exitCode,
    failureReason := if patch.failureReason.Some? then patch.failureReason.value else row.failureReason,
    abortStage := if patch.abortStage.Some? then patch.abortStage.value else row.abortStage,
    collectedAt := if patch.collectedAt.Some? then patch.collectedAt else row.collectedAt)
  }

  /** The compare-and-set: the row moves exactly when its status is one of `from`. */
  function Transitioned(row: Row, to: RunStatus, patch: Patch, from: set<RunStatus>): Row {
    if row.status in from then Patched(row, to, patch) else row
  }

  function AbortRecorded(row: Row, requestedBy: string, at: int): Row {
    row.(abortRequestedBy := Some(requestedBy), abortRequestedAt := Some(at))
  }

  function Collected(row: Row, count: nat, at: int): Row {
    row.(collectedAt := Some(at), resultCount := Some(count))
  }

  function CollectionEnded(row: Row, at: int): Row {
    row.(collectedAt := Some(at))
  }

  // ---------------------------------------------------------------- the writers, in place

  /** The row as the database holds it; each method is one statement and therefore atomic. */
  class RunRepository {
    var row: Row

    constructor (row: Row)
      ensures this.row == row
    {
      this.row := row;
    }

    method Transition(to: RunStatus, patch: Patch, from: set<RunStatus>) returns (moved: bool)
      modifies this
      ensures moved == (old(row.status) in from)
      ensures row == Transitioned(old(row), to, patch, from)
      ensures if !moved then row == old(row) else
                && row.status == to
                && row.workerId == (if patch.workerId.Some? then patch.workerId else old(row.workerId))
                && row.startedAt == (if patch.startedAt.Some? then patch.startedAt else old(row.startedAt))
                && row.finishedAt == (if patch.finishedAt.Some? then patch.finishedAt else old(row.finishedAt))
                && row.collectedAt == (if patch.collectedAt.Some? then patch.collectedAt else old(row.collectedAt))
                && row.exitCode == (if patch.exitCode.Some? then patch.exitCode.value else old(row.exitCode))
                && row.failureReason
                   == (if patch.failureReason.Some? then patch.failureReason.value else old(row.failureReason))
                && row.abortStage == (if patch.abortStage.Some? then patch.abortStage.value else old(row.abortStage))
                && row.resultCount == old(row.resultCount)
                && row.abortRequestedBy == old(row.abortRequestedBy)
                && row.abortRequestedAt == old(row.abortRequestedAt)
      ensures (forall status | status in from :: !IsTerminal(status) && Progress(status) <= Progress(to))
              ==> Evolves(old(row), row)
    {
      moved := row.status in from;
      if moved {
        row := Patched(row, to, patch);
      }
    }

    method RecordAbortRequest(requestedBy: string, at: int)
      modifies this
      ensures row == AbortRecorded(old(row), requestedBy, at) && Evolves(old(row), row)
      ensures row == old(row).(abortRequestedBy := Some(requestedBy), abortRequestedAt := Some(at))
    {
      row := row.(abortRequestedBy := Some(requestedBy), abortRequestedAt := Some(at));
    }

    method MarkCollected(count: nat, at: int)
      modifies this
      ensures row == Collected(old(row), count, at) && Evolves(old(row), row)
      ensures row == old(row).(resultCount := Some(count), collectedAt := Some(at))
      ensures IsTerminal(row.status) ==> CollectionSettled(row)
    {
      row := row.(collectedAt := Some(at), resultCount := Some(count));
    }

    method MarkCollectionEnded(at: int)
      modifies this
      ensures row == CollectionEnded(old(row), at) && Evolves(old(row), row)
      ensures row == old(row).(collectedAt := Some(at))
      ensures IsTerminal(row.status) ==> CollectionSettled(row)
    {
      row := row.(collectedAt := Some(at));
    }
  }

  // ---------------------------------------------------------------- decisions over a row

  datatype Authorisation = Authorised | ConfirmationRequired | ConfirmationMismatch

  /** A read-only script stops on request; anything else must be named, edge spaces aside. */
  function AuthoriseAbort(criticality: Criticality, scriptFileName: string, confirmation: Option<string>)
    : (answer: Authorisation)
    ensures answer.Authorised? <==>
            criticality.ReadOnly?
            || (confirmation.Some? && JsText.Trim(confirmation.value) != ""
               && JsText.Trim(confirmation.value) == JsText.Trim(scriptFileName))
    ensures answer.ConfirmationRequired? <==>
            !criticality.ReadOnly? && (confirmation.Some? ==> JsText.Trim(confirmation.value) == "")
  {
    if criticality.ReadOnly? then Authorised
    else if confirmation.None? || JsText.Trim(confirmation.value) == "" then ConfirmationRequired
    else if JsText.Trim(confirmation.value) != JsText.Trim(scriptFileName) then ConfirmationMismatch
    else Authorised
  }

  /** When a view may stop asking what a run produced. */
  predicate CollectionSettled(row: Row) {
    && IsTerminal(row.status)
    && (row.resultCount.Some? || row.collectedAt.Some? || row.finishedAt.None?)
  }

  datatype ReapVerdict = LeaveAlone | EndTheCollection | FailTheRun

  /** What `reapIfOrphaned` does with the row it was handed, the clock and the state of the claim key. */
  function ReapDecision(found: Row, now: int, held: bool): ReapVerdict {
    if found.status.Queued? then LeaveAlone
    else if IsTerminal(found.status) then
      if found.resultCount.Some? || found.collectedAt.Some? then LeaveAlone
      else if now - EndedAt(found) < ORPHAN_GRACE_MS then LeaveAlone
      else if held then LeaveAlone
      else EndTheCollection
    else if held then LeaveAlone
    else if now - BegunAt(found) < ORPHAN_GRACE_MS then LeaveAlone
    else FailTheRun
  }

  function EndedAt(row: Row): int {
    if row.finishedAt.Some? then row.finishedAt.value else row.queuedAt
  }

  function BegunAt(row: Row): int {
    if row.startedAt.Some? then row.startedAt.value else row.queuedAt
  }

  // ---------------------------------------------------------------- what a row may say, and how it may move

  /** The columns agree with one another. */
  ghost predicate Coherent(row: Row) {
    && (!IsTerminal(row.status) ==>
          && row.finishedAt.None?
          && row.exitCode.None?
          && row.failureReason.None?
          && row.collectedAt.None?
          && row.resultCount.None?)
    && (IsTerminal(row.status) ==> row.finishedAt.Some?)
    && (row.status.Succeeded? ==> row.exitCode == Some(0) && row.failureReason.None? && row.abortStage.None?)
    && (row.status.Aborted? <==> row.failureReason == Some(AbortedByUser))
    && (row.status.Failed? ==> row.failureReason.Some?)
    && (row.resultCount.Some? ==> row.collectedAt.Some?)
  }

  function Progress(status: RunStatus): nat {
    match status
    case Queued => 0
    case Starting => 1
    case Running => 2
    case _ => 3
  }

  /** The outcome of a finished run: once terminal, none of this is rewritten. */
  ghost predicate SameOutcome(before: Row, after: Row) {
    && after.status == before.status
    && after.finishedAt == before.finishedAt
    && after.exitCode == before.exitCode
    && after.failureReason == before.failureReason
    && after.abortStage == before.abortStage
  }

  /** How any writer whatsoever may move the row. */
  ghost predicate Evolves(before: Row, after: Row) {
    && after.areaId == before.areaId
    && after.scriptFileName == before.scriptFileName
    && after.criticality == before.criticality
    && after.queuedAt == before.queuedAt
    && Progress(before.status) <= Progress(after.status)
    && (IsTerminal(before.status) ==> SameOutcome(before, after))
    && (before.abortRequestedAt.Some? ==> after.abortRequestedAt.Some?)
    && (before.collectedAt.Some? ==> after.collectedAt.Some?)
    && (before.resultCount.Some? ==> after.resultCount.Some?)
  }

  lemma EvolvesTransitively(a: Row, b: Row, c: Row)
    requires Evolves(a, b) && Evolves(b, c)
    ensures Evolves(a, c)
  {
  }
}
