/**
 * What each actor's write does to the row, column by column, and when it is issued: the operator who stops a run,
 * the worker who stands down or collects, the read that finds a collection nobody will record.
 */
module RunAnswers {
  import opened Options
  import opened RunRecord
  import opened StagedAborts
  import opened RunProtocol
  import opened RunInvariants
  import opened RunSafety
  import JsText

  // ---------------------------------------------------------------- the operator

  /** The operator may see the run's area, and has named the script where its stop must be confirmed. */
  predicate Entitled(row: Row, stop: Stop) {
    && row.areaId in stop.areaIds
    && (row.criticality.ReadOnly?
        || (stop.confirmation.Some? && JsText.Trim(stop.confirmation.value) != ""
            && JsText.Trim(stop.confirmation.value) == JsText.Trim(row.scriptFileName)))
  }

  /** A stop goes on exactly for an entitled operator and a run that is not over, and by whether it was claimed. */
  lemma StopIsTakenExactlyWhen(s: State, j: nat, at: int)
    requires j < |s.stops| && s.stops[j].pc.Asking?
    ensures Enabled(s, Operate(j, at))
    ensures var row, stop, after := s.sh.row, s.stops[j], Next(s, Operate(j, at));
            && after.sh.row == row
            && after.stops[j].username == stop.username
            && (after.stops[j].pc.CancelRow? <==> Entitled(row, stop) && row.status.Queued?)
            && (after.stops[j].pc.RecordRequest? <==> Entitled(row, stop) && StillOpen(row))
            && (after.stops[j].pc.Rejected? <==> IsTerminal(row.status) || !Entitled(row, stop))
  {
    assert AuthoriseAbort(s.sh.row.criticality, s.sh.row.scriptFileName, s.stops[j].confirmation).Authorised?
      <==> s.sh.row.criticality.ReadOnly?
           || (s.stops[j].confirmation.Some? && JsText.Trim(s.stops[j].confirmation.value) != ""
               && JsText.Trim(s.stops[j].confirmation.value) == JsText.Trim(s.sh.row.scriptFileName));
  }

  /** A run nobody has claimed is over with the operator's write; one that was claimed meanwhile is asked to stop. */
  lemma CancelIsWritten(s: State, j: nat, at: int)
    requires j < |s.stops| && s.stops[j].pc.CancelRow?
    ensures Enabled(s, Operate(j, at))
    ensures var before, after := s.sh.row, Next(s, Operate(j, at));
            if before.status.Queued? then
              && after.stops[j].pc.Cancelled?
              && after.sh.row == before.(status := Aborted, failureReason := Some(AbortedByUser),
                                         finishedAt := Some(at), collectedAt := Some(at))
            else after.stops[j].pc.RecordRequest? && after.sh.row == before
  {
  }

  /** The request names the operator and is in the row before it is published. */
  lemma RequestIsWritten(s: State, j: nat, at: int)
    requires j < |s.stops| && s.stops[j].pc.RecordRequest?
    ensures Enabled(s, Operate(j, at))
    ensures var before, after := s.sh.row, Next(s, Operate(j, at));
            && after.stops[j].pc.Publish?
            && after.sh.row == before.(abortRequestedBy := Some(s.stops[j].username), abortRequestedAt := Some(at))
  {
  }

  /** The message reaches every worker that is subscribed and alive, once, and no other. */
  lemma MessageReachesTheSubscribed(s: State, j: nat, at: int, i: nat)
    requires j < |s.stops| && s.stops[j].pc.Publish? && i < |s.workers|
    ensures Enabled(s, Operate(j, at)) && i < |Next(s, Operate(j, at)).workers|
    ensures var before, after := s.workers[i], Next(s, Operate(j, at)).workers[i];
            && after.hold.inbox
               == before.hold.inbox + (if before.hold.subscription.Subscribed? && !before.pc.Crashed? then 1 else 0)
            && after == before.(hold := before.hold.(inbox := after.hold.inbox))
            && Next(s, Operate(j, at)).stops[j].pc.Accepted?
            && Next(s, Operate(j, at)).sh.row == s.sh.row
  {
  }

  /** A stop is noted as delivered exactly when the worker whose claim landed is among those it reaches. */
  lemma DeliveredExactlyWhenSubscribed(s: State, j: nat, at: int)
    requires j < |s.stops| && s.stops[j].pc.Publish?
    ensures Next(s, Operate(j, at)).stops[j].delivered
       <==> exists i: nat | i < |s.workers| ::
              s.sh.winner == Some(i) && s.workers[i].hold.subscription.Subscribed? && !s.workers[i].pc.Crashed?
  {
  }

  // ---------------------------------------------------------------- the worker

  /** The claim moves a queued run alone, and says whose it is. */
  lemma ClaimIsWritten(s: State, i: nat, c: Chance)
    requires i < |s.workers| && s.workers[i].pc.ClaimRow?
    ensures Enabled(s, Work(i, c))
    ensures var before, after := s.sh.row, Next(s, Work(i, c));
            if before.status.Queued? then
              && after.sh.row == before.(status := Starting, workerId := Some(s.workers[i].name))
              && after.sh.winner == Some(i) && after.workers[i].pc.AppendClaimed?
            else after.sh.row == before && after.sh.winner == s.sh.winner && after.workers[i].pc.ReleaseClaim?
  {
  }

  /** The mark moves a claimed run alone; the worker goes on in either case. */
  lemma MarkIsWritten(s: State, i: nat, c: Chance)
    requires i < |s.workers| && s.workers[i].pc.MarkRunning?
    ensures Enabled(s, Work(i, c))
    ensures var before, after := s.sh.row, Next(s, Work(i, c));
            && after.workers[i].pc.AppendStarted?
            && after.sh.row == if before.status.Starting? then before.(status := Running, startedAt := Some(c.at))
                               else before
  {
  }

  /** A stop that is in the row at the first look, and only that, keeps the worker from the start. */
  lemma FirstLookDecides(s: State, i: nat, c: Chance)
    requires i < |s.workers| && s.workers[i].pc.FirstStopRead?
    ensures Enabled(s, Work(i, c))
    ensures var after := Next(s, Work(i, c)).workers[i].pc;
            && (after.AppendStopAsked? <==> c.ok && s.sh.row.abortRequestedAt.Some?)
            && (after.StartScript? <==> !c.ok || s.sh.row.abortRequestedAt.None?)
  {
  }

  /** The second look sees what is in the row, and a stop it sees is heard like one that was published. */
  lemma SecondLookHears(s: State, i: nat, c: Chance)
    requires i < |s.workers| && s.workers[i].pc.SecondStopRead?
    ensures Enabled(s, Work(i, c))
    ensures var before, after := s.workers[i].hold, Next(s, Work(i, c)).workers[i].hold;
            var sees := c.ok && s.sh.row.abortRequestedAt.Some?;
            && (after.secondRead.SawStop? <==> sees)
            && (after.secondRead.SawNone? <==> c.ok && s.sh.row.abortRequestedAt.None?)
            && (after.heard <==> before.heard || sees)
            && (after.subscribedAtRead <==> before.subscription.Subscribed?)
            && (sees ==> after.abort.requested || after.abort.exited)
            && (!sees ==> after.abort == before.abort)
  {
  }

  /** A message is heard: the escalation starts, unless it was started before or the exit has been seen. */
  lemma MessageIsHeard(s: State, i: nat)
    requires Enabled(s, Befall(i, Message))
    ensures var before, after := s.workers[i].hold, Next(s, Befall(i, Message)).workers[i].hold;
            && after.heard && after.inbox + 1 == before.inbox
            && after.abort == if before.abort.exited || before.abort.requested then before.abort
                              else before.abort.(requested := true, phase := Checking(Sigint))
  {
  }

  /** Standing down ends the run as aborted, without a stage, and its collection with it. */
  lemma StandDownIsWritten(s: State, i: nat, c: Chance)
    requires i < |s.workers| && s.workers[i].pc.AbortRow?
    ensures Enabled(s, Work(i, c))
    ensures var before, after := s.sh.row, Next(s, Work(i, c)).sh.row;
            if before.status.Starting? then
              after == before.(status := Aborted, failureReason := Some(AbortedByUser),
                               finishedAt := Some(c.at), collectedAt := Some(c.at))
            else after == before
  {
  }

  /** The collection's end is written with its count, or without one where the collection threw. */
  lemma CollectionIsWritten(s: State, i: nat, c: Chance)
    requires i < |s.workers| && (s.workers[i].pc.MarkCollected? || s.workers[i].pc.EndCollection?)
    ensures Enabled(s, Work(i, c))
    ensures var before, after := s.sh.row, Next(s, Work(i, c)).sh.row;
            if s.workers[i].pc.MarkCollected?
            then after == before.(resultCount := Some(c.count), collectedAt := Some(c.at))
            else after == before.(collectedAt := Some(c.at))
  {
  }

  /** A stage is written when its signal was delivered and the run is still running, and nothing else with it. */
  lemma StageIsWritten(s: State, i: nat, ok: bool)
    requires i < |s.workers| && Enabled(s, Escalate(i, ok))
    ensures var before, after := s.sh.row, Next(s, Escalate(i, ok)).sh.row;
            var phase := s.workers[i].hold.abort.phase;
            after == if phase.Reporting? && ok && before.status.Running?
                     then before.(abortStage := Some(phase.stage)) else before
  {
  }

  // ---------------------------------------------------------------- the claim key

  /** The key is taken exactly by a worker who finds it gone; any other leaves the job to its holder. */
  lemma KeyIsTakenExactlyWhenGone(s: State, i: nat, c: Chance)
    requires i < |s.workers| && s.workers[i].pc.SetClaim?
    ensures Enabled(s, Work(i, c))
    ensures var after := Next(s, Work(i, c));
            if s.sh.claim.None? then after.sh.claim == Some(s.workers[i].name) && after.workers[i].pc.ReadRun?
            else after.sh.claim == s.sh.claim && after.workers[i].pc.Done?
  {
  }

  /** The delete asks for no name: it takes the key away whoever holds it. */
  lemma KeyIsDropped(s: State, i: nat, c: Chance)
    requires i < |s.workers| && s.workers[i].pc.ReleaseClaim?
    ensures Enabled(s, Work(i, c))
    ensures Next(s, Work(i, c)).sh.claim == if c.ok then None else s.sh.claim
    ensures Next(s, Work(i, c)).workers[i].pc.Done?
  {
  }

  // ---------------------------------------------------------------- the read that ends a collection

  /** A read ends the collection exactly of a run that is over and unrecorded for a minute, with the claim gone. */
  lemma ReadEndsTheCollectionExactlyWhen(s: State, k: nat, now: int)
    requires Reachable(s) && k < |s.reaps| && s.reaps[k].pc.Judging?
    ensures Enabled(s, Judge(k, now))
    ensures var found := s.reaps[k].pc.found;
            Next(s, Judge(k, now)).reaps[k].pc.EndingCollection?
            <==> && (found.status.Succeeded? || found.status.Failed? || found.status.Aborted?)
                 && found.collectedAt.None? && s.sh.claim.None?
                 && found.finishedAt.Some? && 60_000 <= now - found.finishedAt.value
  {
    ReachableIsInv(s);
    assert ReapOk(s.sh.row, s.reaps[k]);
  }

  /** A read that decided to fails an open run for its lost worker, or ends a collection, and writes nothing else. */
  lemma ReadsWrite(s: State, k: nat, now: int)
    requires k < |s.reaps| && !s.reaps[k].pc.Returned?
    ensures Enabled(s, Judge(k, now))
    ensures var before, after := s.sh.row, Next(s, Judge(k, now)).sh.row;
            match s.reaps[k].pc
            case FailingRow =>
              after == if before.status.Starting? || before.status.Running?
                       then before.(status := Failed, failureReason := Some(WorkerLost), finishedAt := Some(now),
                                    collectedAt := Some(now))
                       else before
            case EndingCollection => after == before.(collectedAt := Some(now))
            case _ => after == before
  {
  }

  /** In a reachable state a view stops asking exactly when the run is over and its collection's end is written. */
  lemma SettledExactlyWhenCollected(s: State)
    requires Reachable(s)
    ensures CollectionSettled(s.sh.row)
       <==> && (s.sh.row.status.Succeeded? || s.sh.row.status.Failed? || s.sh.row.status.Aborted?)
            && s.sh.row.collectedAt.Some?
  {
    ReachableIsInv(s);
  }

  // ---------------------------------------------------------------- who catches

  /** What the worker does about an exception, by where it was thrown. */
  lemma WhoCatches(pc: Pc)
    requires CanThrow(pc)
    ensures Handler(pc) == FailRow(ConnectFailed, BeforeDriving) <==> pc.Connect?
    ensures Handler(pc) == FailRow(ConnectionLost, FromCatch)
       <==> || pc.StatScript? || pc.AppendStopAsked? || pc.AbortRow? || pc.AuditAborted? || pc.StartScript?
            || pc.AppendPtyOpened? || pc.MarkRunning? || pc.AppendStarted?
            || ((pc.FailRow? || pc.AppendFailure? || pc.AuditFailure?) && pc.scope.InsideDrive?)
    ensures Handler(pc) == FailRow(StartFailed, LastResort)
       <==> || pc.ReadRun? || pc.ClaimRow? || pc.AppendClaimed? || pc.FindScript? || pc.AppendConnected?
            || ((pc.FailRow? || pc.AppendFailure? || pc.AuditFailure?) && pc.scope.BeforeDriving?)
    ensures Handler(pc) == Unwire(true)
       <==> || pc.WriteOutcome? || pc.AppendExited? || pc.AuditOutcome? || pc.AppendNotSaved?
            || pc.EndCollection? || pc.AppendNotCollected?
    ensures Handler(pc).AppendNotSaved? <==> pc.SaveTranscript?
    ensures Handler(pc).EndCollection?
       <==> pc.ListOutput? || pc.RecordResults? || pc.MarkCollected? || pc.AppendCollected?
    ensures Handler(pc) == Cleanup(true)
       <==> (pc.FailRow? || pc.AppendFailure? || pc.AuditFailure?) && pc.scope.FromCatch?
    ensures Handler(pc).ReleaseClaim?
       <==> (pc.FailRow? || pc.AppendFailure? || pc.AuditFailure?) && pc.scope.LastResort?
    ensures Handler(pc).Done? <==> pc.SetClaim?
  {
  }
}
