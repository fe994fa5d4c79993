/** Every step of the system keeps the invariant, hence so does every run. */
module RunSafety {
  import opened Options
  import opened RunRecord
  import opened StagedAborts
  import opened RunProtocol
  import opened RunInvariants

  // ---------------------------------------------------------------- what others keep while one actor moves

  lemma GuardSurvives(before: Row, after: Row, stops: seq<Stop>, stops': seq<Stop>)
    requires SomebodyPassedGuard(before, stops) && Evolves(before, after)
    requires |stops| <= |stops'|
    requires forall j | 0 <= j < |stops| :: PassedGuard(before, stops[j]) ==> PassedGuard(before, stops'[j])
    ensures SomebodyPassedGuard(after, stops')
  {
    var j :| 0 <= j < |stops| && PassedGuard(before, stops[j]);
    assert PassedGuard(after, stops'[j]);
  }

  /** The stops and reads of `s` are still in order in `t`, when the row moved forward and the winner kept its ears. */
  lemma OthersSurvive(s: State, t: State)
    requires Inv(s)
    requires Evolves(s.sh.row, t.sh.row)
    requires t.sh.winner == s.sh.winner || (s.sh.winner.None? && s.sh.row.status.Queued?)
    requires t.sh.winner.Some? ==> t.sh.winner.value < |t.workers|
    requires forall j | 0 <= j < |s.stops| ::
               s.stops[j].pc.Accepted? && t.sh.winner.Some? ==> Ears(t.workers[t.sh.winner.value], s.stops[j])
    ensures forall j | 0 <= j < |s.stops| :: StopOk(t, s.stops[j])
    ensures forall k | 0 <= k < |s.reaps| :: ReapOk(t.sh.row, s.reaps[k])
  {
    forall j | 0 <= j < |s.stops|
      ensures StopOk(t, s.stops[j])
    {
      assert StopOk(s, s.stops[j]);
    }
    forall k | 0 <= k < |s.reaps|
      ensures ReapOk(t.sh.row, s.reaps[k])
    {
      assert ReapOk(s.sh.row, s.reaps[k]);
    }
  }

  // ---------------------------------------------------------------- a worker moves

  /** `t` is `s` after worker `i` did something, to itself and to what is shared. */
  ghost predicate WorkerMoved(s: State, t: State, i: nat) {
    && i < |s.workers| == |t.workers|
    && t.workers == s.workers[i := t.workers[i]]
    && t.stops == s.stops && t.reaps == s.reaps && t.graces == s.graces
  }

  lemma WinnerMoved(s: State, t: State, i: nat)
    requires Inv(s) && WorkerMoved(s, t, i) && s.sh.winner == Some(i) && t.sh.winner == Some(i)
    requires WinnerStepOk(s.sh.row, t.sh.row, t.workers[i], s.graces)
    requires t.sh.starts == if t.workers[i].hold.startCalled then 1 else 0
    requires s.sh.row.abortRequestedAt.Some? ==> KeepsEars(s.workers[i], t.workers[i])
    requires s.sh.row.abortRequestedAt.None? && !s.sh.row.status.Aborted? && Unasked(s.workers[i].hold)
             ==> t.sh.row.abortRequestedAt.None? && !t.sh.row.status.Aborted? && Unasked(t.workers[i].hold)
    ensures Inv(t)
  {
    forall k | 0 <= k < |t.workers| && t.sh.winner != Some(k)
      ensures Bystander(t.workers[k])
    {
      assert t.workers[k] == s.workers[k];
    }
    forall j | 0 <= j < |s.stops|
      ensures s.stops[j].pc.Accepted? ==> Ears(t.workers[i], s.stops[j])
    {
      assert StopOk(s, s.stops[j]);
    }
    OthersSurvive(s, t);
    if SomebodyPassedGuard(s.sh.row, s.stops) {
      GuardSurvives(s.sh.row, t.sh.row, s.stops, t.stops);
    } else {
      forall k | 0 <= k < |t.workers|
        ensures Unasked(t.workers[k].hold)
      {
        assert Unasked(s.workers[k].hold);
      }
    }
  }

  lemma BystanderMoved(s: State, t: State, i: nat)
    requires Inv(s) && WorkerMoved(s, t, i) && s.sh.winner != Some(i)
    requires t.sh.winner == s.sh.winner && t.sh.starts == s.sh.starts
    requires Bystander(t.workers[i]) && Coherent(t.sh.row) && Foreign(s.sh.row, t.sh.row)
    requires t.sh.row == s.sh.row
             || (t.sh.row.status.Failed? && t.sh.row.collectedAt.Some? && t.sh.row.abortStage == s.sh.row.abortStage)
    requires t.sh.row.abortRequestedAt == s.sh.row.abortRequestedAt
    ensures Inv(t)
  {
    forall k | 0 <= k < |t.workers| && t.sh.winner != Some(k)
      ensures Bystander(t.workers[k])
    {
      if k != i {
        assert t.workers[k] == s.workers[k];
      }
    }
    if s.sh.winner.Some? {
      assert t.workers[s.sh.winner.value] == s.workers[s.sh.winner.value];
      WinnerSurvives(s.sh.row, t.sh.row, s.workers[s.sh.winner.value], s.graces);
    }
    forall j | 0 <= j < |s.stops|
      ensures s.stops[j].pc.Accepted? && t.sh.winner.Some? ==> Ears(t.workers[t.sh.winner.value], s.stops[j])
    {
      assert StopOk(s, s.stops[j]);
    }
    OthersSurvive(s, t);
    if SomebodyPassedGuard(s.sh.row, s.stops) {
      GuardSurvives(s.sh.row, t.sh.row, s.stops, t.stops);
    } else {
      forall k | 0 <= k < |t.workers|
        ensures Unasked(t.workers[k].hold)
      {
        assert Unasked(s.workers[k].hold);
      }
    }
  }

  lemma Winning(sh: Shared, w: Worker, i: nat, c: Chance, graces: Graces)
    requires Coherent(sh.row) && sh.row.status.Queued? && sh.row.abortStage.None? && Bystander(w) && w.pc.ClaimRow?
    ensures var row := SharedAfter(sh, w, i, c).row;
            && row.status.Starting? && row.abortRequestedAt == sh.row.abortRequestedAt
            && WinnerStepOk(sh.row, row, WorkerAfter(sh, w, c), graces)
    ensures SharedAfter(sh, w, i, c).winner == Some(i) && SharedAfter(sh, w, i, c).starts == sh.starts
    ensures WorkerAfter(sh, w, c).hold == NOTHING_HELD
  {
  }

  /** The compare-and-set of the claim lands: only a queued run can be won, and a queued run has no winner yet. */
  lemma BystanderWins(s: State, i: nat, c: Chance)
    requires Inv(s) && i < |s.workers| && s.workers[i].pc.ClaimRow? && s.sh.row.status.Queued?
    ensures Inv(Worked(s, i, c))
    ensures Evolves(s.sh.row, Worked(s, i, c).sh.row)
  {
    assert s.sh.winner.None?;
    assert Bystander(s.workers[i]);
    Winning(s.sh, s.workers[i], i, c, s.graces);
    HasWon(s, Worked(s, i, c), i);
  }

  lemma HasWon(s: State, t: State, i: nat)
    requires Inv(s) && WorkerMoved(s, t, i) && s.sh.winner.None? && t.sh.winner == Some(i) && t.sh.starts == 0
    requires s.sh.row.status.Queued? && t.sh.row.status.Starting?
    requires WinnerStepOk(s.sh.row, t.sh.row, t.workers[i], s.graces)
    requires t.workers[i].hold == NOTHING_HELD && t.sh.row.abortRequestedAt == s.sh.row.abortRequestedAt
    ensures Inv(t)
  {
    OthersSurvive(s, t);
    if SomebodyPassedGuard(s.sh.row, s.stops) {
      GuardSurvives(s.sh.row, t.sh.row, s.stops, t.stops);
    } else {
      forall k | 0 <= k < |t.workers|
        ensures Unasked(t.workers[k].hold)
      {
        assert Unasked(s.workers[k].hold);
      }
    }
    forall k | 0 <= k < |t.workers| && t.sh.winner != Some(k)
      ensures Bystander(t.workers[k])
    {
      assert t.workers[k] == s.workers[k];
    }
  }

  lemma BystanderWorks(s: State, i: nat, c: Chance)
    requires Inv(s) && i < |s.workers| && CanWork(s.workers[i]) && s.sh.winner != Some(i)
    ensures Inv(Worked(s, i, c))
    ensures Evolves(s.sh.row, Worked(s, i, c).sh.row)
  {
    assert Bystander(s.workers[i]);
    if s.workers[i].pc.ClaimRow? && s.sh.row.status.Queued? {
      BystanderWins(s, i, c);
    } else {
      BystanderWrites(s.sh.row, s.workers[i], c);
      BystanderSteps(s.sh, s.workers[i], i, c);
      BystanderMoved(s, Worked(s, i, c), i);
    }
  }

  /** A bystander's write, if any, fails a run that nobody holds or that is over already. */
  lemma BystanderWrites(row: Row, w: Worker, c: Chance)
    requires Coherent(row) && Bystander(w) && CanWork(w) && !(w.pc.ClaimRow? && row.status.Queued?)
    ensures var after := RowAfterWork(row, w, c);
            && Coherent(after) && Foreign(row, after)
            && (after == row || (after.status.Failed? && after.collectedAt.Some? && after.abortStage == row.abortStage))
            && after.abortRequestedAt == row.abortRequestedAt
  {
  }

  lemma BystanderSteps(sh: Shared, w: Worker, i: nat, c: Chance)
    requires Bystander(w) && CanWork(w) && !(w.pc.ClaimRow? && sh.row.status.Queued?)
    ensures Bystander(WorkerAfter(sh, w, c))
    ensures SharedAfter(sh, w, i, c).winner == sh.winner && SharedAfter(sh, w, i, c).starts == sh.starts
  {
  }

  lemma BystanderCatches(w: Worker)
    requires Bystander(w) && CanThrow(w.pc)
    ensures Bystander(Threw(w)) && !w.pc.StartScript?
  {
  }

  lemma BystanderThrows(s: State, i: nat)
    requires Inv(s) && i < |s.workers| && CanThrow(s.workers[i].pc) && s.sh.winner != Some(i)
    ensures Inv(Thrown(s, i))
    ensures Thrown(s, i).sh == s.sh
  {
    BystanderCatches(s.workers[i]);
    BystanderMoved(s, Thrown(s, i), i);
  }

  lemma WinnerStepKeepsEars(sh: Shared, w: Worker, c: Chance)
    requires CanWork(w) && (w.pc.WireUp? ==> w.hold.subscription.Unsubscribed? && w.hold.secondRead.NotRead?)
    requires sh.row.abortRequestedAt.Some?
    ensures KeepsEars(w, WorkerAfter(sh, w, c))
  {
  }

  lemma WinnerStepStaysUnasked(sh: Shared, w: Worker, i: nat, c: Chance, graces: Graces)
    requires WinnerOk(sh.row, w, graces) && CanWork(w)
    requires sh.row.abortRequestedAt.None? && !sh.row.status.Aborted? && Unasked(w.hold)
    ensures var row := SharedAfter(sh, w, i, c).row; row.abortRequestedAt.None? && !row.status.Aborted?
    ensures Unasked(WorkerAfter(sh, w, c).hold)
  {
  }

  lemma OnlyTheStartCounts(row: Row, w: Worker, c: Chance)
    requires CanWork(w)
    ensures HoldAfter(row, w, c).startCalled == (w.hold.startCalled || w.pc.StartScript?)
  {
    if w.pc.StartScript? {
      assert HoldAfter(row, w, c).startCalled;
    }
  }

  lemma StartsAreCounted(sh: Shared, w: Worker, i: nat, c: Chance)
    requires CanWork(w) && (w.pc.StartScript? ==> !w.hold.startCalled) && !w.pc.ClaimRow?
    requires sh.starts == if w.hold.startCalled then 1 else 0
    ensures SharedAfter(sh, w, i, c).starts == if WorkerAfter(sh, w, c).hold.startCalled then 1 else 0
    ensures SharedAfter(sh, w, i, c).winner == sh.winner
  {
    OnlyTheStartCounts(sh.row, w, c);
  }

  /** The winner's own step, on the winner and what is shared. */
  lemma WinnerStepKeepsPromises(sh: Shared, w: Worker, i: nat, c: Chance, graces: Graces)
    requires CanTakeStep(sh, w, graces) && sh.starts == if w.hold.startCalled then 1 else 0
    ensures var sh', w' := SharedAfter(sh, w, i, c), WorkerAfter(sh, w, c);
            && WinnerStepOk(sh.row, sh'.row, w', graces)
            && sh'.winner == sh.winner
            && sh'.starts == (if w'.hold.startCalled then 1 else 0)
            && (sh.row.abortRequestedAt.Some? ==> KeepsEars(w, w'))
            && (sh.row.abortRequestedAt.None? && !sh.row.status.Aborted? && Unasked(w.hold)
                ==> sh'.row.abortRequestedAt.None? && !sh'.row.status.Aborted? && Unasked(w'.hold))
  {
    WinnerWorks(sh, w, i, c, graces);
    StartsAreCounted(sh, w, i, c);
    if sh.row.abortRequestedAt.Some? {
      WinnerStepKeepsEars(sh, w, c);
    }
    if sh.row.abortRequestedAt.None? && !sh.row.status.Aborted? && Unasked(w.hold) {
      WinnerStepStaysUnasked(sh, w, i, c, graces);
    }
  }

  lemma WinnerSteps(s: State, i: nat, c: Chance)
    requires Inv(s) && i < |s.workers| && CanWork(s.workers[i]) && s.sh.winner == Some(i)
    ensures Inv(Worked(s, i, c))
    ensures Evolves(s.sh.row, Worked(s, i, c).sh.row)
  {
    WinnerStepKeepsPromises(s.sh, s.workers[i], i, c, s.graces);
    WinnerMoved(s, Worked(s, i, c), i);
  }

  lemma WinnerExcepts(s: State, i: nat)
    requires Inv(s) && i < |s.workers| && CanThrow(s.workers[i].pc) && s.sh.winner == Some(i)
    ensures Inv(Thrown(s, i))
    ensures Thrown(s, i).sh.row == s.sh.row
  {
    WinnerThrows(s.sh.row, s.workers[i], s.graces);
    assert s.workers[i].pc.StartScript? ==> !s.workers[i].hold.startCalled;
    WinnerMoved(s, Thrown(s, i), i);
  }

  lemma BystanderIsBefallen(s: State, i: nat, event: Happening)
    requires Inv(s) && i < |s.workers| && CanBefall(s.workers[i], event) && s.sh.winner != Some(i)
    ensures Inv(SetWorker(s, i, Befallen(s.workers[i], event)))
  {
    assert Bystander(s.workers[i]);
    assert Bystander(Befallen(s.workers[i], event));
    BystanderMoved(s, SetWorker(s, i, Befallen(s.workers[i], event)), i);
  }

  /** What reaches the winner from outside leaves it in order, with its ears, and unasked if it was. */
  lemma WinnerIsBefallen(row: Row, w: Worker, event: Happening, graces: Graces)
    requires WinnerOk(row, w, graces) && CanBefall(w, event)
    ensures WinnerOk(row, Befallen(w, event), graces)
    ensures Befallen(w, event).hold.startCalled == w.hold.startCalled
    ensures KeepsEars(w, Befallen(w, event))
    ensures Unasked(w.hold) ==> Unasked(Befallen(w, event).hold)
  {
    match event {
      case Death => WinnerCrashes(row, w, graces);
      case Confirmation => WinnerSubscribes(row, w, graces);
      case Message => WinnerHears(row, w, graces);
      case ExitShows => WinnerSeesExit(row, w, graces);
      case Closing(code, signalled) => WinnerChannel(row, w, graces, code, signalled);
    }
  }

  /** What happens to a worker from outside never moves the row. */
  lemma BefallenIsSafe(s: State, i: nat, event: Happening)
    requires Inv(s) && i < |s.workers| && CanBefall(s.workers[i], event)
    ensures Inv(SetWorker(s, i, Befallen(s.workers[i], event)))
  {
    if s.sh.winner == Some(i) {
      WinnerIsBefallen(s.sh.row, s.workers[i], event, s.graces);
      UnmovedRow(s.sh.row, Befallen(s.workers[i], event), s.graces);
      WinnerMoved(s, SetWorker(s, i, Befallen(s.workers[i], event)), i);
    } else {
      BystanderIsBefallen(s, i, event);
    }
  }

  lemma UnmovedRow(row: Row, w: Worker, graces: Graces)
    requires Coherent(row) && WinnerOk(row, w, graces)
    ensures WinnerStepOk(row, row, w, graces)
  {
  }

  lemma OnlyTheWinnerEscalates(s: State, i: nat, ok: bool)
    requires Inv(s) && i < |s.workers| && CanEscalate(s.workers[i].hold.abort, s.graces, ok)
    ensures s.sh.winner == Some(i)
  {
    assert s.sh.winner != Some(i) ==> Bystander(s.workers[i]);
  }

  /** The stage listener is the one part of an escalation that writes the row. */
  lemma Escalation(s: State, i: nat, ok: bool)
    requires Inv(s) && i < |s.workers| && CanEscalate(s.workers[i].hold.abort, s.graces, ok)
    ensures Inv(EscalatedAt(s, i, ok))
    ensures Evolves(s.sh.row, EscalatedAt(s, i, ok).sh.row)
  {
    OnlyTheWinnerEscalates(s, i, ok);
    WinnerEscalates(s.sh.row, s.workers[i], s.graces, ok);
    WinnerMoved(s, EscalatedAt(s, i, ok), i);
  }

  // ---------------------------------------------------------------- operators and reads

  /** The system moved and no worker did: the winner, the bystanders and the guard are as they were. */
  lemma WorkersUntouched(s: State, t: State)
    requires Inv(s)
    requires t.workers == s.workers && t.graces == s.graces && t.sh.winner == s.sh.winner && t.sh.starts == s.sh.starts
    requires Coherent(t.sh.row) && Foreign(s.sh.row, t.sh.row)
    requires t.sh.row.status == s.sh.row.status || (t.sh.row.status.Failed? && t.sh.row.collectedAt.Some?)
    requires t.sh.winner.None? ==> t.sh.row.abortStage.None?
    ensures WinnerInv(t)
    ensures forall k | 0 <= k < |t.workers| && t.sh.winner != Some(k) :: Bystander(t.workers[k])
  {
    if s.sh.winner.Some? {
      WinnerSurvives(s.sh.row, t.sh.row, s.workers[s.sh.winner.value], s.graces);
    }
  }

  /** Only the queue or the claim key changed. */
  lemma QueueAndClaim(s: State, t: State)
    requires Inv(s)
    requires t == s.(sh := s.sh.(jobs := t.sh.jobs, claim := t.sh.claim))
    ensures Inv(t)
  {
    OthersSurvive(s, t);
  }

  lemma PoppedIsSafe(s: State, name: string)
    requires Inv(s) && s.sh.jobs > 0
    ensures Inv(Popped(s, name))
    ensures Popped(s, name).sh.row == s.sh.row
  {
    var t := Popped(s, name);
    forall k | 0 <= k < |t.workers| && t.sh.winner != Some(k)
      ensures Bystander(t.workers[k])
    {
      if k < |s.workers| {
        assert t.workers[k] == s.workers[k];
      }
    }
    OthersSurvive(s, t);
    if !SomebodyPassedGuard(s.sh.row, s.stops) {
      forall k | 0 <= k < |t.workers|
        ensures Unasked(t.workers[k].hold)
      {
        if k < |s.workers| {
          assert Unasked(s.workers[k].hold);
        }
      }
    }
  }

  lemma PressedIsSafe(s: State, stop: Stop)
    requires Inv(s) && stop.pc.Asking?
    ensures Inv(Pressed(s, stop))
  {
    var t := Pressed(s, stop);
    OthersSurvive(s, t);
    assert StopOk(t, stop);
    if SomebodyPassedGuard(s.sh.row, s.stops) {
      GuardSurvives(s.sh.row, t.sh.row, s.stops, t.stops);
    }
  }

  lemma LookingIsSafe(s: State)
    requires Inv(s)
    ensures Inv(Looked(s))
  {
    OthersSurvive(s, Looked(s));
  }

  lemma ReapWrites(sh: Shared, reap: Reap, now: int)
    requires Coherent(sh.row) && ReapOk(sh.row, reap)
    ensures var after := RowAfterReap(sh.row, reap, now);
            && Coherent(after) && Foreign(sh.row, after)
            && after.abortRequestedAt == sh.row.abortRequestedAt && after.abortStage == sh.row.abortStage
            && (after.status == sh.row.status || (after.status.Failed? && after.collectedAt.Some?))
            && ReapOk(after, ReapAfter(sh, reap, now))
  {
  }

  lemma Judged(s: State, k: nat, now: int)
    requires Inv(s) && k < |s.reaps| && CanJudge(s.reaps[k])
    ensures Inv(JudgedBy(s, k, now))
    ensures Evolves(s.sh.row, JudgedBy(s, k, now).sh.row)
  {
    var t := JudgedBy(s, k, now);
    assert ReapOk(s.sh.row, s.reaps[k]);
    ReapWrites(s.sh, s.reaps[k], now);
    WorkersUntouched(s, t);
    forall j | 0 <= j < |s.stops|
      ensures s.stops[j].pc.Accepted? && t.sh.winner.Some? ==> Ears(t.workers[t.sh.winner.value], s.stops[j])
    {
      assert StopOk(s, s.stops[j]);
    }
    OthersSurvive(s, t);
    forall m | 0 <= m < |t.reaps|
      ensures ReapOk(t.sh.row, t.reaps[m])
    {
      if m != k {
        assert t.reaps[m] == s.reaps[m];
      }
    }
    if SomebodyPassedGuard(s.sh.row, s.stops) {
      GuardSurvives(s.sh.row, t.sh.row, s.stops, t.stops);
    }
  }

  // ---------------------------------------------------------------- operators

  /** `t` is `s` after operator `j` moved. */
  ghost predicate StopMoved(s: State, t: State, j: nat) {
    && j < |s.stops| == |t.stops|
    && t.stops == s.stops[j := t.stops[j]]
    && t.reaps == s.reaps && t.graces == s.graces && t.sh.winner == s.sh.winner && t.sh.starts == s.sh.starts
    && |t.workers| == |s.workers|
    && StopOk(t, t.stops[j])
    && (PassedGuard(s.sh.row, s.stops[j]) ==> PassedGuard(s.sh.row, t.stops[j]))
  }

  lemma OthersAfterStop(s: State, t: State, j: nat)
    requires Inv(s) && StopMoved(s, t, j) && Evolves(s.sh.row, t.sh.row)
    requires t.sh.winner.Some? ==> KeepsEars(s.workers[t.sh.winner.value], t.workers[t.sh.winner.value])
    ensures forall m | 0 <= m < |t.stops| :: StopOk(t, t.stops[m])
    ensures forall k | 0 <= k < |t.reaps| :: ReapOk(t.sh.row, t.reaps[k])
  {
    forall m | 0 <= m < |s.stops|
      ensures s.stops[m].pc.Accepted? && t.sh.winner.Some? ==> Ears(t.workers[t.sh.winner.value], s.stops[m])
    {
      assert StopOk(s, s.stops[m]);
    }
    OthersSurvive(s, t);
    forall m | 0 <= m < |t.stops|
      ensures StopOk(t, t.stops[m])
    {
      if m != j {
        assert t.stops[m] == s.stops[m];
      }
    }
  }

  lemma OperatorAsks(s: State, j: nat, at: int)
    requires Inv(s) && j < |s.stops| && CanOperate(s.stops[j]) && s.stops[j].pc.Asking?
    ensures Inv(OperatedBy(s, j, at))
    ensures OperatedBy(s, j, at).sh.row == s.sh.row
  {
    var t := OperatedBy(s, j, at);
    assert StopMoved(s, t, j);
    OthersAfterStop(s, t, j);
    if SomebodyPassedGuard(s.sh.row, s.stops) {
      GuardSurvives(s.sh.row, t.sh.row, s.stops, t.stops);
    }
  }

  lemma OperatorCancels(s: State, j: nat, at: int)
    requires Inv(s) && j < |s.stops| && CanOperate(s.stops[j]) && s.stops[j].pc.CancelRow?
    ensures Inv(OperatedBy(s, j, at))
    ensures Evolves(s.sh.row, OperatedBy(s, j, at).sh.row)
  {
    var t := OperatedBy(s, j, at);
    assert StopOk(s, s.stops[j]);
    assert StopMoved(s, t, j);
    assert PassedGuard(t.sh.row, t.stops[j]);
    OthersAfterStop(s, t, j);
  }

  lemma RecordedRow(row: Row, requestedBy: string, at: int)
    requires Coherent(row)
    ensures Coherent(AbortRecorded(row, requestedBy, at)) && Foreign(row, AbortRecorded(row, requestedBy, at))
  {
  }

  lemma OperatorRecords(s: State, j: nat, at: int)
    requires Inv(s) && j < |s.stops| && CanOperate(s.stops[j]) && s.stops[j].pc.RecordRequest?
    ensures Inv(OperatedBy(s, j, at))
    ensures Evolves(s.sh.row, OperatedBy(s, j, at).sh.row)
  {
    var t := OperatedBy(s, j, at);
    RecordedRow(s.sh.row, s.stops[j].username, at);
    assert StopOk(s, s.stops[j]);
    assert StopMoved(s, t, j);
    assert PassedGuard(t.sh.row, t.stops[j]);
    WorkersUntouched(s, t);
    OthersAfterStop(s, t, j);
  }

  /** Published before the second read, a stop is in the row; published after it, it is in the inbox. */
  lemma OperatorPublishes(s: State, j: nat, at: int)
    requires Inv(s) && j < |s.stops| && CanOperate(s.stops[j]) && s.stops[j].pc.Publish?
    ensures Inv(OperatedBy(s, j, at))
    ensures OperatedBy(s, j, at).sh == s.sh
  {
    var t := OperatedBy(s, j, at);
    assert StopOk(s, s.stops[j]);
    forall k | 0 <= k < |t.workers|
      ensures t.workers[k] == Reached(s.workers[k])
      ensures t.sh.winner != Some(k) ==> Bystander(t.workers[k])
    {
      assert t.sh.winner != Some(k) ==> Bystander(s.workers[k]);
    }
    if s.sh.winner.Some? {
      WinnerIsReached(s.sh.row, s.workers[s.sh.winner.value], s.graces);
      assert Ears(t.workers[s.sh.winner.value], t.stops[j]);
    }
    assert PassedGuard(t.sh.row, t.stops[j]);
    OthersAfterStop(s, t, j);
  }

  lemma Operated(s: State, j: nat, at: int)
    requires Inv(s) && j < |s.stops| && CanOperate(s.stops[j])
    ensures Inv(OperatedBy(s, j, at))
    ensures Evolves(s.sh.row, OperatedBy(s, j, at).sh.row)
  {
    match s.stops[j].pc {
      case Asking => OperatorAsks(s, j, at);
      case CancelRow => OperatorCancels(s, j, at);
      case RecordRequest => OperatorRecords(s, j, at);
      case Publish => OperatorPublishes(s, j, at);
      case _ =>
    }
  }

  // ---------------------------------------------------------------- every step, every run

  lemma WorkIsSafe(s: State, i: nat, c: Chance)
    requires Inv(s) && i < |s.workers| && CanWork(s.workers[i])
    ensures Inv(Worked(s, i, c))
    ensures Evolves(s.sh.row, Worked(s, i, c).sh.row)
  {
    if s.sh.winner == Some(i) {
      WinnerSteps(s, i, c);
    } else {
      BystanderWorks(s, i, c);
    }
  }

  lemma ThrowIsSafe(s: State, i: nat)
    requires Inv(s) && i < |s.workers| && CanThrow(s.workers[i].pc)
    ensures Inv(Thrown(s, i))
    ensures Evolves(s.sh.row, Thrown(s, i).sh.row)
  {
    if s.sh.winner == Some(i) {
      WinnerExcepts(s, i);
    } else {
      BystanderThrows(s, i);
    }
  }

  predicate WorkersOwnStep(step: Step) {
    step.Work? || step.Throw? || step.Escalate?
  }

  predicate ControlPlaneStep(step: Step) {
    step.Operate? || step.Judge?
  }

  predicate ArrivalStep(step: Step) {
    step.Enqueue? || step.Renew? || step.ClaimExpires? || step.Press? || step.Look?
  }

  lemma WorkersKeepInv(s: State, step: Step)
    requires Inv(s) && Enabled(s, step) && WorkersOwnStep(step)
    ensures Inv(Next(s, step)) && Evolves(s.sh.row, Next(s, step).sh.row)
  {
    match step {
      case Work(i, c) => WorkIsSafe(s, i, c);
      case Throw(i) => ThrowIsSafe(s, i);
      case Escalate(i, ok) => Escalation(s, i, ok);
    }
  }

  lemma ControlPlaneKeepsInv(s: State, step: Step)
    requires Inv(s) && Enabled(s, step) && ControlPlaneStep(step)
    ensures Inv(Next(s, step)) && Evolves(s.sh.row, Next(s, step).sh.row)
  {
    match step {
      case Operate(j, at) => Operated(s, j, at);
      case Judge(k, now) => Judged(s, k, now);
    }
  }

  lemma ArrivalsKeepInv(s: State, step: Step)
    requires Inv(s) && Enabled(s, step) && ArrivalStep(step)
    ensures Inv(Next(s, step)) && Next(s, step).sh.row == s.sh.row
  {
    if step.Press? {
      PressedIsSafe(s, Stop(step.username, step.areaIds, step.confirmation, Asking, false));
    } else if step.Look? {
      LookingIsSafe(s);
    } else {
      QueueAndClaim(s, Next(s, step));
    }
  }

  lemma StepKeepsInv(s: State, step: Step)
    requires Inv(s) && Enabled(s, step)
    ensures Inv(Next(s, step))
    ensures Evolves(s.sh.row, Next(s, step).sh.row)
  {
    if WorkersOwnStep(step) {
      WorkersKeepInv(s, step);
    } else if ControlPlaneStep(step) {
      ControlPlaneKeepsInv(s, step);
    } else if ArrivalStep(step) {
      ArrivalsKeepInv(s, step);
    } else if step.Pop? {
      PoppedIsSafe(s, step.name);
    } else {
      BefallenIsSafe(s, step.i, step.event);
    }
  }

  lemma {:induction false} RunKeepsInv(s: State, steps: seq<Step>, t: State)
    requires Inv(s) && Leads(s, steps, t)
    ensures Inv(t)
    ensures Evolves(s.sh.row, t.sh.row)
    decreases |steps|
  {
    if steps != [] {
      StepKeepsInv(s, steps[0]);
      RunKeepsInv(Next(s, steps[0]), steps[1..], t);
      EvolvesTransitively(s.sh.row, Next(s, steps[0]).sh.row, t.sh.row);
    }
  }

  lemma ReachableIsInv(s: State)
    requires Reachable(s)
    ensures Inv(s)
  {
    var first: State, steps: seq<Step> :| Init(first) && Leads(first, steps, s);
    assert Inv(first);
    RunKeepsInv(first, steps, s);
  }
}
