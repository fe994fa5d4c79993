/** What the record says about how a run went, against what happened to it: step by step, over whole runs. */
module RunOutcomes {
  import opened Options
  import opened RunRecord
  import opened StagedAborts
  import opened RunProtocol
  import opened RunInvariants
  import opened RunSafety
  import opened RunEffects
  import opened RunTheorems
  import opened RunStages

  // ---------------------------------------------------------------- a recorded stage was delivered

  /** The worker knows the stage as reached, or has decided so. */
  predicate Claims(w: Worker, stage: AbortStage) {
    || w.hold.abort.reached == Some(stage)
    || (w.hold.outcome.Some? && w.hold.outcome.value.stage == Some(stage))
  }

  predicate Mentions(s: State, stage: AbortStage) {
    || s.sh.row.abortStage == Some(stage)
    || (s.sh.winner.Some? && s.sh.winner.value < |s.workers| && Claims(s.workers[s.sh.winner.value], stage))
  }

  lemma WorkDecides(row: Row, w: Worker, c: Chance)
    requires CanWork(w)
    ensures var outcome := HoldAfter(row, w, c).outcome;
            || outcome == w.hold.outcome
            || (w.pc.Decide? && outcome == Some(Decided(w.hold.channel, w.hold.abort)))
  {
    if w.pc.SecondStopRead? {
      assert HoldAfter(row, w, c) == LookedAgain(w.hold, ReadStop(row, c.ok));
    }
  }

  lemma WorkClaimsNothingNew(row: Row, w: Worker, c: Chance, stage: AbortStage)
    requires CanWork(w) && Claims(w.(hold := HoldAfter(row, w, c)), stage)
    ensures Claims(w, stage)
  {
    WorkRequests(row, w, c);
    WorkDecides(row, w, c);
  }

  /** The signal of this stage was on its way, and the answer says that it was delivered. */
  predicate Delivers(w: Worker, effect: Effect, stage: AbortStage) {
    effect == Escalates(true) && w.hold.abort.phase == Signalling(stage)
  }

  lemma EventsClaimNothingNew(w: Worker, event: Happening, stage: AbortStage)
    requires CanBefall(w, event) && Claims(Befallen(w, event), stage)
    ensures Claims(w, stage)
  {
    match event {
      case Death =>
      case Confirmation =>
      case Message =>
      case Closing(code, signalled) =>
      case ExitShows =>
    }
  }

  lemma NewClaimsAreDelivered(w: Worker, effect: Effect, graces: Graces, stage: AbortStage)
    requires CanUndergo(w, effect, graces)
    requires !Claims(w, stage) && Claims(Undergone(w, effect, graces), stage)
    ensures Delivers(w, effect, stage)
  {
    match effect {
      case Catches => ExceptionsTouchHistoryOnly(w);
      case Suffers(event) => EventsClaimNothingNew(w, event, stage);
      case _ =>
    }
  }

  lemma StepClaims(s: State, step: Step, i: nat, stage: AbortStage)
    requires Enabled(s, step) && i < |s.workers| && !Claims(s.workers[i], stage)
    ensures i < |Next(s, step).workers|
    ensures Claims(Next(s, step).workers[i], stage)
            ==> step == Escalate(i, true) && s.workers[i].hold.abort.phase == Signalling(stage)
  {
    StepsHaveEffects(s, step, i);
    EscalationsByStep(s, step, i);
    if Claims(Next(s, step).workers[i], stage) {
      if WorksOn(step, i) {
        WorkClaimsNothingNew(s.sh.row, s.workers[i], step.chance, stage);
      } else {
        NewClaimsAreDelivered(s.workers[i], EffectOn(s, step, i), s.graces, stage);
      }
    }
  }

  lemma EscalationsByStep(s: State, step: Step, i: nat)
    requires Enabled(s, step) && i < |s.workers|
    ensures EffectOn(s, step, i) == Escalates(true) <==> step == Escalate(i, true)
  {
  }

  /** A stage gets into the row only from the worker that holds the run. */
  lemma RowMentionsWhatTheWinnerClaims(s: State, step: Step, stage: AbortStage)
    requires Inv(s) && Enabled(s, step) && s.sh.row.abortStage != Some(stage)
    requires Next(s, step).sh.row.abortStage == Some(stage)
    ensures s.sh.winner.Some? && s.sh.winner.value < |s.workers| && Claims(s.workers[s.sh.winner.value], stage)
  {
    if step.Work? {
      WorkWritesTheStage(s.sh.row, s.workers[step.i], step.chance);
      assert s.sh.winner != Some(step.i) ==> Bystander(s.workers[step.i]);
    } else if step.Escalate? {
      OnlyTheWinnerEscalates(s, step.i, step.ok);
      ReportedRow(s.sh.row, s.workers[step.i].hold.abort, step.ok);
      assert Consistent(s.workers[step.i].hold, s.graces);
    } else {
      NothingElseWritesTheStage(s, step);
    }
  }

  lemma NewWinnersClaimNothing(s: State, step: Step)
    requires Inv(s) && Enabled(s, step) && Next(s, step).sh.winner != s.sh.winner
    ensures Next(s, step).sh.winner.Some? && Next(s, step).sh.winner.value < |Next(s, step).workers|
    ensures Next(s, step).workers[Next(s, step).sh.winner.value].hold == NOTHING_HELD
  {
    assert Bystander(s.workers[step.i]);
  }

  lemma MentionNeedsASignal(s: State, step: Step, stage: AbortStage)
    requires Inv(s) && Enabled(s, step) && !Mentions(s, stage) && Mentions(Next(s, step), stage)
    ensures s.sh.winner.Some? && s.sh.winner.value < |s.workers| && step == Escalate(s.sh.winner.value, true)
    ensures s.workers[s.sh.winner.value].hold.abort.phase == Signalling(stage)
  {
    if Next(s, step).sh.row.abortStage == Some(stage) {
      RowMentionsWhatTheWinnerClaims(s, step, stage);
    } else if Next(s, step).sh.winner != s.sh.winner {
      NewWinnersClaimNothing(s, step);
    } else {
      StepClaims(s, step, s.sh.winner.value, stage);
    }
  }

  /** In the run, a signal of this stage to the script of worker `i` was answered as delivered. */
  ghost predicate SignalDelivered(s: State, steps: seq<Step>, i: nat, stage: AbortStage) {
    exists before: seq<Step>, m: State, after: seq<Step> ::
      && steps == before + [Escalate(i, true)] + after
      && Leads(s, before, m)
      && i < |m.workers| && m.workers[i].hold.abort.phase == Signalling(stage)
  }

  /** Behind every stage that the row or the worker knows is the delivery of that very signal. */
  lemma EveryStageWasDelivered(first: State, steps: seq<Step>, t: State, stage: AbortStage) returns (i: nat)
    requires Init(first) && Leads(first, steps, t) && Mentions(t, stage)
    ensures SignalDelivered(first, steps, i, stage) && t.sh.winner == Some(i)
  {
    var before, m, step, after := TheMoment(x => Mentions(x, stage), first, steps, t);
    assert Inv(first);
    RunKeepsInv(first, before, m);
    MentionNeedsASignal(m, step, stage);
    i := m.sh.winner.value;
    WinnerStaysFrom(m, step, after, t);
  }

  lemma WinnerStaysFrom(m: State, step: Step, after: seq<Step>, t: State)
    requires Inv(m) && m.sh.winner.Some? && Enabled(m, step) && Leads(Next(m, step), after, t)
    ensures t.sh.winner == m.sh.winner
  {
    OneStepFirst(m, step, after, t);
    WinnersStay(m, [step] + after, t);
  }

  lemma {:induction false} WinnersStay(s: State, steps: seq<Step>, t: State)
    requires Inv(s) && s.sh.winner.Some? && Leads(s, steps, t)
    ensures t.sh.winner == s.sh.winner
    decreases |steps|
  {
    if steps != [] {
      AClaimedRunHasNoNewWinner(s, steps[0]);
      StepKeepsInv(s, steps[0]);
      WinnersStay(Next(s, steps[0]), steps[1..], t);
    }
  }

  /**
   * A run is `aborted` only because an operator entitled to its area, who named the script where that is asked for,
   * stopped it; and if the script was ever started, the signal of the stage on record was delivered to it.
   */
  lemma AbortedIsTruthful(first: State, steps: seq<Step>, t: State)
    requires Init(first) && Leads(first, steps, t) && t.sh.row.status.Aborted?
    ensures SomebodyPassedGuard(t.sh.row, t.stops)
    ensures if t.sh.row.abortStage.None? then StartCalls(first, steps) == 0
            else t.sh.winner.Some? && SignalDelivered(first, steps, t.sh.winner.value, t.sh.row.abortStage.value)
  {
    assert Inv(first);
    RunKeepsInv(first, steps, t);
    StartsCountTheCalls(first, steps, t);
    if t.sh.row.abortStage.Some? {
      var i := EveryStageWasDelivered(first, steps, t, t.sh.row.abortStage.value);
    }
  }

  // ---------------------------------------------------------------- an outcome is what the channel said

  ghost predicate ClosedWith(s: State, i: nat, code: Option<int>, signalled: bool) {
    i < |s.workers| && s.workers[i].hold.channel == Closed(code, signalled)
  }

  lemma WorkNeverCloses(row: Row, w: Worker, c: Chance)
    requires CanWork(w) && HoldAfter(row, w, c).channel.Closed?
    ensures HoldAfter(row, w, c).channel == w.hold.channel
  {
    if !w.pc.StartScript? {
      WorkKeepsTheChannel(row, w, c);
    }
  }

  lemma OnlyAClosingCloses(w: Worker, effect: Effect, graces: Graces)
    requires CanUndergo(w, effect, graces) && Undergone(w, effect, graces).hold.channel.Closed?
    ensures var channel := Undergone(w, effect, graces).hold.channel;
            channel == w.hold.channel || effect == Suffers(Closing(channel.code, channel.signalled))
  {
    match effect {
      case Catches => ExceptionsTouchHistoryOnly(w);
      case Suffers(event) => EventsOnTheChannel(w, event);
      case _ =>
    }
  }

  lemma EventsOnTheChannel(w: Worker, event: Happening)
    requires CanBefall(w, event)
    ensures Befallen(w, event).hold.channel
         == if event.Closing? then Closed(event.code, event.signalled) else w.hold.channel
  {
    match event {
      case Death =>
      case Confirmation =>
      case Message =>
      case Closing(code, signalled) =>
      case ExitShows =>
    }
  }

  lemma ClosingsByStep(s: State, step: Step, i: nat, code: Option<int>, signalled: bool)
    requires Enabled(s, step) && i < |s.workers|
    ensures EffectOn(s, step, i) == Suffers(Closing(code, signalled)) <==> step == Befall(i, Closing(code, signalled))
  {
  }

  lemma StepCloses(s: State, step: Step, i: nat, code: Option<int>, signalled: bool)
    requires Enabled(s, step) && !ClosedWith(s, i, code, signalled) && ClosedWith(Next(s, step), i, code, signalled)
    ensures step == Befall(i, Closing(code, signalled))
  {
    if i < |s.workers| {
      StepsHaveEffects(s, step, i);
      ClosingsByStep(s, step, i, code, signalled);
      if WorksOn(step, i) {
        WorkNeverCloses(s.sh.row, s.workers[i], step.chance);
      } else {
        OnlyAClosingCloses(s.workers[i], EffectOn(s, step, i), s.graces);
      }
    } else {
      NewcomersAreFresh(s, step);
    }
  }

  /** A closed channel says what it closed with. */
  lemma ChannelHadItsClosing(first: State, steps: seq<Step>, t: State, i: nat)
    requires Init(first) && Leads(first, steps, t) && i < |t.workers| && t.workers[i].hold.channel.Closed?
    ensures var channel := t.workers[i].hold.channel; Befall(i, Closing(channel.code, channel.signalled)) in steps
  {
    var channel := t.workers[i].hold.channel;
    var before, m, step, after :=
      TheMoment(x => ClosedWith(x, i, channel.code, channel.signalled), first, steps, t);
    StepCloses(m, step, i, channel.code, channel.signalled);
  }

  /** The end the channel told of, without a stage that was reached: by its code, and by whether a signal closed it. */
  predicate TellsTheExit(outcome: Outcome, code: Option<int>, signalled: bool) {
    && outcome.code == code
    && (outcome.stage.Some? <==> outcome.status.Aborted?)
    && (outcome.stage.Some? ==> outcome.reason == Some(AbortedByUser))
    && (outcome.stage.None? ==>
          && (outcome.status.Succeeded? <==> code == Some(0))
          && (outcome.status.Failed? <==> code != Some(0))
          && (outcome.reason.None? <==> code == Some(0))
          && (outcome.reason == Some(ConnectionLost) <==> code != Some(0) && signalled)
          && (outcome.reason == Some(ExitCode) <==> code != Some(0) && !signalled))
  }

  lemma DecisionsTellTheExit(h: Hold, graces: Graces)
    requires Consistent(h, graces) && h.outcome.Some?
    ensures h.channel.Closed? && TellsTheExit(h.outcome.value, h.channel.code, h.channel.signalled)
  {
  }

  /** What was decided about a run is what its channel closed with and which stage was delivered, in every run. */
  lemma OutcomeTellsTheExit(first: State, steps: seq<Step>, t: State, i: nat)
    requires Init(first) && Leads(first, steps, t) && t.sh.winner == Some(i) && i < |t.workers|
    requires t.workers[i].hold.outcome.Some?
    ensures var outcome := t.workers[i].hold.outcome.value;
            && (exists signalled: bool ::
                  && Befall(i, Closing(outcome.code, signalled)) in steps
                  && TellsTheExit(outcome, outcome.code, signalled))
            && (outcome.stage.Some? ==> SignalDelivered(first, steps, i, outcome.stage.value))
  {
    assert Inv(first);
    RunKeepsInv(first, steps, t);
    DecisionsTellTheExit(t.workers[i].hold, t.graces);
    ChannelHadItsClosing(first, steps, t, i);
    if t.workers[i].hold.outcome.value.stage.Some? {
      var k := EveryStageWasDelivered(first, steps, t, t.workers[i].hold.outcome.value.stage.value);
    }
  }

  /** The write of the outcome puts exactly that into a row that is still open, and leaves one that is over alone. */
  lemma OutcomeIsWritten(s: State, i: nat, c: Chance)
    requires i < |s.workers| && s.workers[i].pc.WriteOutcome? && CanWork(s.workers[i])
    ensures var outcome, before, after := s.workers[i].hold.outcome.value, s.sh.row, Next(s, Work(i, c)).sh.row;
            if StillOpen(before) then
              && after.status == outcome.status
              && after.exitCode == outcome.code
              && after.failureReason == outcome.reason
              && after.abortStage == outcome.stage
              && after.finishedAt == Some(c.at)
              && after.collectedAt == before.collectedAt && after.resultCount == before.resultCount
              && after.startedAt == before.startedAt && after.workerId == before.workerId
              && after.abortRequestedAt == before.abortRequestedAt
              && after.abortRequestedBy == before.abortRequestedBy
            else after == before
  {
  }

  // ---------------------------------------------------------------- which reason each way into `fail` writes

  /**
   * A worker gets to `fail` before it drives the run, when the script is gone or the host is out of reach; from inside,
   * when the script's file is gone; from the catch block; or as a last resort. The reason tells which.
   */
  lemma ReasonsOfFailing(s: State, step: Step, i: nat)
    requires Enabled(s, step) && i < |s.workers| && i < |Next(s, step).workers|
    requires Next(s, step).workers[i].pc.FailRow? && Next(s, step).workers[i].pc != s.workers[i].pc
    ensures var was, now := s.workers[i].pc, Next(s, step).workers[i].pc;
            match now.scope
            case BeforeDriving =>
              || (step == Throw(i) && was.Connect? && now.reason == ConnectFailed)
              || (WorksOn(step, i) && !step.chance.ok && was.FindScript? && now.reason == StartFailed)
            case InsideDrive => WorksOn(step, i) && !step.chance.ok && was.StatScript? && now.reason == StartFailed
            case FromCatch => now.reason == ConnectionLost && (step == Throw(i) || was == Unwire(true))
            case LastResort => now.reason == StartFailed && (step == Throw(i) || was == Cleanup(true))
  {
    StepsHaveEffects(s, step, i);
    if WorksOn(step, i) {
      WaysOfWork(s.sh, s.workers[i], step.chance);
    } else {
      WaysOfExceptions(s.workers[i], EffectOn(s, step, i), s.graces);
      EffectsByThrow(s, step, i);
    }
  }

  lemma EffectsByThrow(s: State, step: Step, i: nat)
    requires Enabled(s, step) && i < |s.workers|
    ensures EffectOn(s, step, i).Catches? <==> step == Throw(i)
  {
  }

  lemma WaysOfWork(sh: Shared, w: Worker, c: Chance)
    requires CanWork(w) && PcAfter(sh, w.pc, c).FailRow?
    ensures var now := PcAfter(sh, w.pc, c);
            || (w.pc.FindScript? && !c.ok && now == FailRow(StartFailed, BeforeDriving))
            || (w.pc.StatScript? && !c.ok && now == FailRow(StartFailed, InsideDrive))
            || (w.pc == Unwire(true) && now == FailRow(ConnectionLost, FromCatch))
            || (w.pc == Cleanup(true) && now == FailRow(StartFailed, LastResort))
  {
  }

  lemma WaysOfExceptions(w: Worker, effect: Effect, graces: Graces)
    requires CanUndergo(w, effect, graces) && Undergone(w, effect, graces).pc.FailRow?
    requires Undergone(w, effect, graces).pc != w.pc
    ensures effect.Catches?
    ensures var now := Undergone(w, effect, graces).pc;
            || (w.pc.Connect? && now == FailRow(ConnectFailed, BeforeDriving))
            || now == FailRow(ConnectionLost, FromCatch)
            || now == FailRow(StartFailed, LastResort)
  {
    match effect {
      case Catches => WaysOfHandlers(w.pc);
      case _ =>
    }
  }

  lemma WaysOfHandlers(pc: Pc)
    requires CanThrow(pc) && Handler(pc).FailRow?
    ensures var now := Handler(pc);
            || (pc.Connect? && now == FailRow(ConnectFailed, BeforeDriving))
            || now == FailRow(ConnectionLost, FromCatch)
            || now == FailRow(StartFailed, LastResort)
  {
  }

  /** The write of `fail` puts its reason into a row that is not over, ends the collection with it, and nothing else. */
  lemma FailureIsWritten(s: State, i: nat, c: Chance)
    requires i < |s.workers| && s.workers[i].pc.FailRow?
    ensures Enabled(s, Work(i, c))
    ensures var before, after := s.sh.row, Next(s, Work(i, c)).sh.row;
            if IsTerminal(before.status) then after == before
            else
              && after.status.Failed?
              && after.failureReason == Some(s.workers[i].pc.reason)
              && after.finishedAt == Some(c.at) && after.collectedAt == Some(c.at)
              && after.exitCode == before.exitCode && after.abortStage == before.abortStage
              && after.startedAt == before.startedAt && after.workerId == before.workerId
  {
  }

  // ---------------------------------------------------------------- what a finished row can be trusted with

  /** A row that says `succeeded` has a channel behind it that was closed with the code 0. */
  lemma SuccessIsTrue(first: State, steps: seq<Step>, t: State)
    requires Init(first) && Leads(first, steps, t) && t.sh.row.status.Succeeded?
    ensures exists i: nat, signalled: bool :: Befall(i, Closing(Some(0), signalled)) in steps
  {
    assert Inv(first);
    RunKeepsInv(first, steps, t);
    var i := t.sh.winner.value;
    DecisionsTellTheExit(t.workers[i].hold, t.graces);
    ChannelHadItsClosing(first, steps, t, i);
    assert Befall(i, Closing(Some(0), t.workers[i].hold.channel.signalled)) in steps;
  }

  // ---------------------------------------------------------------- who, and since when

  /** The row names the worker that holds the run, from the claim on, and a running run has its time of start. */
  ghost predicate Named(s: State) {
    && (s.sh.winner.None? ==> s.sh.row.workerId.None?)
    && (s.sh.winner.Some? ==>
          s.sh.winner.value < |s.workers| && s.sh.row.workerId == Some(s.workers[s.sh.winner.value].name))
    && (s.sh.row.status.Running? ==> s.sh.row.startedAt.Some?)
  }

  lemma NamesStay(s: State, step: Step, i: nat)
    requires Enabled(s, step) && i < |s.workers|
    ensures i < |Next(s, step).workers| && Next(s, step).workers[i].name == s.workers[i].name
  {
    StepsHaveEffects(s, step, i);
    EffectsKeepTheName(s.workers[i], EffectOn(s, step, i), s.graces, WorksOn(step, i));
  }

  lemma EffectsKeepTheName(w: Worker, effect: Effect, graces: Graces, works: bool)
    requires !works ==> CanUndergo(w, effect, graces)
    ensures !works ==> Undergone(w, effect, graces).name == w.name
  {
    if !works {
      match effect {
        case Suffers(event) =>
        case _ =>
      }
    }
  }

  /** Only the claim that lands writes a name, and only the start's mark makes a run running. */
  lemma WritersOfNames(row: Row, w: Worker, c: Chance)
    requires CanWork(w)
    ensures RowAfterWork(row, w, c).workerId
         == if w.pc.ClaimRow? && row.status.Queued? then Some(w.name) else row.workerId
    ensures RowAfterWork(row, w, c).startedAt
         == if w.pc.MarkRunning? && row.status.Starting? then Some(c.at) else row.startedAt
    ensures RowAfterWork(row, w, c).status.Running? && !row.status.Running?
            ==> || (w.pc.MarkRunning? && row.status.Starting?)
                || (w.pc.WriteOutcome? && w.hold.outcome.value.status.Running?)
  {
  }

  lemma NobodyElseWritesNames(s: State, step: Step)
    requires Enabled(s, step) && !step.Work?
    ensures var after := Next(s, step);
            && after.sh.row.workerId == s.sh.row.workerId && after.sh.row.startedAt == s.sh.row.startedAt
            && after.sh.winner == s.sh.winner && (after.sh.row.status.Running? ==> s.sh.row.status.Running?)
  {
  }

  lemma StepKeepsNames(s: State, step: Step)
    requires Inv(s) && Named(s) && Enabled(s, step)
    ensures Named(Next(s, step))
  {
    if s.sh.winner.Some? {
      NamesStay(s, step, s.sh.winner.value);
    }
    if step.Work? {
      WritersOfNames(s.sh.row, s.workers[step.i], step.chance);
      NamesStay(s, step, step.i);
      OutcomesAreOver(s, step.i);
    } else {
      NobodyElseWritesNames(s, step);
    }
  }

  lemma OutcomesAreOver(s: State, i: nat)
    requires Inv(s) && i < |s.workers|
    ensures s.workers[i].hold.outcome.Some? ==> IsTerminal(s.workers[i].hold.outcome.value.status)
  {
    assert s.sh.winner != Some(i) ==> Bystander(s.workers[i]);
  }

  lemma {:induction false} RunKeepsNames(s: State, steps: seq<Step>, t: State)
    requires Inv(s) && Named(s) && Leads(s, steps, t)
    ensures Named(t)
    decreases |steps|
  {
    if steps != [] {
      StepKeepsNames(s, steps[0]);
      StepKeepsInv(s, steps[0]);
      RunKeepsNames(Next(s, steps[0]), steps[1..], t);
    }
  }

  /** In every reachable state the row names the one worker whose claim landed. */
  lemma RowNamesItsWorker(s: State)
    requires Reachable(s)
    ensures Named(s)
  {
    var first: State, steps: seq<Step> :| Init(first) && Leads(first, steps, s);
    RunKeepsNames(first, steps, s);
  }

  /** The worker `i` marked the run as running, and its clock said `at`. */
  ghost predicate MarkedAt(first: State, steps: seq<Step>, i: nat, at: int) {
    exists before: seq<Step>, m: State, c: Chance, after: seq<Step> ::
      && steps == before + [Work(i, c)] + after
      && Leads(first, before, m)
      && i < |m.workers| && m.workers[i].pc.MarkRunning? && m.sh.row.status.Starting? && c.at == at
  }

  /** A time of start is the clock of the worker that marked the run as running, when it did. */
  lemma StartedAtIsTheMark(first: State, steps: seq<Step>, t: State) returns (i: nat)
    requires Init(first) && Leads(first, steps, t) && t.sh.row.startedAt.Some?
    ensures MarkedAt(first, steps, i, t.sh.row.startedAt.value)
  {
    var before, m, step, after := TheMoment((x: State) => x.sh.row.startedAt == t.sh.row.startedAt, first, steps, t);
    if step.Work? {
      i := step.i;
      WritersOfNames(m.sh.row, m.workers[i], step.chance);
      assert step == Work(i, step.chance);
    } else {
      NobodyElseWritesNames(m, step);
    }
  }
}
