/** What one step of the system does to one of its workers: its own next await, or something that befalls it. */
module RunEffects {
  import opened RunRecord
  import opened StagedAborts
  import opened RunProtocol

  predicate WorksOn(step: Step, i: nat) {
    step.Work? && step.i == i
  }

  /** Everything but its own next await resolving that a step can do to a worker. */
  datatype Effect = Untouched | Catches | Suffers(event: Happening) | Escalates(ok: bool) | IsTold

  function EffectOn(s: State, step: Step, i: nat): Effect
    requires Enabled(s, step)
  {
    match step
    case Throw(k) => if k == i then Catches else Untouched
    case Befall(k, event) => if k == i then Suffers(event) else Untouched
    case Escalate(k, ok) => if k == i then Escalates(ok) else Untouched
    case Operate(j, _) => if s.stops[j].pc.Publish? then IsTold else Untouched
    case _ => Untouched
  }

  predicate CanUndergo(w: Worker, effect: Effect, graces: Graces) {
    match effect
    case Catches => CanThrow(w.pc)
    case Suffers(event) => CanBefall(w, event)
    case Escalates(ok) => CanEscalate(w.hold.abort, graces, ok)
    case _ => true
  }

  function Undergone(w: Worker, effect: Effect, graces: Graces): Worker
    requires CanUndergo(w, effect, graces)
  {
    match effect
    case Untouched => w
    case Catches => Threw(w)
    case Suffers(event) => Befallen(w, event)
    case Escalates(ok) => w.(hold := w.hold.(abort := Escalated(w.hold.abort, graces, ok)))
    case IsTold => Reached(w)
  }

  lemma StepsHaveEffects(s: State, step: Step, i: nat)
    requires Enabled(s, step) && i < |s.workers|
    ensures i < |Next(s, step).workers|
    ensures WorksOn(step, i) ==> Next(s, step).workers[i] == WorkerAfter(s.sh, s.workers[i], step.chance)
    ensures !WorksOn(step, i) ==>
              && CanUndergo(s.workers[i], EffectOn(s, step, i), s.graces)
              && Next(s, step).workers[i] == Undergone(s.workers[i], EffectOn(s, step, i), s.graces)
  {
    if step.Work? || step.Throw? || step.Befall? || step.Escalate? {
      assert step.i != i ==> Next(s, step).workers[i] == s.workers[i];
    } else if step.Operate? {
      assert s.stops[step.j].pc.Publish? ==> Next(s, step).workers[i] == Reached(s.workers[i]);
    }
  }

  lemma NewcomersAreFresh(s: State, step: Step)
    requires Enabled(s, step)
    ensures |Next(s, step).workers| <= |s.workers| + 1
    ensures |Next(s, step).workers| > |s.workers|
            ==> var newcomer := Next(s, step).workers[|s.workers|];
                newcomer.hold == NOTHING_HELD && newcomer.pc.SetClaim?
  {
  }

  // ---------------------------------------------------------------- the two looks

  lemma WorkLooks(row: Row, w: Worker, c: Chance)
    requires CanWork(w)
    ensures HoldAfter(row, w, c).firstRead == if w.pc.FirstStopRead? then ReadStop(row, c.ok) else w.hold.firstRead
    ensures HoldAfter(row, w, c).secondRead == if w.pc.SecondStopRead? then ReadStop(row, c.ok) else w.hold.secondRead
  {
    if !w.pc.FirstStopRead? && !w.pc.SecondStopRead? {
      assert HoldAfter(row, w, c).firstRead == w.hold.firstRead;
    }
  }

  lemma ExceptionsTouchHistoryOnly(w: Worker)
    requires CanThrow(w.pc)
    ensures var h := Threw(w).hold;
            h == w.hold.(startCalled := h.startCalled, unwound := h.unwound, failRejected := h.failRejected)
  {
  }

  lemma EventsLeaveTheLooks(w: Worker, event: Happening)
    requires CanBefall(w, event)
    ensures Befallen(w, event).hold.firstRead == w.hold.firstRead
            && Befallen(w, event).hold.secondRead == w.hold.secondRead
  {
    match event {
      case Death =>
      case Confirmation =>
      case Message =>
      case Closing(code, signalled) =>
      case ExitShows =>
    }
  }

  lemma NothingElseLooks(w: Worker, effect: Effect, graces: Graces)
    requires CanUndergo(w, effect, graces)
    ensures Undergone(w, effect, graces).hold.firstRead == w.hold.firstRead
    ensures Undergone(w, effect, graces).hold.secondRead == w.hold.secondRead
  {
    match effect {
      case Catches => ExceptionsTouchHistoryOnly(w);
      case Suffers(event) => EventsLeaveTheLooks(w, event);
      case _ =>
    }
  }

  /** Nobody looks past a request that is in the row. */
  lemma NoLookPast(s: State, step: Step, i: nat)
    requires Enabled(s, step) && i < |s.workers| && s.sh.row.abortRequestedAt.Some?
    ensures i < |Next(s, step).workers|
    ensures Next(s, step).workers[i].hold.firstRead.SawNone? ==> s.workers[i].hold.firstRead.SawNone?
    ensures Next(s, step).workers[i].hold.secondRead.SawNone? ==> s.workers[i].hold.secondRead.SawNone?
  {
    StepsHaveEffects(s, step, i);
    if WorksOn(step, i) {
      WorkLooks(s.sh.row, s.workers[i], step.chance);
    } else {
      NothingElseLooks(s.workers[i], EffectOn(s, step, i), s.graces);
    }
  }

  // ---------------------------------------------------------------- the escalation and the exit

  lemma WorkRequests(row: Row, w: Worker, c: Chance)
    requires CanWork(w)
    ensures var abort := HoldAfter(row, w, c).abort;
            abort == w.hold.abort || (w.pc.SecondStopRead? && abort == Requesting(w.hold.abort))
  {
    if !w.pc.SecondStopRead? {
      assert HoldAfter(row, w, c).abort == w.hold.abort;
    }
  }

  lemma EffectsOnAborts(w: Worker, effect: Effect, graces: Graces)
    requires CanUndergo(w, effect, graces)
    ensures var abort := Undergone(w, effect, graces).hold.abort;
            || abort == w.hold.abort || abort == Requesting(w.hold.abort) || abort == Exiting(w.hold.abort)
            || (effect.Escalates? && abort == Escalated(w.hold.abort, graces, effect.ok))
  {
    match effect {
      case Catches => ExceptionsTouchHistoryOnly(w);
      case _ =>
    }
  }

  /** What becomes of a staged abort in one step, whoever takes it. */
  ghost predicate AbortMoves(before: Abort, after: Abort) {
    && (before.requested ==> after.requested)
    && (before.exited ==> after.exited)
    && (!before.requested && after.requested ==> !before.exited)
    && (before.exited && before.phase.Idle? ==> after == before)
  }

  lemma StepMovesAbort(s: State, step: Step, i: nat)
    requires Enabled(s, step) && i < |s.workers|
    ensures i < |Next(s, step).workers|
    ensures AbortMoves(s.workers[i].hold.abort, Next(s, step).workers[i].hold.abort)
  {
    StepsHaveEffects(s, step, i);
    if WorksOn(step, i) {
      WorkRequests(s.sh.row, s.workers[i], step.chance);
    } else {
      EffectsOnAborts(s.workers[i], EffectOn(s, step, i), s.graces);
    }
  }

  lemma WorkKeepsTheChannel(row: Row, w: Worker, c: Chance)
    requires CanWork(w) && !w.pc.StartScript?
    ensures HoldAfter(row, w, c).channel == w.hold.channel
  {
    if w.pc.SecondStopRead? {
      assert HoldAfter(row, w, c) == LookedAgain(w.hold, ReadStop(row, c.ok));
    }
  }

  lemma EffectsKeepTheChannel(w: Worker, effect: Effect, graces: Graces)
    requires CanUndergo(w, effect, graces) && w.hold.channel.Closed?
    ensures Undergone(w, effect, graces).hold.channel == w.hold.channel
  {
    match effect {
      case Catches => ExceptionsTouchHistoryOnly(w);
      case _ =>
    }
  }

  lemma StepKeepsTheChannel(s: State, step: Step, i: nat)
    requires Enabled(s, step) && i < |s.workers| && s.workers[i].hold.channel.Closed? && !s.workers[i].pc.StartScript?
    ensures i < |Next(s, step).workers|
    ensures Next(s, step).workers[i].hold.channel == s.workers[i].hold.channel
  {
    StepsHaveEffects(s, step, i);
    if WorksOn(step, i) {
      WorkKeepsTheChannel(s.sh.row, s.workers[i], step.chance);
    } else {
      EffectsKeepTheChannel(s.workers[i], EffectOn(s, step, i), s.graces);
    }
  }
}
