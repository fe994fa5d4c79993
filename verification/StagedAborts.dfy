/**
 * The escalation of a stop: SIGINT, SIGTERM, SIGKILL, with a pause between them.
 *
 * `escalate` is a coroutine that other events interleave with at every `await`, so it is modelled as a machine
 * whose phase is the point the coroutine is suspended at. `Escalated` resumes it once.
 */
module StagedAborts {
  import opened Options
  import opened RunRecord

  datatype Phase =
    | Idle                          // no escalation was ever started
    | Checking(stage: AbortStage)   // about to look whether the process is still there
    | Signalling(stage: AbortStage) // the signal is on its way
    | Reporting(stage: AbortStage)  // the signal was delivered; the stage listener is running
    | Pausing(stage: AbortStage)    // the pause after a stage
    | Finished

  /** `attempts` is the history of signals that were sent, whether or not sending them succeeded. */
  datatype Abort = Abort(
    requested: bool,
    reached: Option<AbortStage>,
    exited: bool,
    phase: Phase,
    attempts: seq<AbortStage>
  )

  /** The two configured pauses; the pause after SIGKILL is always zero. */
  datatype Graces = Graces(sigint: nat, sigterm: nat)

  datatype RequestOutcome = Requested | AlreadyRequested | TooLate

  const FRESH := Abort(false, None, false, Idle, [])

  const ALL_STAGES: seq<AbortStage> := [Sigint, Sigterm, Sigkill]

  function GraceAfter(graces: Graces, stage: AbortStage): nat {
    match stage
    case Sigint => graces.sigint
    case Sigterm => graces.sigterm
    case Sigkill => 0
  }

  function OutcomeOfRequest(a: Abort): RequestOutcome {
    if a.exited then TooLate else if a.requested then AlreadyRequested else Requested
  }

  /** `request()`: inert once the process is gone, idempotent while the escalation runs. */
  function Requesting(a: Abort): Abort {
    if OutcomeOfRequest(a).Requested? then a.(requested := true, phase := Checking(Sigint)) else a
  }

  /** The exit of the process becoming visible to this worker. */
  function Exiting(a: Abort): Abort {
    a.(exited := true)
  }

  /**
   * Whether the suspended coroutine can be resumed, and how: `ok` says that the signal was delivered, that the
   * listener returned, or that the pause ran out before the exit was seen.
   */
  predicate CanEscalate(a: Abort, graces: Graces, ok: bool) {
    match a.phase
    case Idle => false
    case Finished => false
    case Pausing(stage) => GraceAfter(graces, stage) == 0 || ok || a.exited
    case _ => true
  }

  function Escalated(a: Abort, graces: Graces, ok: bool): Abort
    requires CanEscalate(a, graces, ok)
  {
    match a.phase
    case Checking(stage) =>
      if a.exited then a.(phase := Finished)
      else a.(phase := Signalling(stage), attempts := a.attempts + [stage])
    case Signalling(stage) =>
      if ok then a.(phase := Reporting(stage), reached := Some(stage)) else a.(phase := Pausing(stage))
    case Reporting(stage) =>
      a.(phase := Pausing(stage))
    case Pausing(stage) =>
      if GraceAfter(graces, stage) == 0 then a.(phase := Finished)
      else if ok then a.(phase := Checking(NextStage(stage)))
      else a.(phase := Finished)
  }

  function NextStage(stage: AbortStage): AbortStage {
    match stage
    case Sigint => Sigterm
    case Sigterm => Sigkill
    case Sigkill => Sigkill
  }

  function Rank(stage: AbortStage): nat {
    StageRank(Some(stage))
  }

  /** What holds at every point of every interleaving. */
  ghost predicate Orderly(a: Abort, graces: Graces) {
    && a.attempts <= ALL_STAGES
    && (a.phase.Idle? <==> !a.requested)
    && (a.reached.Some? ==> Rank(a.reached.value) <= |a.attempts|)
    && (match a.phase
        case Idle => a.attempts == []
        case Checking(stage) => |a.attempts| == Rank(stage) - 1
        case Signalling(stage) => |a.attempts| == Rank(stage) && StageRank(a.reached) < Rank(stage)
        case Reporting(stage) => |a.attempts| == Rank(stage) && a.reached == Some(stage)
        case Pausing(stage) => |a.attempts| == Rank(stage)
        case Finished => a.exited || a.attempts == ALL_STAGES || graces.sigint == 0 || graces.sigterm == 0)
  }

  lemma EscalatedIsOrderly(a: Abort, graces: Graces, ok: bool)
    requires Orderly(a, graces) && CanEscalate(a, graces, ok)
    ensures Orderly(Escalated(a, graces, ok), graces)
  {
    assert forall n: nat | n <= 3 :: ALL_STAGES[..n] <= ALL_STAGES;
    match a.phase {
      case Checking(stage) =>
        var n := |a.attempts|;
        assert a.attempts == ALL_STAGES[..n];
        if !a.exited {
          assert a.attempts + [stage] == ALL_STAGES[..n + 1];
        }
      case _ =>
    }
  }

  // ---------------------------------------------------------------- whole histories

  /** Everything that can happen to one `StagedAbort`, in any order. */
  datatype Event = Request | Exit | Resume(ok: bool)

  predicate CanHappen(a: Abort, graces: Graces, event: Event) {
    event.Resume? ==> CanEscalate(a, graces, event.ok)
  }

  function Happened(a: Abort, graces: Graces, event: Event): Abort
    requires CanHappen(a, graces, event)
  {
    match event
    case Request => Requesting(a)
    case Exit => Exiting(a)
    case Resume(ok) => Escalated(a, graces, ok)
  }

  /** `states` is a history: it starts fresh and each state comes from the one before by the event beside it. */
  ghost predicate History(states: seq<Abort>, graces: Graces, events: seq<Event>) {
    && |states| == |events| + 1
    && states[0] == FRESH
    && forall i | 0 <= i < |events| ::
         CanHappen(states[i], graces, events[i]) && states[i + 1] == Happened(states[i], graces, events[i])
  }

  lemma {:induction false} HistoryIsOrderly(states: seq<Abort>, graces: Graces, events: seq<Event>, i: nat)
    requires History(states, graces, events) && i < |states|
    ensures Orderly(states[i], graces)
  {
    if i > 0 {
      HistoryIsOrderly(states, graces, events, i - 1);
      match events[i - 1] {
        case Request =>
        case Exit =>
        case Resume(ok) => EscalatedIsOrderly(states[i - 1], graces, ok);
      }
    }
  }

  lemma {:induction false} HistoryIsMonotone(states: seq<Abort>, graces: Graces, events: seq<Event>, i: nat, j: nat)
    requires History(states, graces, events) && i <= j < |states|
    ensures states[i].attempts <= states[j].attempts
    ensures StageRank(states[i].reached) <= StageRank(states[j].reached)
    ensures states[i].exited ==> states[j].exited
    ensures states[i].requested ==> states[j].requested
    ensures states[i].exited && !states[i].phase.Signalling?
            ==> states[j].reached == states[i].reached && !states[j].phase.Signalling?
    ensures states[i].exited ==> states[j].attempts == states[i].attempts
  {
    if i < j {
      HistoryIsMonotone(states, graces, events, i, j - 1);
      HistoryIsOrderly(states, graces, events, j - 1);
    }
  }

  /** There is at most one escalation, however often stop is pressed: only one request is ever acted on. */
  lemma OneEscalation(states: seq<Abort>, graces: Graces, events: seq<Event>, i: nat, j: nat)
    requires History(states, graces, events) && i < j < |events|
    requires events[i].Request? && OutcomeOfRequest(states[i]).Requested?
    ensures events[j].Request? ==> !OutcomeOfRequest(states[j]).Requested?
    ensures !states[j].phase.Idle?
  {
    HistoryIsMonotone(states, graces, events, i + 1, j);
    HistoryIsOrderly(states, graces, events, j);
  }

  /** Each stage that is reached comes strictly after the one reached before it. */
  lemma ReachedStagesIncrease(states: seq<Abort>, graces: Graces, events: seq<Event>, i: nat)
    requires History(states, graces, events) && i < |events|
    requires states[i + 1].reached != states[i].reached
    ensures StageRank(states[i].reached) < StageRank(states[i + 1].reached)
  {
    HistoryIsOrderly(states, graces, events, i);
  }

  /** A stage is reached exactly when the answer to its signal comes and says that it was delivered. */
  lemma ReachedExactlyWhenDelivered(states: seq<Abort>, graces: Graces, events: seq<Event>, i: nat)
    requires History(states, graces, events) && i < |events|
    ensures states[i + 1].reached != states[i].reached <==> events[i] == Resume(true) && states[i].phase.Signalling?
    ensures states[i + 1].reached != states[i].reached ==> states[i + 1].reached == Some(states[i].phase.stage)
  {
    HistoryIsOrderly(states, graces, events, i);
  }

  /** A signal goes out exactly when the escalation resumes at its look and the exit has not been seen. */
  lemma SignalledExactlyWhenStillThere(states: seq<Abort>, graces: Graces, events: seq<Event>, i: nat)
    requires History(states, graces, events) && i < |events|
    ensures states[i + 1].attempts
         == if events[i].Resume? && states[i].phase.Checking? && !states[i].exited
            then states[i].attempts + [states[i].phase.stage]
            else states[i].attempts
  {
  }

  /** No signal is sent once the exit has been seen, and a stop pressed after that never marks the run. */
  lemma NothingSignalledAfterExit(states: seq<Abort>, graces: Graces, events: seq<Event>, i: nat, j: nat)
    requires History(states, graces, events) && i <= j < |states|
    requires states[i].exited
    ensures states[j].attempts == states[i].attempts
    ensures !states[i].requested ==> states[j].reached.None? && !states[j].requested
  {
    HistoryIsMonotone(states, graces, events, i, j);
    HistoryIsOrderly(states, graces, events, i);
    if !states[i].requested {
      NeverRequestedAfterExit(states, graces, events, i, j);
      HistoryIsOrderly(states, graces, events, j);
    }
  }

  lemma {:induction false} NeverRequestedAfterExit(states: seq<Abort>, graces: Graces, events: seq<Event>, i: nat,
      j: nat)
    requires History(states, graces, events) && i <= j < |states|
    requires states[i].exited && !states[i].requested
    ensures !states[j].requested && states[j].exited
  {
    if i < j {
      NeverRequestedAfterExit(states, graces, events, i, j - 1);
    }
  }

  /** How many signals a process gets that never goes away: a zero pause after one of them is the last word. */
  function SignalsUnder(graces: Graces): nat {
    if graces.sigint == 0 then 1 else if graces.sigterm == 0 then 2 else 3
  }

  /** SIGTERM only goes out behind a pause after SIGINT, SIGKILL only behind one after SIGTERM; otherwise it is over. */
  ghost predicate HonoursPauses(a: Abort, graces: Graces) {
    && (|a.attempts| >= 2 || a.phase == Checking(Sigterm) ==> graces.sigint > 0)
    && (|a.attempts| >= 3 || a.phase == Checking(Sigkill) ==> graces.sigint > 0 && graces.sigterm > 0)
    && (a.phase.Finished? && !a.exited ==> |a.attempts| == SignalsUnder(graces))
  }

  lemma ResumingHonoursPauses(a: Abort, graces: Graces, ok: bool)
    requires Orderly(a, graces) && HonoursPauses(a, graces) && CanEscalate(a, graces, ok)
    ensures HonoursPauses(Escalated(a, graces, ok), graces)
  {
  }

  lemma {:induction false} HistoryHonoursPauses(states: seq<Abort>, graces: Graces, events: seq<Event>, i: nat)
    requires History(states, graces, events) && i < |states|
    ensures HonoursPauses(states[i], graces)
  {
    if i > 0 {
      HistoryHonoursPauses(states, graces, events, i - 1);
      HistoryIsOrderly(states, graces, events, i - 1);
      match events[i - 1] {
        case Request =>
        case Exit =>
        case Resume(ok) => ResumingHonoursPauses(states[i - 1], graces, ok);
      }
    }
  }

  /** A process that stays gets SIGINT, SIGTERM unless the first pause is zero, SIGKILL unless either is. */
  lemma SignalsByPauses(states: seq<Abort>, graces: Graces, events: seq<Event>, i: nat)
    requires History(states, graces, events) && i < |states|
    ensures Sigterm in states[i].attempts ==> graces.sigint > 0
    ensures Sigkill in states[i].attempts ==> graces.sigint > 0 && graces.sigterm > 0
    ensures states[i].phase.Finished? && !states[i].exited
            ==> states[i].attempts == if graces.sigint == 0 then [Sigint]
                                      else if graces.sigterm == 0 then [Sigint, Sigterm]
                                      else [Sigint, Sigterm, Sigkill]
  {
    HistoryIsOrderly(states, graces, events, i);
    HistoryHonoursPauses(states, graces, events, i);
    var n := |states[i].attempts|;
    assert states[i].attempts == ALL_STAGES[..n];
  }

  /** An escalation that came to its end, against a process that never went away, tried all three signals. */
  ghost predicate TriesEverySignal(graces: Graces) {
    forall states: seq<Abort>, events: seq<Event> ::
      History(states, graces, events) && states[|events|].phase.Finished? && !states[|events|].exited
      ==> states[|events|].attempts == ALL_STAGES
  }

  /**
   * The configuration admits a zero pause; a process that never exits gets every signal exactly when neither is zero.
   */
  lemma EverySignalExactlyWhenBothPausesArePositive(graces: Graces)
    ensures TriesEverySignal(graces) <==> graces.sigint > 0 && graces.sigterm > 0
  {
    if graces.sigint > 0 && graces.sigterm > 0 {
      forall states: seq<Abort>, events: seq<Event> |
        History(states, graces, events) && states[|events|].phase.Finished? && !states[|events|].exited
        ensures states[|events|].attempts == ALL_STAGES
      {
        HistoryIsOrderly(states, graces, events, |events|);
      }
    } else {
      ZeroPauseStopsEarly(graces);
    }
  }

  lemma ZeroPauseStopsEarly(g: Graces)
    requires g.sigint == 0 || g.sigterm == 0
    ensures !TriesEverySignal(g)
  {
    var states, events := UneventfulPass(g, [FRESH, Requesting(FRESH)], [Request], Sigint);
    if g.sigint > 0 {
      states, events := UneventfulPass(g, states, events, Sigterm);
    }
    var last := states[|events|];
    assert last.phase.Finished? && !last.exited && last.attempts != ALL_STAGES;
  }

  /** One pass of the stage loop in which the signal is delivered and the process does not go away. */
  lemma UneventfulPass(g: Graces, states: seq<Abort>, events: seq<Event>, stage: AbortStage)
    returns (states': seq<Abort>, events': seq<Event>)
    requires History(states, g, events)
    requires states[|events|].phase == Checking(stage) && !states[|events|].exited
    ensures History(states', g, events')
    ensures var before, after := states[|events|], states'[|events'|];
            && !after.exited && after.attempts == before.attempts + [stage]
            && after.phase == if GraceAfter(g, stage) == 0 then Finished else Checking(NextStage(stage))
  {
    var s1 := Escalated(states[|events|], g, true);
    var s2 := Escalated(s1, g, true);
    var s3 := Escalated(s2, g, true);
    var s4 := Escalated(s3, g, true);
    var yes := Resume(true);
    states', events' := states + [s1, s2, s3, s4], events + [yes, yes, yes, yes];
    forall i | 0 <= i < |events'|
      ensures CanHappen(states'[i], g, events'[i]) && states'[i + 1] == Happened(states'[i], g, events'[i])
    {
      if i < |events| {
        assert states'[i] == states[i] && states'[i + 1] == states[i + 1];
      }
    }
  }

  /** How many times an escalation can still be resumed. */
  function StepsLeft(a: Abort): nat {
    match a.phase
    case Idle => 12
    case Checking(stage) => 4 * (3 - Rank(stage)) + 4
    case Signalling(stage) => 4 * (3 - Rank(stage)) + 3
    case Reporting(stage) => 4 * (3 - Rank(stage)) + 2
    case Pausing(stage) => 4 * (3 - Rank(stage)) + 1
    case Finished => 0
  }

  /** How many of the first `n` events resume the escalation. */
  function Resumptions(events: seq<Event>, n: nat): nat
    requires n <= |events|
  {
    if n == 0 then 0 else Resumptions(events, n - 1) + if events[n - 1].Resume? then 1 else 0
  }

  /**
   * The escalation always comes to its end: no history resumes it more than twelve times, and only the end stops it.
   */
  lemma {:induction false} EscalationEnds(states: seq<Abort>, graces: Graces, events: seq<Event>, n: nat)
    requires History(states, graces, events) && n <= |events|
    ensures Resumptions(events, n) + StepsLeft(states[n]) <= 12
    ensures !states[n].phase.Finished? && !states[n].phase.Idle? ==> CanEscalate(states[n], graces, true)
  {
    if n > 0 {
      EscalationEnds(states, graces, events, n - 1);
      HistoryIsOrderly(states, graces, events, n - 1);
      AnEventUsesUpItsStep(states[n - 1], graces, events[n - 1]);
    }
  }

  lemma AnEventUsesUpItsStep(a: Abort, graces: Graces, event: Event)
    requires Orderly(a, graces) && CanHappen(a, graces, event)
    ensures StepsLeft(Happened(a, graces, event)) <= StepsLeft(a) - (if event.Resume? then 1 else 0)
  {
  }

  // ---------------------------------------------------------------- the class

  /** Where `a` gets by `events`, if they can happen in that order. */
  function Played(a: Abort, graces: Graces, events: seq<Event>): Option<Abort>
    decreases |events|
  {
    if events == [] then Some(a)
    else match Played(a, graces, events[..|events| - 1])
      case None => None
      case Some(middle) =>
        var last := events[|events| - 1];
        if CanHappen(middle, graces, last) then Some(Happened(middle, graces, last)) else None
  }

  lemma PlayedOnce(a: Abort, graces: Graces, events: seq<Event>, b: Abort, event: Event)
    requires Played(a, graces, events) == Some(b) && CanHappen(b, graces, event)
    ensures Played(a, graces, events + [event]) == Some(Happened(b, graces, event))
  {
    assert (events + [event])[..|events|] == events;
  }

  lemma {:induction false} PlayedOn(a: Abort, graces: Graces, first: seq<Event>, b: Abort, second: seq<Event>, c: Abort)
    requires Played(a, graces, first) == Some(b) && Played(b, graces, second) == Some(c)
    ensures Played(a, graces, first + second) == Some(c)
    decreases |second|
  {
    if second == [] {
      assert first + second == first;
    } else {
      var n := |second| - 1;
      var middle := Played(b, graces, second[..n]).value;
      PlayedOn(a, graces, first, b, second[..n], middle);
      PlayedOnce(a, graces, first + second[..n], middle, second[n]);
      assert first + second == first + second[..n] + [second[n]];
    }
  }

  /** What the outside world does to one pass of the stage loop. */
  datatype Weather = Weather(exitBeforeCheck: bool, delivered: bool, exitWhileSignalling: bool, exitInPause: bool)

  /** Up to which stage signals go out, from the `i`-th on: until the exit shows, or a pause is zero. */
  function StagesTried(exited: bool, graces: Graces, weather: seq<Weather>, i: nat): (n: nat)
    requires i <= |weather| == |ALL_STAGES|
    ensures i <= n <= |ALL_STAGES|
    decreases |weather| - i
  {
    if i == |ALL_STAGES| || exited || weather[i].exitBeforeCheck then i
    else if GraceAfter(graces, ALL_STAGES[i]) == 0 || weather[i].exitInPause then i + 1
    else StagesTried(weather[i].exitWhileSignalling, graces, weather, i + 1)
  }

  /** Of the first `n` stages the last one whose signal was delivered, or what was reached before. */
  function LastDelivered(before: Option<AbortStage>, weather: seq<Weather>, n: nat): (reached: Option<AbortStage>)
    requires n <= |weather| == |ALL_STAGES|
    ensures forall k | 0 <= k < n && weather[k].delivered ::
              (forall m | k < m < n :: !weather[m].delivered) ==> reached == Some(ALL_STAGES[k])
    ensures (forall k | 0 <= k < n :: !weather[k].delivered) ==> reached == before
  {
    if n == 0 then before
    else if weather[n - 1].delivered then Some(ALL_STAGES[n - 1])
    else LastDelivered(before, weather, n - 1)
  }

  class StagedAbort {
    const graces: Graces
    var requested: bool
    var reachedStage: Option<AbortStage>
    var exited: bool
    ghost var phase: Phase
    ghost var attempts: seq<AbortStage>

    ghost function View(): Abort
      reads this
    {
      Abort(requested, reachedStage, exited, phase, attempts)
    }

    constructor (graces: Graces)
      ensures View() == FRESH && this.graces == graces
    {
      this.graces := graces;
      requested := false;
      reachedStage := None;
      exited := false;
      phase := Idle;
      attempts := [];
    }

    method ObserveExit()
      modifies this
      ensures View() == Exiting(old(View()))
    {
      exited := true;
    }

    /** The escalation a `Requested` answer starts is resumed by `Escalate`. */
    method Request() returns (outcome: RequestOutcome)
      modifies this
      ensures outcome == OutcomeOfRequest(old(View()))
      ensures View() == Requesting(old(View()))
      ensures outcome.TooLate? <==> old(exited)
      ensures outcome.AlreadyRequested? <==> !old(exited) && old(requested)
      ensures if outcome.Requested? then requested && phase == Checking(Sigint) else View() == old(View())
    {
      if exited {
        return TooLate;
      }
      if requested {
        return AlreadyRequested;
      }
      requested := true;
      phase := Checking(Sigint);
      return Requested;
    }

    method WasSignalled() returns (signalled: bool)
      ensures signalled == View().reached.Some?
    {
      signalled := reachedStage.Some?;
    }

    /**
     * The stage loop, run to its end against any weather: what it does is a history of the machine above, made
     * of nothing but resumptions and the exit, and the escalation is over when it returns.
     */
    method Escalate(weather: seq<Weather>) returns (ghost events: seq<Event>)
      requires |weather| == |ALL_STAGES|
      requires phase == Checking(Sigint)
      modifies this
      ensures Played(old(View()), graces, events) == Some(View())
      ensures phase.Finished?
      ensures forall e | e in events :: !e.Request?
      ensures requested == old(requested)
      ensures var n := StagesTried(old(exited), graces, weather, 0);
              && attempts == old(attempts) + ALL_STAGES[..n]
              && reachedStage == LastDelivered(old(reachedStage), weather, n)
    {
      events := [];
      var i := 0;
      assert ALL_STAGES[..0] == [];
      while i < |ALL_STAGES|
        invariant 0 <= i <= |ALL_STAGES|
        invariant Played(old(View()), graces, events) == Some(View())
        invariant if i < |ALL_STAGES| then phase == Checking(ALL_STAGES[i]) else phase.Finished?
        invariant forall e | e in events :: !e.Request?
        invariant requested == old(requested)
        invariant attempts == old(attempts) + ALL_STAGES[..i]
        invariant reachedStage == LastDelivered(old(reachedStage), weather, i)
        invariant StagesTried(exited, graces, weather, i) == StagesTried(old(exited), graces, weather, 0)
      {
        ghost var before := View();
        var gone, passed := Pass(ALL_STAGES[i], weather[i]);
        PlayedOn(old(View()), graces, events, before, passed, View());
        events := events + passed;
        assert ALL_STAGES[..i + 1] == ALL_STAGES[..i] + [ALL_STAGES[i]];
        if gone {
          return;
        }
        i := i + 1;
      }
    }

    /** One pass of the loop. `gone` means there is no next one. */
    method Pass(stage: AbortStage, weather: Weather) returns (gone: bool, ghost events: seq<Event>)
      requires phase == Checking(stage)
      modifies this
      ensures Played(old(View()), graces, events) == Some(View())
      ensures if gone then phase.Finished? else stage != Sigkill && phase == Checking(NextStage(stage))
      ensures forall e | e in events :: !e.Request?
      ensures requested == old(requested)
      ensures var tried := !old(exited) && !weather.exitBeforeCheck;
              && attempts == (if tried then old(attempts) + [stage] else old(attempts))
              && reachedStage == (if tried && weather.delivered then Some(stage) else old(reachedStage))
              && (gone <==> !tried || GraceAfter(graces, stage) == 0 || weather.exitInPause)
              && (!gone ==> exited == weather.exitWhileSignalling)
    {
      ghost var start := View();
      gone, events := Look(stage, weather);
      if gone {
        return;
      }
      ghost var atSignal := View();
      ghost var reported := Report(stage, weather);
      PlayedOn(start, graces, events, atSignal, reported, View());
      events := events + reported;
      ghost var atPause := View();
      ghost var paused;
      gone, paused := Pause(stage, weather);
      PlayedOn(start, graces, events, atPause, paused, View());
      events := events + paused;
    }

    /** The first half of a pass: look, and send the signal. `gone` means the process had already left. */
    method Look(stage: AbortStage, weather: Weather) returns (gone: bool, ghost events: seq<Event>)
      requires phase == Checking(stage)
      modifies this
      ensures Played(old(View()), graces, events) == Some(View())
      ensures if gone then phase.Finished? else phase == Signalling(stage)
      ensures gone == exited == (old(exited) || weather.exitBeforeCheck)
      ensures attempts == if gone then old(attempts) else old(attempts) + [stage]
      ensures reachedStage == old(reachedStage) && requested == old(requested)
      ensures forall e | e in events :: !e.Request?
    {
      ghost var start := View();
      if weather.exitBeforeCheck {
        exited := true;
      }
      events := if weather.exitBeforeCheck then [Exit] else [];
      assert Played(start, graces, events) == Some(View()) by {
        PlayedOnce(start, graces, [], start, Exit);
      }
      PlayedOnce(start, graces, events, View(), Resume(true));
      events := events + [Resume(true)];
      gone := exited;
      if gone {
        phase := Finished;
      } else {
        phase, attempts := Signalling(stage), attempts + [stage];
      }
    }

    /** The signal's answer, and the report of a stage that was reached. */
    method Report(stage: AbortStage, weather: Weather) returns (ghost events: seq<Event>)
      requires phase == Signalling(stage)
      modifies this
      ensures Played(old(View()), graces, events) == Some(View())
      ensures phase == Pausing(stage)
      ensures reachedStage == if weather.delivered then Some(stage) else old(reachedStage)
      ensures exited == (old(exited) || weather.exitWhileSignalling)
      ensures attempts == old(attempts) && requested == old(requested)
      ensures forall e | e in events :: !e.Request?
    {
      ghost var start := View();
      if weather.exitWhileSignalling {
        exited := true;
      }
      events := if weather.exitWhileSignalling then [Exit] else [];
      assert Played(start, graces, events) == Some(View()) by {
        PlayedOnce(start, graces, [], start, Exit);
      }
      ghost var sent := View();
      PlayedOnce(start, graces, events, sent, Resume(weather.delivered));
      events := events + [Resume(weather.delivered)];
      if weather.delivered {
        reachedStage := Some(stage);
        PlayedOnce(start, graces, events, sent.(reached := Some(stage), phase := Reporting(stage)), Resume(true));
        events := events + [Resume(true)];
      }
      phase := Pausing(stage);
    }

    /** The second half: the pause. `gone` means there is no next stage. */
    method Pause(stage: AbortStage, weather: Weather) returns (gone: bool, ghost events: seq<Event>)
      requires phase == Pausing(stage)
      modifies this
      ensures Played(old(View()), graces, events) == Some(View())
      ensures if gone then phase.Finished? else stage != Sigkill && phase == Checking(NextStage(stage))
      ensures gone <==> GraceAfter(graces, stage) == 0 || weather.exitInPause
      ensures !gone ==> exited == old(exited)
      ensures reachedStage == old(reachedStage) && attempts == old(attempts) && requested == old(requested)
      ensures forall e | e in events :: !e.Request?
    {
      ghost var start := View();
      if GraceAfter(graces, stage) == 0 {
        phase, gone := Finished, true;
        PlayedOnce(start, graces, [], start, Resume(true));
        events := [Resume(true)];
      } else if weather.exitInPause {
        exited, phase, gone := true, Finished, true;
        PlayedOnce(start, graces, [], start, Exit);
        PlayedOnce(start, graces, [Exit], Exiting(start), Resume(false));
        events := [Exit, Resume(false)];
      } else {
        phase, gone := Checking(NextStage(stage)), false;
        PlayedOnce(start, graces, [], start, Resume(true));
        events := [Resume(true)];
      }
    }
  }
}
