/**
 * Exactly when entries go missing in the middle of a screen.
 *
 * Bytes can agree by chance, so a gap is told by entries: the frame about to be shown is not that of the entry behind
 * the last one shown.
 */
module TerminalGaps {
  import opened Options
  import opened Sequences
  import opened TerminalStream
  import opened TerminalRuns
  import opened TerminalLaws

  /** With something on the screen, up to entry `j - 1`, the next thing to be shown is the frame of entry `k`. */
  predicate Skips(s: State, j: nat, k: nat) {
    && 0 < j < k < |s.log|
    && s.link.Attached? && s.link.inFlight != [] && FrameOf(s.log[k]) == [s.link.inFlight[0]]
    && s.client.screen != [] && s.client.lastStreamId == Some(s.log[j - 1].id)
  }

  /** However things go on, no further trim needed, entries may be skipped. */
  ghost predicate CanSkip(s: State) {
    exists t: State, j: nat, k: nat :: Reaches(s, NoTrims, t) && Skips(t, j, k)
  }

  /** Then the client shows entry `k` right behind entry `j - 1`, and takes it for its position. */
  lemma SkippedEntriesAreNotShown(s: State, j: nat, k: nat)
    requires LogOk(s.log) && Skips(s, j, k)
    ensures Delivered(s).client
         == s.client.(lastStreamId := Some(s.log[k].id), screen := s.client.screen + s.log[k].data)
  {
    ProperAt(s.log, k);
    FrameOfProper(s.log[k]);
    ReceivedFrame(s.client, s.log[k]);
  }

  // ---------------------------------------------------------------- without an overtaking trim there is no gap

  lemma SameFrame(log: seq<Entry>, i: nat, j: nat)
    requires LogOk(log) && i < |log| && j < |log| && FrameOf(log[i]) == FrameOf(log[j])
    ensures i == j
  {
    var nobody := Client(None, [], 0, false);
    ProperAt(log, i);
    ProperAt(log, j);
    FrameOfProper(log[i]);
    FrameOfProper(log[j]);
    ReceivedFrame(nobody, log[i]);
    ReceivedFrame(nobody, log[j]);
    IdsAreDistinct(log, i, j);
  }

  /** The next frame in flight is that of the entry behind what is shown. */
  lemma NextFollows(s: State, w: Where)
    requires Inv(s, w) && s.link.Attached? && s.link.inFlight != [] && s.link.inFlight[0].Data? && s.client.screen != []
    ensures w.to < |s.log| && FrameOf(s.log[w.to]) == [s.link.inFlight[0]]
  {
    RestInFlight(s.link.inFlight);
    assert s.link.cursor != "0";
    HeadIsNext(SettingOf(s), s.client.screen, s.link.cursor, s.link.inFlight, w);
    FrameOfProper(s.log[w.next]);
  }

  lemma JoinedDoesNotSkip(s: State, w: Where, j: nat, k: nat)
    requires Inv(s, w)
    ensures !Skips(s, j, k)
  {
    if Skips(s, j, k) {
      ProperAt(s.log, k);
      FrameOfProper(s.log[k]);
      NextFollows(s, w);
      SameFrame(s.log, w.to, k);
      IdsAreDistinct(s.log, w.to - 1, j - 1);
    }
  }

  lemma {:induction false} NoTrimOvertakesNobody(s: State, steps: seq<Step>, t: State)
    requires RunUnder(s, NoTrims, steps, t)
    ensures Runs(s, steps) && Final(s, steps) == t && NeverOvertakes(s, steps)
    decreases |steps|
  {
    if steps != [] {
      NoTrimOvertakesNobody(Next(s, steps[0]), steps[1..], t);
    }
  }

  lemma JoinedCannotSkip(s: State, w: Where)
    requires Inv(s, w)
    ensures !CanSkip(s)
  {
    forall t: State, j: nat, k: nat | Reaches(s, NoTrims, t)
      ensures !Skips(t, j, k)
    {
      var steps: seq<Step> :| RunUnder(s, NoTrims, steps, t);
      NoTrimOvertakesNobody(s, steps, t);
      var v := RunKeepsInv(s, steps, w);
      JoinedDoesNotSkip(t, v, j, k);
    }
  }

  // ---------------------------------------------------------------- after one there can be

  function With(s: State, trimmed: nat): State {
    s.(trimmed := trimmed)
  }

  /** What is in flight is delivered the same way whatever was trimmed meanwhile. */
  lemma {:induction false} Drain(s: State, w: Where, upTo: nat) returns (u: State, v: Where)
    requires Inv(s, w) && s.link.Attached? && upTo <= |s.log|
    ensures Inv(u, v) && u == s.(client := u.client, link := Attached(s.link.cursor, []))
    ensures Reaches(With(s, upTo), NoTrims, With(u, upTo))
    decreases |s.link.inFlight|
  {
    if s.link.inFlight == [] {
      u, v := s, w;
      StaysPut(With(s, upTo), NoTrims);
    } else {
      var next := Delivered(s);
      v := DeliverKeepsInv(s, w);
      u, v := Drain(next, v, upTo);
      ReachesNext(With(s, upTo), NoTrims, Deliver, With(next, upTo));
      ReachesOn(With(s, upTo), NoTrims, With(next, upTo), With(u, upTo));
    }
  }

  /** A positioned reader with nothing in flight: everything up to its cursor is shown, and that is something. */
  lemma DrainedIsShown(s: State, w: Where)
    requires Inv(s, w) && s.link.Attached? && s.link.inFlight == [] && s.link.cursor != "0" && s.trimmed < |s.log|
    ensures 0 < w.cursor <= |s.log| && s.link.cursor == s.log[w.cursor - 1].id
    ensures s.client.screen != [] && s.client.lastStreamId == Some(s.log[w.cursor - 1].id)
  {
    CursorStands(s, w);
    StretchOfNone(s.log, w.next, w.cursor);
  }

  lemma OvertakenStandsBehind(log: seq<Entry>, trimmed: nat, upTo: nat, c: nat)
    requires LogOk(log) && trimmed <= upTo <= |log| && 0 < c <= |log|
    requires Unread(log[trimmed..upTo], log[c - 1].id) != []
    ensures c < upTo
  {
    UnreadFrom(log, c, trimmed, upTo);
    EmptyStretch(log, Cut(trimmed, upTo, c), upTo);
  }

  lemma ReadSkips(s: State, c: nat)
    requires LogOk(s.log) && 0 < c < s.trimmed < |s.log| && s.link == Attached(s.log[c - 1].id, [])
    requires s.client.screen != [] && s.client.lastStreamId == Some(s.log[c - 1].id)
    ensures Reaches(s, NoTrims, AfterRead(s, s.trimmed)) && Skips(AfterRead(s, s.trimmed), c, s.trimmed)
  {
    RestIsUnread(s.log, c, s.trimmed);
    PumpedLink(s, s.trimmed);
    ReachesNext(s, NoTrims, Read, AfterRead(s, s.trimmed));
    FirstOfFrames(s.log, s.trimmed);
  }

  lemma RestIsUnread(log: seq<Entry>, c: nat, lo: nat)
    requires LogOk(log) && 0 < c < lo < |log|
    ensures Unread(log[lo..], log[c - 1].id) == log[lo..]
  {
    UnreadFrom(log, c, lo, |log|);
    ToTheEnd(log, lo);
  }

  lemma FirstOfFrames(log: seq<Entry>, lo: nat)
    requires LogOk(log) && lo < |log|
    ensures [] + FramesOf(log[lo..]) != [] && FrameOf(log[lo]) == [([] + FramesOf(log[lo..]))[0]]
  {
    ToTheEnd(log, lo);
    FramesHead(log, lo, |log|);
    FrameOfProper(log[lo]);
  }

  lemma DrainedStandsBehind(s: State, w: Where, upTo: nat)
    requires Inv(s, w) && s.link.Attached? && s.link.cursor != "0" && s.trimmed <= upTo < |s.log|
    requires Unread(s.log[s.trimmed..upTo], s.link.cursor) != []
    ensures 0 < w.cursor < upTo
  {
    CursorStands(s, w);
    OvertakenStandsBehind(s.log, s.trimmed, upTo, w.cursor);
  }

  /** Once what was in flight is delivered, one read of what the trim left skips what it took. */
  lemma DrainedCanSkip(s: State, w: Where, upTo: nat)
    requires Inv(s, w) && s.link.Attached? && s.link.inFlight == [] && s.link.cursor != "0"
             && s.trimmed <= upTo < |s.log|
    requires Unread(s.log[s.trimmed..upTo], s.link.cursor) != []
    ensures CanSkip(With(s, upTo))
  {
    DrainedStandsBehind(s, w, upTo);
    DrainedIsShown(s, w);
    ReadSkips(With(s, upTo), w.cursor);
  }

  lemma CanSkipLater(s: State, t: State)
    requires Reaches(s, NoTrims, t) && CanSkip(t)
    ensures CanSkip(s)
  {
    var u: State, j: nat, k: nat :| Reaches(t, NoTrims, u) && Skips(u, j, k);
    ReachesOn(s, NoTrims, t, u);
  }

  lemma OvertakenCanSkip(s: State, w: Where, upTo: nat)
    requires Inv(s, w) && Enabled(s, Trim(upTo)) && Overtakes(s, Trim(upTo))
    ensures CanSkip(With(s, upTo))
  {
    var u, v := Drain(s, w, upTo);
    DrainedCanSkip(u, v, upTo);
    CanSkipLater(With(s, upTo), With(u, upTo));
  }

  // ---------------------------------------------------------------- exactly when

  /** A trim of a stream whose readers join up makes a gap possible exactly when it overtakes one of them. */
  lemma TrimLeavesAGapExactlyWhen(s: State, w: Where, upTo: nat)
    requires Inv(s, w) && Enabled(s, Trim(upTo))
    ensures CanSkip(Next(s, Trim(upTo))) <==> Overtakes(s, Trim(upTo))
  {
    if Overtakes(s, Trim(upTo)) {
      OvertakenCanSkip(s, w, upTo);
    } else {
      TrimKeepsInv(s, upTo, w);
      JoinedCannotSkip(Trimmed(s, upTo), w);
    }
  }

  /** At no point of the run can entries be skipped from there on without a further trim. */
  ghost predicate NeverCanSkip(s: State, steps: seq<Step>)
    requires Runs(s, steps)
    decreases |steps|
  {
    !CanSkip(s) && (steps == [] || NeverCanSkip(Next(s, steps[0]), steps[1..]))
  }

  lemma {:induction false} JoinedRuns(s: State, steps: seq<Step>, w: Where)
    requires Inv(s, w) && Runs(s, steps)
    ensures NeverCanSkip(s, steps) <==> NeverOvertakes(s, steps)
    decreases |steps|
  {
    JoinedCannotSkip(s, w);
    if steps != [] {
      if Overtakes(s, steps[0]) {
        TrimLeavesAGapExactlyWhen(s, w, steps[0].upTo);
      } else {
        var v := StepKeepsInv(s, steps[0], w);
        JoinedRuns(Next(s, steps[0]), steps[1..], v);
      }
    }
  }

  /**
   * Over every run from the beginning: gaps are ruled out throughout exactly when no trim overtakes a positioned
   * reader.
   */
  lemma NoGapsExactlyWhenNeverOvertaken(steps: seq<Step>)
    requires Runs(INITIAL, steps)
    ensures NeverCanSkip(INITIAL, steps) <==> NeverOvertakes(INITIAL, steps)
  {
    InitialIsInv();
    JoinedRuns(INITIAL, steps, Where(0, 0, 0, 0));
  }
}
