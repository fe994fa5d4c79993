/**
 * Why the stream's cap must not overtake a reader: where it does, the screen has a hole the client cannot see. It
 * happens to any reader that is idle while a cap's worth of chunks and one more are published.
 */
module TerminalWitness {
  import opened Options
  import opened Sequences
  import opened Octets
  import opened StreamIds
  import opened TerminalStream
  import opened TerminalRuns
  import opened TerminalLaws

  // ---------------------------------------------------------------- publishing and delivering in bulk

  /** The log grows to `all`. */
  lemma {:induction false} PublishAll(s: State, all: seq<Entry>, rule: Trimming)
    requires s.log <= all && LogOk(all) && !s.over && s.trimmed <= |s.log|
    ensures Reaches(s, rule, s.(log := all))
    decreases |all| - |s.log|
  {
    if |s.log| == |all| {
      assert s.log == all;
      StaysPut(s, rule);
    } else {
      var next := s.(log := s.log + [all[|s.log|]]);
      PublishOne(s, all, rule);
      OneLonger(s.log, all);
      PublishAll(next, all, rule);
      ReachesOn(s, rule, next, s.(log := all));
    }
  }

  lemma IsNext(log: seq<Entry>, all: seq<Entry>)
    requires log <= all && |log| < |all| && LogOk(all)
    ensures Follows(log, all[|log|])
  {
    ProperAt(all, |log|);
    if log != [] {
      OrderedAt(all, |log| - 1, |log|);
    }
  }

  lemma PublishOne(s: State, all: seq<Entry>, rule: Trimming)
    requires s.log <= all && |s.log| < |all| && LogOk(all) && !s.over && s.trimmed <= |s.log|
    ensures Reaches(s, rule, s.(log := s.log + [all[|s.log|]]))
  {
    var next := all[|s.log|];
    IsNext(s.log, all);
    ReachesNext(s, rule, Publish(next.at, next.data), s.(log := s.log + [next]));
  }

  /** The client after the frames of these entries. */
  function Having(client: Client, entries: seq<Entry>): Client {
    if entries == [] then client
    else client.(lastStreamId := Some(entries[|entries| - 1].id), screen := client.screen + Bytes(entries))
  }

  lemma HavingMore(client: Client, first: Entry, rest: seq<Entry>)
    ensures Having(client.(lastStreamId := Some(first.id), screen := client.screen + first.data), rest)
            == Having(client, [first] + rest)
  {
    BytesCons(first, rest);
    if rest == [] {
      assert [first] + rest == [first];
      assert first.data + [] == first.data;
    } else {
      Regroup(client.screen, first.data, Bytes(rest));
      assert ([first] + rest)[|rest|] == rest[|rest| - 1];
    }
  }

  lemma {:induction false} DeliverAll(s: State, cursor: string, entries: seq<Entry>, rule: Trimming)
    requires s.trimmed <= |s.log| && s.link == Attached(cursor, FramesOf(entries))
    requires forall i | 0 <= i < |entries| :: Proper(entries[i])
    ensures Reaches(s, rule, s.(client := Having(s.client, entries), link := Attached(cursor, [])))
    decreases |entries|
  {
    if entries == [] {
      StaysPut(s, rule);
    } else {
      var first, rest := entries[0], entries[1..];
      assert entries == [first] + rest;
      var next := s.(client := s.client.(lastStreamId := Some(first.id), screen := s.client.screen + first.data),
                     link := Attached(cursor, FramesOf(rest)));
      DeliverFirst(s, cursor, first, rest, rule);
      assert forall i | 0 <= i < |rest| :: rest[i] == entries[i + 1];
      DeliverAll(next, cursor, rest, rule);
      HavingMore(s.client, first, rest);
      ReachesOn(s, rule, next, s.(client := Having(s.client, entries), link := Attached(cursor, [])));
    }
  }

  lemma DeliverFirst(s: State, cursor: string, first: Entry, rest: seq<Entry>, rule: Trimming)
    requires s.trimmed <= |s.log| && s.link == Attached(cursor, FramesOf([first] + rest)) && Proper(first)
    ensures Reaches(s, rule,
            s.(client := s.client.(lastStreamId := Some(first.id), screen := s.client.screen + first.data),
                               link := Attached(cursor, FramesOf(rest))))
  {
    FrameOfProper(first);
    FramesOfCons(first, rest);
    ReceivedFrame(s.client, first);
    assert ([WireFrame(first)] + FramesOf(rest))[1..] == FramesOf(rest);
    ReachesNext(s, rule, Deliver, Delivered(s));
  }

  // ---------------------------------------------------------------- overtaken

  /** A reader that has caught up, on whose screen the stretch of the log from `from` on stands. */
  predicate Waiting(s: State, from: nat) {
    && LogOk(s.log) && !s.over && s.trimmed < |s.log| && from < |s.log|
    && s.link == Attached(s.log[|s.log| - 1].id, [])
    && s.client.screen == Bytes(s.log[from..])
  }

  function LastId(log: seq<Entry>): string
    requires log != []
  {
    log[|log| - 1].id
  }

  /** The reader of entry `n - 1` read what is left behind entry `n`. */
  function Pumping(s: State, n: nat): State
    requires n < |s.log|
  {
    s.(link := Attached(LastId(s.log), FramesOf(s.log[n + 1..])))
  }

  /** And that was shown. */
  function Shown(s: State, n: nat): State
    requires n < |s.log|
  {
    s.(client := Having(s.client, s.log[n + 1..]), link := Attached(LastId(s.log), []))
  }

  lemma RestIsUnread(log: seq<Entry>, n: nat)
    requires LogOk(log) && 0 < n && n + 1 < |log|
    ensures Unread(log[n + 1..], log[n - 1].id) == log[n + 1..] != []
  {
    UnreadFrom(log, n, n + 1, |log|);
    ToTheEnd(log, n + 1);
  }

  lemma RestIsPumped(s: State, n: nat)
    requires n + 1 < |s.log| && s.link.Attached? && s.link.inFlight == []
    ensures Pumped(s, s.log[n + 1..]) == Pumping(s, n)
  {
    LastOfRest(s.log, n + 1);
    assert [] + FramesOf(s.log[n + 1..]) == FramesOf(s.log[n + 1..]);
  }

  lemma PumpReaches(s: State, n: nat, rule: Trimming)
    requires LogOk(s.log) && 0 < n && n + 1 < |s.log| && s.trimmed == n + 1 && s.link == Attached(s.log[n - 1].id, [])
    ensures Reaches(s, rule, Pumping(s, n))
  {
    RestIsUnread(s.log, n);
    RestIsPumped(s, n);
    ReachesNext(s, rule, Read, Pumping(s, n));
  }

  lemma ShownReaches(s: State, n: nat, rule: Trimming)
    requires LogOk(s.log) && n < |s.log| && s.trimmed <= |s.log|
    ensures Reaches(Pumping(s, n), rule, Shown(s, n))
  {
    AllProper(s.log, n + 1, |s.log|);
    ToTheEnd(s.log, n + 1);
    DeliverAll(Pumping(s, n), LastId(s.log), s.log[n + 1..], rule);
  }

  lemma ReadingReaches(s: State, n: nat, rule: Trimming)
    requires LogOk(s.log) && 0 < n && n + 1 < |s.log| && s.trimmed == n + 1 && s.link == Attached(s.log[n - 1].id, [])
    ensures Reaches(s, rule, Shown(s, n))
  {
    PumpReaches(s, n, rule);
    ShownReaches(s, n, rule);
    ReachesOn(s, rule, Pumping(s, n), Shown(s, n));
  }

  /** The log grew to `all`, and a trim took everything up to the first chunk the reader has not read. */
  function Behind(s: State, all: seq<Entry>): State {
    s.(log := all, trimmed := |s.log| + 1)
  }

  function Overtaken(s: State, all: seq<Entry>): State
    requires |s.log| < |all|
  {
    Shown(Behind(s, all), |s.log|)
  }

  lemma BatchIsTrimmed(s: State, all: seq<Entry>, cap: nat)
    requires s.log <= all && LogOk(all) && |all| == |s.log| + cap + 1 && cap >= 1 && s.trimmed < |s.log| && !s.over
    ensures Reaches(s, LeavingAtLeast(cap), Behind(s, all))
  {
    var published := s.(log := all);
    PublishAll(s, all, LeavingAtLeast(cap));
    ReachesNext(published, LeavingAtLeast(cap), Trim(|s.log| + 1), Behind(s, all));
    ReachesOn(s, LeavingAtLeast(cap), published, Behind(s, all));
  }

  /** The system's own steps lead there, with trims that leave a cap's worth of entries. */
  lemma OvertakenIsReached(s: State, all: seq<Entry>, cap: nat)
    requires s.log <= all && LogOk(all) && |all| == |s.log| + cap + 1 && cap >= 1
    requires s.log != [] && s.trimmed < |s.log| && !s.over && s.link == Attached(LastId(s.log), [])
    ensures Reaches(s, LeavingAtLeast(cap), Overtaken(s, all))
  {
    BatchIsTrimmed(s, all, cap);
    ReadingReaches(Behind(s, all), |s.log|, LeavingAtLeast(cap));
    ReachesOn(s, LeavingAtLeast(cap), Behind(s, all), Overtaken(s, all));
  }

  /** A stretch that ends in the last id is a stretch to the end. */
  lemma StretchToTheEnd(s: State, f: nat, t: nat)
    requires LogOk(s.log) && s.log != [] && s.client.lastStreamId == Some(LastId(s.log)) && ShowsStretch(s, f, t)
    ensures f <= |s.log| && s.client.screen == Bytes(s.log[f..])
  {
    IdsAreDistinct(s.log, t - 1, |s.log| - 1);
    ToTheEnd(s.log, f);
  }

  lemma WhatIsShown(s: State, all: seq<Entry>)
    requires |s.log| + 1 < |all|
    ensures Overtaken(s, all).client.screen == s.client.screen + Bytes(all[|s.log| + 1..])
    ensures Overtaken(s, all).client.lastStreamId == Some(LastId(all))
  {
    LastOfRest(all, |s.log| + 1);
  }

  /**
   * A screen that lacks entry `n` is no stretch of the log, when that ends in another byte than what stood there
   * before.
   */
  lemma MissingEntryIsAHole(s: State, n: nat, before: seq<byte>, f: nat, t: nat)
    requires LogOk(s.log) && n < |s.log| && s.client.lastStreamId == Some(LastId(s.log))
    requires s.client.screen == before + Bytes(s.log[n + 1..]) && EndsDifferently(s.log[n].data, before)
    ensures !ShowsStretch(s, f, t)
  {
    if ShowsStretch(s, f, t) {
      StretchToTheEnd(s, f, t);
      NoStretch(s.log, n, before, f);
    }
  }

  predicate EndsDifferently(a: seq<byte>, b: seq<byte>) {
    a != [] && b != [] && a[|a| - 1] != b[|b| - 1]
  }

  lemma NoStretch(log: seq<Entry>, n: nat, screen: seq<byte>, f: nat)
    requires n < |log| && f <= |log| && EndsDifferently(log[n].data, screen)
    ensures Bytes(log[f..]) != screen + Bytes(log[n + 1..])
  {
    if f <= n {
      Around(log, f, n);
      NoStretchAcross(log[f..n], log[n], log[n + 1..], screen);
    } else {
      DropTwice(log, n + 1, f - n - 1);
      EndIsShorter(log[n + 1..], f - n - 1);
    }
  }

  lemma NoStretchAcross(front: seq<Entry>, lost: Entry, rest: seq<Entry>, screen: seq<byte>)
    requires EndsDifferently(lost.data, screen)
    ensures Bytes(front + [lost] + rest) != screen + Bytes(rest)
  {
    BytesOfConcat(front + [lost], rest);
    BytesOfConcat(front, [lost]);
    BytesOfOne(lost);
    if Bytes(front + [lost] + rest) == screen + Bytes(rest) {
      SameFront(Bytes(front) + lost.data, screen, Bytes(rest));
    }
  }

  lemma EndIsShorter(entries: seq<Entry>, k: nat)
    requires k <= |entries|
    ensures |Bytes(entries[k..])| <= |Bytes(entries)|
  {
    CutInThree(entries, k, |entries|);
    BytesOfConcat(entries[..k], entries[k..]);
  }

  lemma BytesOfOne(entry: Entry)
    ensures Bytes([entry]) == entry.data
  {
    BytesCons(entry, []);
    assert [entry] + [] == [entry];
    assert entry.data + [] == entry.data;
  }

  // ---------------------------------------------------------------- a batch for every reader

  function Chunk(ms: nat, data: byte): Entry {
    Entry(StreamId(ms, 0), Text(StreamId(ms, 0)), [data])
  }

  /** The log with `n` one-byte chunks more, under consecutive ids, the first of them `lost`. */
  function Grown(log: seq<Entry>, ms: nat, lost: byte, n: nat): seq<Entry> {
    if n == 0 then log else Grown(log, ms, lost, n - 1) + [Chunk(ms + n, if n == 1 then lost else 0)]
  }

  function LastMs(log: seq<Entry>): nat
    requires log != []
  {
    log[|log| - 1].at.ms
  }

  lemma OneMoreChunk(before: seq<Entry>, ms: nat, data: byte)
    requires LogOk(before) && before != [] && LastMs(before) < ms < EXACT
    ensures LogOk(before + [Chunk(ms, data)]) && LastMs(before + [Chunk(ms, data)]) == ms
  {
    LogOkAppended(before, Chunk(ms, data));
  }

  lemma {:induction false} GrownIsOk(log: seq<Entry>, ms: nat, lost: byte, n: nat)
    requires LogOk(log) && log != [] && ms + n < EXACT && LastMs(log) == ms
    ensures Grown(log, ms, lost, n) != [] && LogOk(Grown(log, ms, lost, n))
    ensures LastMs(Grown(log, ms, lost, n)) == ms + n
  {
    if n > 0 {
      GrownIsOk(log, ms, lost, n - 1);
      OneMoreChunk(Grown(log, ms, lost, n - 1), ms + n, if n == 1 then lost else 0);
    }
  }

  lemma {:induction false} GrownIsLonger(log: seq<Entry>, ms: nat, lost: byte, n: nat)
    ensures var all := Grown(log, ms, lost, n);
            |all| == |log| + n && log <= all && (n > 0 ==> all[|log|].data == [lost])
  {
    if n > 0 {
      GrownIsLonger(log, ms, lost, n - 1);
      StillAPrefix(log, Grown(log, ms, lost, n - 1), Chunk(ms + n, if n == 1 then lost else 0));
    }
  }

  /** No stretch of the log is on the screen. */
  ghost predicate HasAHole(s: State) {
    forall f: nat, t: nat :: !ShowsStretch(s, f, t)
  }

  function AnotherByte(b: byte): byte {
    if b == 0 then 1 else 0
  }

  lemma OvertakingLeavesAHole(s: State, all: seq<Entry>)
    requires LogOk(all) && |s.log| + 1 < |all| && EndsDifferently(all[|s.log|].data, s.client.screen)
    ensures HasAHole(Overtaken(s, all))
  {
    WhatIsShown(s, all);
    forall f: nat, t: nat
      ensures !ShowsStretch(Overtaken(s, all), f, t)
    {
      MissingEntryIsAHole(Overtaken(s, all), |s.log|, s.client.screen, f, t);
    }
  }

  /** Enough chunks to overtake a reader, the first of them one that will be missed. */
  lemma BatchFor(log: seq<Entry>, screen: seq<byte>, cap: nat) returns (all: seq<Entry>)
    requires LogOk(log) && log != [] && screen != [] && LastMs(log) + cap + 1 < EXACT
    ensures LogOk(all) && log <= all && |all| == |log| + cap + 1 && EndsDifferently(all[|log|].data, screen)
  {
    var lost := AnotherByte(screen[|screen| - 1]);
    all := Grown(log, LastMs(log), lost, cap + 1);
    GrownIsOk(log, LastMs(log), lost, cap + 1);
    GrownIsLonger(log, LastMs(log), lost, cap + 1);
  }

  lemma OvertakenByBatch(s: State, all: seq<Entry>, cap: nat)
    requires s.log <= all && LogOk(all) && |all| == |s.log| + cap + 1 && cap >= 1
    requires s.log != [] && s.trimmed < |s.log| && !s.over && s.link == Attached(LastId(s.log), [])
    requires EndsDifferently(all[|s.log|].data, s.client.screen)
    ensures Reaches(s, LeavingAtLeast(cap), Overtaken(s, all)) && HasAHole(Overtaken(s, all))
  {
    OvertakenIsReached(s, all, cap);
    OvertakingLeavesAHole(s, all);
  }

  /** Any caught-up reader with something on its screen can be overtaken, whatever the cap. */
  lemma AnyReaderCanBeOvertaken(s: State, from: nat, cap: nat) returns (t: State)
    requires Waiting(s, from) && s.client.screen != [] && cap >= 1
    requires LastMs(s.log) + cap + 1 < EXACT
    ensures Reaches(s, LeavingAtLeast(cap), t) && HasAHole(t)
  {
    var all := BatchFor(s.log, s.client.screen, cap);
    t := Overtaken(s, all);
    OvertakenByBatch(s, all, cap);
  }

  // ---------------------------------------------------------------- from the beginning

  const FIRST := Entry(StreamId(1, 0), Text(StreamId(1, 0)), [7])

  const SHOWN := State([FIRST], 0, false, Client(Some(FIRST.id), [7], 0, false), Attached(FIRST.id, []))

  lemma TheFirstChunk(rule: Trimming)
    ensures Reaches(INITIAL, rule, INITIAL.(log := [FIRST], link := Attached("0", [])))
  {
    var published := INITIAL.(log := [FIRST]);
    var greeted := published.(link := Greeted(None));
    var served := published.(link := Attached("0", [Ready(false)]));
    ReachesNext(INITIAL, rule, Publish(FIRST.at, FIRST.data), published);
    ReachesNext(published, rule, Open, greeted);
    ReachesOn(INITIAL, rule, published, greeted);
    ReachesNext(greeted, rule, Serve, served);
    ReachesOn(INITIAL, rule, greeted, served);
    assert [Ready(false)][1..] == [];
    ReachesNext(served, rule, Deliver, published.(link := Attached("0", [])));
    ReachesOn(INITIAL, rule, served, published.(link := Attached("0", [])));
  }

  lemma TheFirstLog()
    ensures LogOk([FIRST]) && Unread([FIRST][0..], "0") == [FIRST] && [] + FramesOf([FIRST]) == FramesOf([FIRST])
  {
    LogOkAppended([], FIRST);
    assert [] + [FIRST] == [FIRST];
    UnreadFromTheStart([FIRST], 0);
    assert [FIRST][0..] == [FIRST];
  }

  lemma TheFirstScreen(rule: Trimming)
    ensures Reaches(INITIAL, rule, SHOWN)
    ensures Waiting(SHOWN, 0)
  {
    var attached := INITIAL.(log := [FIRST], link := Attached("0", []));
    var pumped := attached.(link := Attached(FIRST.id, FramesOf([FIRST])));
    TheFirstChunk(rule);
    TheFirstLog();
    ReachesNext(attached, rule, Read, pumped);
    ReachesOn(INITIAL, rule, attached, pumped);
    BytesOfOne(FIRST);
    assert [] + [7] == [7];
    DeliverAll(pumped, FIRST.id, [FIRST], rule);
    ReachesOn(INITIAL, rule, pumped, SHOWN);
  }

  /**
   * Whatever the cap, a run of the system from its beginning, with no trim that leaves less than the cap, ends with a
   * screen that is no stretch of what was published.
   */
  lemma HoleIsReachable(cap: nat) returns (steps: seq<Step>)
    requires 1 <= cap < EXACT - 2
    ensures Runs(INITIAL, steps) && RunUnder(INITIAL, LeavingAtLeast(cap), steps, Final(INITIAL, steps))
            && HasAHole(Final(INITIAL, steps))
    ensures !NeverOvertakes(INITIAL, steps)
  {
    TheFirstScreen(LeavingAtLeast(cap));
    var t := AnyReaderCanBeOvertaken(SHOWN, 0, cap);
    ReachesOn(INITIAL, LeavingAtLeast(cap), SHOWN, t);
    steps :| RunUnder(INITIAL, LeavingAtLeast(cap), steps, t);
    RunUnderRuns(INITIAL, LeavingAtLeast(cap), steps, t);
    if NeverOvertakes(INITIAL, steps) {
      ScreenIsAContiguousStretch(steps);
    }
  }
}
