/** What is on the screen is always a contiguous stretch of what was published, up to the client's resume position. */
module TerminalLaws {
  import opened Options
  import opened Sequences
  import opened Octets
  import opened Frames
  import opened StreamIds
  import opened TerminalStream

  // ---------------------------------------------------------------- entries in order

  predicate Proper(entry: Entry) {
    Issued(entry.at) && entry.id == Text(entry.at) && entry.data != []
  }

  /** A proper entry, later than the one before it. */
  predicate InPlace(log: seq<Entry>, i: nat)
    requires i < |log|
  {
    Proper(log[i]) && (i > 0 ==> Before(log[i - 1].at, log[i].at))
  }

  /** Ids strictly increase, and no chunk is empty. */
  predicate LogOk(log: seq<Entry>) {
    forall i: nat {:trigger InPlace(log, i)} | i < |log| :: InPlace(log, i)
  }

  predicate Follows(log: seq<Entry>, entry: Entry) {
    Proper(entry) && (log != [] ==> Before(log[|log| - 1].at, entry.at))
  }

  lemma ProperAt(log: seq<Entry>, i: nat)
    requires LogOk(log) && i < |log|
    ensures Proper(log[i])
  {
    assert InPlace(log, i);
  }

  lemma {:induction false} OrderedAt(log: seq<Entry>, i: nat, j: nat)
    requires LogOk(log) && i < j < |log|
    ensures Before(log[i].at, log[j].at)
  {
    assert InPlace(log, j);
    if i < j - 1 {
      OrderedAt(log, i, j - 1);
      BeforeIsTransitive(log[i].at, log[j - 1].at, log[j].at);
    }
  }

  lemma IdsAreDistinct(log: seq<Entry>, i: nat, j: nat)
    requires LogOk(log) && i < |log| && j < |log| && log[i].id == log[j].id
    ensures i == j
  {
    ProperAt(log, i);
    ProperAt(log, j);
    CompareIsTheOrder(log[i].at, log[j].at);
    if i < j {
      OrderedAt(log, i, j);
    } else if j < i {
      OrderedAt(log, j, i);
    }
  }

  lemma AllProper(log: seq<Entry>, lo: nat, hi: nat)
    requires LogOk(log) && lo <= hi <= |log|
    ensures forall i | 0 <= i < hi - lo :: Proper(log[lo..hi][i])
  {
    forall i | 0 <= i < hi - lo
      ensures Proper(log[lo..hi][i])
    {
      ProperAt(log, lo + i);
    }
  }

  lemma BeforeIsTransitive(a: StreamId, b: StreamId, c: StreamId)
    requires Before(a, b) && Before(b, c)
    ensures Before(a, c)
  {
  }

  lemma LogOkAppended(log: seq<Entry>, entry: Entry)
    requires LogOk(log) && Follows(log, entry)
    ensures LogOk(log + [entry])
  {
    var longer := log + [entry];
    forall i: nat | i < |longer|
      ensures InPlace(longer, i)
    {
      if i < |log| {
        assert InPlace(log, i);
      }
    }
  }

  lemma {:induction false} AllAfter(stream: seq<Entry>, position: StreamId)
    requires forall i | 0 <= i < |stream| :: Before(position, stream[i].at)
    ensures After(stream, position) == stream
  {
    if stream != [] {
      assert forall i | 0 <= i < |stream| - 1 :: stream[1..][i] == stream[i + 1];
      AllAfter(stream[1..], position);
    }
  }

  lemma {:induction false} NoneAfter(stream: seq<Entry>, position: StreamId)
    requires forall i | 0 <= i < |stream| :: !Before(position, stream[i].at)
    ensures After(stream, position) == []
  {
    if stream != [] {
      assert forall i | 0 <= i < |stream| - 1 :: stream[1..][i] == stream[i + 1];
      NoneAfter(stream[1..], position);
    }
  }

  lemma AfterCons(head: Entry, rest: seq<Entry>, position: StreamId)
    ensures After([head] + rest, position) == (if Before(position, head.at) then [head] else []) + After(rest, position)
  {
    assert ([head] + rest)[1..] == rest;
  }

  lemma {:induction false} AfterConcat(a: seq<Entry>, b: seq<Entry>, position: StreamId)
    ensures After(a + b, position) == After(a, position) + After(b, position)
  {
    if a == [] {
      assert a + b == b;
    } else {
      AfterConcat(a[1..], b, position);
      assert a == [a[0]] + a[1..];
      Regroup([a[0]], a[1..], b);
      AfterCons(a[0], a[1..] + b, position);
      AfterCons(a[0], a[1..], position);
      Regroup((if Before(position, a[0].at) then [a[0]] else []), After(a[1..], position), After(b, position));
    }
  }

  /** Behind the cursor of entry `k - 1` stand the entries from `k` on, and of a stretch those of them it holds. */
  lemma UnreadFrom(log: seq<Entry>, k: nat, lo: nat, hi: nat)
    requires LogOk(log) && 0 < k <= |log| && lo <= hi <= |log|
    ensures Unread(log[lo..hi], log[k - 1].id) == log[Cut(lo, hi, k)..hi]
  {
    var position := log[k - 1].at;
    var cut := Cut(lo, hi, k);
    ProperAt(log, k - 1);
    CompareIsTheOrder(position, position);
    CutInTwo(log, lo, cut, hi);
    AfterConcat(log[lo..cut], log[cut..hi], position);
    ReadBefore(log, k, lo, cut);
    UnreadBehind(log, k, cut, hi);
  }

  /** Where the stretch from `lo` to `hi` is cut by the entry `k`. */
  function Cut(lo: nat, hi: nat, k: nat): (cut: nat)
    requires lo <= hi
    ensures lo <= cut <= hi
  {
    if k <= lo then lo else if hi <= k then hi else k
  }

  lemma ReadBefore(log: seq<Entry>, k: nat, lo: nat, hi: nat)
    requires LogOk(log) && 0 < k <= |log| && lo <= hi <= |log| && (lo == hi || hi <= k)
    ensures After(log[lo..hi], log[k - 1].at) == []
  {
    forall i | 0 <= i < hi - lo
      ensures !Before(log[k - 1].at, log[lo..hi][i].at)
    {
      BeforeIsAsymmetric(log, lo + i, k - 1);
    }
    NoneAfter(log[lo..hi], log[k - 1].at);
  }

  lemma UnreadBehind(log: seq<Entry>, k: nat, lo: nat, hi: nat)
    requires LogOk(log) && 0 < k <= |log| && lo <= hi <= |log| && (lo == hi || k <= lo)
    ensures After(log[lo..hi], log[k - 1].at) == log[lo..hi]
  {
    AllBehind(log, k, lo, hi);
    AllAfter(log[lo..hi], log[k - 1].at);
  }

  lemma AllBehind(log: seq<Entry>, k: nat, lo: nat, hi: nat)
    requires LogOk(log) && 0 < k <= |log| && lo <= hi <= |log| && (lo == hi || k <= lo)
    ensures forall i | 0 <= i < hi - lo :: Before(log[k - 1].at, log[lo..hi][i].at)
  {
    forall i | 0 <= i < hi - lo
      ensures Before(log[k - 1].at, log[lo..hi][i].at)
    {
      OrderedAt(log, k - 1, lo + i);
    }
  }

  lemma BeforeIsAsymmetric(log: seq<Entry>, i: nat, j: nat)
    requires LogOk(log) && i <= j < |log|
    ensures !Before(log[j].at, log[i].at)
  {
    if i < j {
      OrderedAt(log, i, j);
    }
  }

  lemma UnreadFromTheStart(log: seq<Entry>, lo: nat)
    requires LogOk(log) && lo <= |log|
    ensures Unread(log[lo..], "0") == log[lo..]
  {
    PositionOfZero();
    AllProper(log, lo, |log|);
    ToTheEnd(log, lo);
    AllAfter(log[lo..], StreamId(0, 0));
  }

  lemma PositionOfZero()
    ensures PositionOf("0") == Some(StreamId(0, 0))
  {
    assert "0"[1..] == [];
    assert BeforeDash("0") == ['0'] + BeforeDash([]);
    assert BeforeDash("0") == "0";
    assert "0"[..0] == [];
  }

  // ---------------------------------------------------------------- frames on the wire

  function WireFrame(entry: Entry): ServerMessage
    requires Proper(entry)
  {
    TextFitsAFrame(entry.at);
    Data(Frame(Utf8(entry.id), entry.data))
  }

  lemma FrameOfProper(entry: Entry)
    requires Proper(entry)
    ensures FrameOf(entry) == [WireFrame(entry)]
  {
    TextFitsAFrame(entry.at);
  }

  /** Showing an entry's frame appends exactly its bytes and moves the resume position to it. */
  lemma ReceivedFrame(client: Client, entry: Entry)
    requires Proper(entry)
    ensures Received(client, WireFrame(entry))
         == client.(lastStreamId := Some(entry.id), screen := client.screen + entry.data)
  {
    TextFitsAFrame(entry.at);
    DecodeOfEncode(entry.id, entry.data);
  }

  /** The frames among the messages in flight. */
  function DataOf(messages: seq<ServerMessage>): seq<ServerMessage> {
    if messages == [] then [] else (if messages[0].Data? then [messages[0]] else []) + DataOf(messages[1..])
  }

  lemma DataOfCons(head: ServerMessage, rest: seq<ServerMessage>)
    ensures DataOf([head] + rest) == (if head.Data? then [head] else []) + DataOf(rest)
  {
    assert ([head] + rest)[1..] == rest;
  }

  lemma {:induction false} DataOfConcat(a: seq<ServerMessage>, b: seq<ServerMessage>)
    ensures DataOf(a + b) == DataOf(a) + DataOf(b)
  {
    if a == [] {
      assert a + b == b;
    } else {
      DataOfConcat(a[1..], b);
      assert a == [a[0]] + a[1..];
      Regroup([a[0]], a[1..], b);
      DataOfCons(a[0], a[1..] + b);
      DataOfCons(a[0], a[1..]);
      Regroup((if a[0].Data? then [a[0]] else []), DataOf(a[1..]), DataOf(b));
    }
  }

  lemma {:induction false} DataOfFrames(entries: seq<Entry>)
    requires forall i | 0 <= i < |entries| :: Proper(entries[i])
    ensures DataOf(FramesOf(entries)) == FramesOf(entries) && |FramesOf(entries)| == |entries|
    ensures forall i | 0 <= i < |entries| :: FramesOf(entries)[i] == WireFrame(entries[i])
  {
    if entries != [] {
      assert forall i | 0 <= i < |entries| - 1 :: entries[1..][i] == entries[i + 1];
      DataOfFrames(entries[1..]);
      FrameOfProper(entries[0]);
      DataOfConcat(FrameOf(entries[0]), FramesOf(entries[1..]));
      assert FrameOf(entries[0])[1..] == [];
    }
  }

  lemma FramesOfCons(head: Entry, rest: seq<Entry>)
    ensures FramesOf([head] + rest) == FrameOf(head) + FramesOf(rest)
  {
    assert ([head] + rest)[1..] == rest;
  }

  lemma {:induction false} FramesOfConcat(a: seq<Entry>, b: seq<Entry>)
    ensures FramesOf(a + b) == FramesOf(a) + FramesOf(b)
  {
    if a == [] {
      assert a + b == b;
    } else {
      FramesOfConcat(a[1..], b);
      assert a == [a[0]] + a[1..];
      Regroup([a[0]], a[1..], b);
      FramesOfCons(a[0], a[1..] + b);
      FramesOfCons(a[0], a[1..]);
      Regroup(FrameOf(a[0]), FramesOf(a[1..]), FramesOf(b));
    }
  }

  lemma BytesCons(head: Entry, rest: seq<Entry>)
    ensures Bytes([head] + rest) == head.data + Bytes(rest)
  {
    assert ([head] + rest)[1..] == rest;
  }

  lemma {:induction false} BytesOfConcat(a: seq<Entry>, b: seq<Entry>)
    ensures Bytes(a + b) == Bytes(a) + Bytes(b)
  {
    if a == [] {
      assert a + b == b;
    } else {
      BytesOfConcat(a[1..], b);
      assert a == [a[0]] + a[1..];
      Regroup([a[0]], a[1..], b);
      BytesCons(a[0], a[1..] + b);
      BytesCons(a[0], a[1..]);
      Regroup(a[0].data, Bytes(a[1..]), Bytes(b));
    }
  }

  lemma BytesOfOneMore(log: seq<Entry>, from: nat, k: nat)
    requires from <= k < |log|
    ensures Bytes(log[from..k + 1]) == Bytes(log[from..k]) + log[k].data
  {
    LastOf(log, from, k);
    BytesOfConcat(log[from..k], [log[k]]);
    assert [log[k]][1..] == [];
  }

  // ---------------------------------------------------------------- the invariant

  /** Where things stand: what is shown, the next entry in flight, the next entry the reader will read. */
  datatype Where = Where(from: nat, to: nat, next: nat, cursor: nat)

  /** The screen is the stretch from `from` to `to`, and the resume position is its end. */
  predicate Shows(client: Client, log: seq<Entry>, trimmed: nat, from: nat, to: nat) {
    && from <= to <= |log| && from <= trimmed
    && client.screen == Bytes(log[from..to])
    && client.lastStreamId == (if to == 0 then None else Some(log[to - 1].id))
  }

  predicate ReadyOnlyFirst(inFlight: seq<ServerMessage>) {
    forall i | 1 <= i < |inFlight| :: !inFlight[i].Ready?
  }

  predicate Clears(inFlight: seq<ServerMessage>) {
    inFlight != [] && inFlight[0] == Ready(true)
  }

  /** A reader at the start of the stream: nothing sent yet, and nothing shown that would not be cleared first. */
  predicate Fresh(client: Client, trimmed: nat, inFlight: seq<ServerMessage>, to: nat) {
    && DataOf(inFlight) == []
    && (Clears(inFlight) ==> to <= trimmed)
    && (Clears(inFlight) || client.screen == [])
  }

  /** What of a state a positioned reader's standing depends on. */
  datatype Setting = Setting(log: seq<Entry>, trimmed: nat, over: bool)

  function SettingOf(s: State): Setting {
    Setting(s.log, s.trimmed, s.over)
  }

  /** A reader at entry `w.cursor`, with the entries from `w.next` on in flight, which join up with what is shown. */
  predicate Underway(g: Setting, screen: seq<byte>, cursor: string, inFlight: seq<ServerMessage>, w: Where) {
    && w.next <= w.cursor <= |g.log| && 0 < w.cursor
    && cursor == g.log[w.cursor - 1].id
    && DataOf(inFlight) == FramesOf(g.log[w.next..w.cursor])
    && JoinsUp(g, screen, inFlight, w)
  }

  /**
   * The next entry in flight follows what is shown, or starts anew; the reader has not been overtaken; and something
   * is shown or about to be.
   */
  predicate JoinsUp(g: Setting, screen: seq<byte>, inFlight: seq<ServerMessage>, w: Where) {
    && (Clears(inFlight) ==> w.to <= g.trimmed)
    && (Clears(inFlight) || screen == [] || w.next == w.to)
    && (w.next == w.to || (w.next < w.cursor && w.next <= g.trimmed))
    && (g.trimmed <= w.cursor || Expired(g))
    && (w.next < w.cursor || (screen != [] && !Clears(inFlight)) || Expired(g))
  }

  /** A finished run's stream is gone. */
  predicate Expired(g: Setting) {
    g.over && g.trimmed == |g.log|
  }

  predicate LinkOk(s: State, w: Where) {
    match s.link
    case Down(_) => true
    case Opening => true
    case Greeted(hello) => hello == s.client.lastStreamId
    case Attached(cursor, inFlight) =>
      && ReadyOnlyFirst(inFlight)
      && if cursor == "0" then Fresh(s.client, s.trimmed, inFlight, w.to)
         else Underway(SettingOf(s), s.client.screen, cursor, inFlight, w)
  }

  /** What holds whatever the socket does. */
  predicate Standing(s: State, w: Where) {
    && LogOk(s.log)
    && s.trimmed <= |s.log| && (s.trimmed < |s.log| || s.log == [] || s.over)
    && Shows(s.client, s.log, s.trimmed, w.from, w.to)
    && s.client.attempts <= MAX_RECONNECTS
  }

  predicate Inv(s: State, w: Where) {
    Standing(s, w) && LinkOk(s, w)
  }

  // ---------------------------------------------------------------- every step keeps it

  lemma PublishKeepsInv(s: State, at: StreamId, data: seq<byte>, w: Where)
    requires Inv(s, w) && !s.over && data != [] && Issued(at) && (s.log != [] ==> Before(s.log[|s.log| - 1].at, at))
    ensures Inv(Published(s, at, data), w)
  {
    var entry := Entry(at, Text(at), data);
    LogOkAppended(s.log, entry);
    Untouched(s.log, entry, w.from, w.to);
    PublishKeepsLink(s, entry, w);
  }

  lemma PublishKeepsLink(s: State, entry: Entry, w: Where)
    requires Inv(s, w) && !s.over
    ensures LinkOk(s.(log := s.log + [entry]), w)
  {
    if s.link.Attached? && s.link.cursor != "0" {
      Untouched(s.log, entry, w.next, w.cursor);
    }
  }

  lemma TrimKeepsInv(s: State, upTo: nat, w: Where)
    requires Inv(s, w) && s.trimmed <= upTo <= |s.log| && (upTo < |s.log| || s.over)
    requires upTo < |s.log| && s.link.Attached? && s.link.cursor != "0"
             ==> Unread(s.log[s.trimmed..upTo], s.link.cursor) == []
    ensures Inv(Trimmed(s, upTo), w)
  {
    if s.link.Attached? && s.link.cursor != "0" {
      TrimKeepsUnderway(SettingOf(s), upTo, s.client.screen, s.link.cursor, s.link.inFlight, w);
    }
    TrimKeepsLink(s, upTo, w);
  }

  lemma TrimKeepsLink(s: State, upTo: nat, w: Where)
    requires LinkOk(s, w) && s.trimmed <= upTo
    requires s.link.Attached? && s.link.cursor != "0" ==>
      Underway(SettingOf(s).(trimmed := upTo), s.client.screen, s.link.cursor, s.link.inFlight, w)
    ensures LinkOk(s.(trimmed := upTo), w)
  {
    assert SettingOf(s.(trimmed := upTo)) == SettingOf(s).(trimmed := upTo);
  }

  lemma TrimKeepsUnderway(
      g: Setting, upTo: nat, screen: seq<byte>, cursor: string, inFlight: seq<ServerMessage>, w: Where)
    requires LogOk(g.log) && Underway(g, screen, cursor, inFlight, w)
    requires g.trimmed <= upTo <= |g.log| && (upTo < |g.log| || g.over)
    requires upTo < |g.log| ==> Unread(g.log[g.trimmed..upTo], cursor) == []
    ensures Underway(g.(trimmed := upTo), screen, cursor, inFlight, w)
  {
    if upTo < |g.log| {
      UnreadFrom(g.log, w.cursor, g.trimmed, upTo);
      EmptyStretch(g.log, Cut(g.trimmed, upTo, w.cursor), upTo);
    }
  }

  /** A client whose position the stream has trimmed past is told to clear; one whose position it holds is not. */
  lemma PositionedAt(log: seq<Entry>, trimmed: nat, to: nat)
    requires LogOk(log) && trimmed <= |log| && 0 < to <= |log|
    ensures Positioned(Some(log[to - 1].id), Oldest(log[trimmed..]))
         == if to <= trimmed < |log| then ("0", true) else (log[to - 1].id, false)
    ensures log[to - 1].id != "0"
  {
    var last := log[to - 1];
    ProperAt(log, to - 1);
    TextFitsAFrame(last.at);
    if trimmed < |log| {
      var oldest := log[trimmed];
      assert log[trimmed..][0] == oldest;
      ProperAt(log, trimmed);
      CompareIsTheOrder(oldest.at, last.at);
      if trimmed < to {
        BeforeIsAsymmetric(log, trimmed, to - 1);
      } else {
        OrderedAt(log, to - 1, trimmed);
      }
    }
  }

  lemma ServeKeepsInv(s: State, w: Where) returns (v: Where)
    requires Inv(s, w) && s.link.Greeted?
    ensures Inv(Served(s), v)
  {
    v := w.(next := w.to, cursor := w.to);
    if w.to > 0 {
      PositionedAt(s.log, s.trimmed, w.to);
      if w.to <= s.trimmed < |s.log| {
        AttachedFromTheStart(s, w, true);
      } else {
        AttachedAtPosition(s, w);
      }
    } else {
      AttachedFromTheStart(s, w, false);
    }
  }

  lemma AttachedFromTheStart(s: State, w: Where, replayGap: bool)
    requires Inv(s, w) && (if replayGap then w.to <= s.trimmed else w.to == 0)
    ensures Inv(s.(link := Attached("0", [Ready(replayGap)])), w.(next := w.to, cursor := w.to))
  {
    DataOfCons(Ready(replayGap), []);
    assert [Ready(replayGap)] + [] == [Ready(replayGap)];
    Nothing(s.log, w.from);
  }

  lemma AttachedAtPosition(s: State, w: Where)
    requires Inv(s, w) && 0 < w.to && (s.trimmed < w.to || s.trimmed == |s.log|)
    ensures Inv(s.(link := Attached(s.log[w.to - 1].id, [Ready(false)])), w.(next := w.to, cursor := w.to))
  {
    IdIsNotTheStart(s.log, w.to - 1);
    if s.trimmed < w.to {
      SomethingIsShown(s.log, w.from, w.to);
    }
    DataOfCons(Ready(false), []);
    assert [Ready(false)] + [] == [Ready(false)];
    Nothing(s.log, w.to);
    LinkIsAttached(s, s.log[w.to - 1].id, [Ready(false)], w.(next := w.to, cursor := w.to));
  }

  lemma SomethingIsShown(log: seq<Entry>, from: nat, to: nat)
    requires LogOk(log) && from < to <= |log|
    ensures Bytes(log[from..to]) != []
  {
    ProperAt(log, from);
    FirstOf(log, from, to);
    BytesCons(log[from], log[from + 1..to]);
  }

  lemma IdIsNotTheStart(log: seq<Entry>, i: nat)
    requires LogOk(log) && i < |log|
    ensures log[i].id != "0"
  {
    ProperAt(log, i);
    TextFitsAFrame(log[i].at);
  }

  lemma ReadFromTheStartKeepsInv(s: State, w: Where) returns (v: Where)
    requires Standing(s, w) && s.link.Attached? && s.trimmed < |s.log|
    requires ReadyOnlyFirst(s.link.inFlight) && Fresh(s.client, s.trimmed, s.link.inFlight, w.to)
    ensures Inv(AfterRead(s, s.trimmed), v)
  {
    v := w.(next := s.trimmed, cursor := |s.log|);
    UnderwayFromTheStart(s, w, v);
    PumpedIsInv(s, s.trimmed, w, v);
  }

  /** The entries from `lo` on are in flight behind what was, and the reader stands at the end. */
  predicate UnderwayAfterRead(s: State, lo: nat, v: Where)
    requires s.link.Attached? && lo < |s.log|
  {
    Underway(SettingOf(s), s.client.screen, s.log[|s.log| - 1].id, s.link.inFlight + FramesOf(s.log[lo..]), v)
  }

  /** The reader stands at the end, and the entries from `lo` on are in flight. */
  function AfterRead(s: State, lo: nat): State
    requires s.link.Attached? && lo < |s.log|
  {
    s.(link := Attached(s.log[|s.log| - 1].id, s.link.inFlight + FramesOf(s.log[lo..])))
  }

  lemma PumpedIsInv(s: State, lo: nat, w: Where, v: Where)
    requires Standing(s, w) && s.link.Attached? && ReadyOnlyFirst(s.link.inFlight) && lo < |s.log|
    requires v.from == w.from && v.to == w.to
    requires UnderwayAfterRead(s, lo, v)
    ensures Inv(AfterRead(s, lo), v)
  {
    IdIsNotTheStart(s.log, |s.log| - 1);
    ReadyStaysFirst(s.log, s.link.inFlight, lo);
    PumpedIsStanding(s, lo, w, v);
    assert LinkOk(AfterRead(s, lo), v);
  }

  lemma PumpedIsStanding(s: State, lo: nat, w: Where, v: Where)
    requires Standing(s, w) && s.link.Attached? && lo < |s.log| && v.from == w.from && v.to == w.to
    ensures Standing(AfterRead(s, lo), v)
  {
  }

  lemma ReadyStaysFirst(log: seq<Entry>, inFlight: seq<ServerMessage>, lo: nat)
    requires LogOk(log) && lo <= |log| && ReadyOnlyFirst(inFlight)
    ensures ReadyOnlyFirst(inFlight + FramesOf(log[lo..]))
  {
    FramesAppended(log, inFlight, lo);
  }

  lemma PumpedLink(s: State, lo: nat)
    requires s.link.Attached? && lo < |s.log|
    ensures s.log[lo..] != [] && Pumped(s, s.log[lo..]) == AfterRead(s, lo)
  {
    LastOfRest(s.log, lo);
  }

  lemma AttachedIsInv(s: State, cursor: string, inFlight: seq<ServerMessage>, w: Where, v: Where)
    requires Standing(s, w) && v.from == w.from && v.to == w.to
    requires ReadyOnlyFirst(inFlight) && cursor != "0"
    requires Underway(SettingOf(s), s.client.screen, cursor, inFlight, v)
    ensures Inv(s.(link := Attached(cursor, inFlight)), v)
  {
    LinkIsAttached(s, cursor, inFlight, v);
  }

  lemma LinkIsAttached(s: State, cursor: string, inFlight: seq<ServerMessage>, v: Where)
    requires ReadyOnlyFirst(inFlight) && cursor != "0"
    requires Underway(SettingOf(s), s.client.screen, cursor, inFlight, v)
    ensures LinkOk(s.(link := Attached(cursor, inFlight)), v)
  {
    assert SettingOf(s.(link := Attached(cursor, inFlight))) == SettingOf(s);
  }

  lemma UnderwayFromTheStart(s: State, w: Where, v: Where)
    requires LogOk(s.log) && s.trimmed < |s.log| && s.link.Attached? && v == w.(next := s.trimmed, cursor := |s.log|)
    requires Fresh(s.client, s.trimmed, s.link.inFlight, w.to)
    ensures UnderwayAfterRead(s, s.trimmed, v)
  {
    FramesAppended(s.log, s.link.inFlight, s.trimmed);
    ToTheEnd(s.log, s.trimmed);
  }

  lemma ReadFurtherKeepsInv(s: State, w: Where) returns (v: Where)
    requires Standing(s, w) && s.link.Attached? && w.cursor < |s.log| && ReadyOnlyFirst(s.link.inFlight)
    requires Underway(SettingOf(s), s.client.screen, s.link.cursor, s.link.inFlight, w)
    ensures Inv(AfterRead(s, w.cursor), v)
  {
    v := w.(cursor := |s.log|);
    UnderwayFurther(s, w, v);
    PumpedIsInv(s, w.cursor, w, v);
  }

  lemma UnderwayFurther(s: State, w: Where, v: Where)
    requires LogOk(s.log) && s.trimmed <= |s.log| && s.link.Attached? && w.cursor < |s.log|
             && v == w.(cursor := |s.log|)
    requires Underway(SettingOf(s), s.client.screen, s.link.cursor, s.link.inFlight, w)
    ensures UnderwayAfterRead(s, w.cursor, v)
  {
    var inFlight, more := s.link.inFlight, FramesOf(s.log[w.cursor..]);
    FramesAppended(s.log, inFlight, w.cursor);
    FramesJoined(s.log, w.next, w.cursor);
    UnderwayToTheEnd(SettingOf(s), s.client.screen, s.link.cursor, inFlight, w, inFlight + more, v);
  }

  lemma UnderwayToTheEnd(
      g: Setting, screen: seq<byte>, cursor: string, inFlight: seq<ServerMessage>, w: Where,
      flying: seq<ServerMessage>, v: Where)
    requires Underway(g, screen, cursor, inFlight, w) && w.cursor < |g.log| && v == w.(cursor := |g.log|)
    requires DataOf(flying) == FramesOf(g.log[w.next..|g.log|]) && (Clears(flying) <==> Clears(inFlight))
    ensures Underway(g, screen, g.log[|g.log| - 1].id, flying, v)
  {
  }

  /** Where what is unread begins. */
  function UnreadStart(s: State, w: Where): nat
    requires s.link.Attached?
  {
    if s.link.cursor == "0" then s.trimmed else w.cursor
  }

  lemma UnreadOf(s: State, w: Where)
    requires Inv(s, w) && s.link.Attached? && Unread(Stream(s), s.link.cursor) != []
    ensures UnreadStart(s, w) < |s.log| && Unread(Stream(s), s.link.cursor) == s.log[UnreadStart(s, w)..]
  {
    if s.link.cursor == "0" {
      UnreadIsEverything(s.log, s.trimmed, s.link.cursor);
    } else {
      CursorStands(s, w);
      UnreadIsTheRest(s.log, s.trimmed, w.cursor, s.link.cursor);
    }
  }

  lemma CursorStands(s: State, w: Where)
    requires Inv(s, w) && s.link.Attached? && s.link.cursor != "0"
    ensures 0 < w.cursor <= |s.log| && s.link.cursor == s.log[w.cursor - 1].id
    ensures s.trimmed <= w.cursor || s.trimmed == |s.log|
  {
    assert LinkOk(s, w);
    UnderwayStands(SettingOf(s), s.client.screen, s.link.cursor, s.link.inFlight, w);
  }

  lemma UnderwayStands(g: Setting, screen: seq<byte>, cursor: string, inFlight: seq<ServerMessage>, w: Where)
    requires Underway(g, screen, cursor, inFlight, w)
    ensures 0 < w.cursor <= |g.log| && cursor == g.log[w.cursor - 1].id
    ensures g.trimmed <= w.cursor || g.trimmed == |g.log|
  {
  }

  lemma ReadKeepsInv(s: State, w: Where) returns (v: Where)
    requires Inv(s, w) && s.link.Attached? && Unread(Stream(s), s.link.cursor) != []
    ensures Inv(Pumped(s, Unread(Stream(s), s.link.cursor)), v)
  {
    UnreadOf(s, w);
    PumpedLink(s, UnreadStart(s, w));
    v := PumpKeepsInv(s, UnreadStart(s, w), w);
  }

  lemma PumpKeepsInv(s: State, lo: nat, w: Where) returns (v: Where)
    requires Inv(s, w) && s.link.Attached? && lo < |s.log|
    requires lo == UnreadStart(s, w)
    ensures Inv(AfterRead(s, lo), v)
  {
    if s.link.cursor == "0" {
      v := ReadFromTheStartKeepsInv(s, w);
    } else {
      v := ReadFurtherKeepsInv(s, w);
    }
  }

  lemma UnreadIsEverything(log: seq<Entry>, trimmed: nat, cursor: string)
    requires LogOk(log) && trimmed <= |log| && cursor == "0"
    requires Unread(log[trimmed..], cursor) != []
    ensures trimmed < |log| && Unread(log[trimmed..], cursor) == log[trimmed..]
  {
    UnreadFromTheStart(log, trimmed);
  }

  lemma UnreadIsTheRest(log: seq<Entry>, trimmed: nat, k: nat, cursor: string)
    requires LogOk(log) && trimmed <= |log| && 0 < k <= |log| && cursor == log[k - 1].id
    requires Unread(log[trimmed..], cursor) != [] && (trimmed <= k || trimmed == |log|)
    ensures k < |log| && Unread(log[trimmed..], cursor) == log[k..]
  {
    UnreadFrom(log, k, trimmed, |log|);
    ToTheEnd(log, trimmed);
    EmptyStretch(log, Cut(trimmed, |log|, k), |log|);
    ToTheEnd(log, k);
  }

  lemma FramesJoined(log: seq<Entry>, next: nat, cursor: nat)
    requires next <= cursor <= |log|
    ensures FramesOf(log[next..cursor]) + FramesOf(log[cursor..]) == FramesOf(log[next..|log|])
  {
    CutInTwo(log, next, cursor, |log|);
    ToTheEnd(log, cursor);
    FramesOfConcat(log[next..cursor], log[cursor..]);
  }

  lemma FramesAppended(log: seq<Entry>, inFlight: seq<ServerMessage>, lo: nat)
    requires LogOk(log) && lo <= |log|
    ensures DataOf(inFlight + FramesOf(log[lo..])) == DataOf(inFlight) + FramesOf(log[lo..])
    ensures ReadyOnlyFirst(inFlight) ==> ReadyOnlyFirst(inFlight + FramesOf(log[lo..]))
    ensures Clears(inFlight + FramesOf(log[lo..])) <==> Clears(inFlight)
  {
    AllProper(log, lo, |log|);
    ToTheEnd(log, lo);
    DataOfFrames(log[lo..]);
    DataOfConcat(inFlight, FramesOf(log[lo..]));
  }

  lemma SideMessageKeepsInv(s: State, message: ServerMessage, w: Where)
    requires Inv(s, w) && s.link.Attached? && (message.Status? || message.End?)
    ensures Inv(Sent(s, message), w)
  {
    DataOfConcat(s.link.inFlight, [message]);
    assert [message][1..] == [];
  }

  lemma DeliverKeepsInv(s: State, w: Where) returns (v: Where)
    requires Inv(s, w) && s.link.Attached? && s.link.inFlight != []
    ensures Inv(Delivered(s), v)
  {
    if s.link.inFlight[0].Data? {
      v := DeliverFrame(s, w);
    } else {
      v := DeliverOther(s, w);
    }
  }

  lemma RestInFlight(inFlight: seq<ServerMessage>)
    requires inFlight != [] && ReadyOnlyFirst(inFlight)
    ensures ReadyOnlyFirst(inFlight[1..]) && !Clears(inFlight[1..])
    ensures DataOf(inFlight) == (if inFlight[0].Data? then [inFlight[0]] else []) + DataOf(inFlight[1..])
  {
    var rest := inFlight[1..];
    assert forall i | 0 <= i < |rest| :: rest[i] == inFlight[i + 1];
  }

  /** What is shown, after a message that is no frame: cleared or as it was. */
  lemma ShowsAfterOther(s: State, inFlight: seq<ServerMessage>, w: Where) returns (v: Where)
    requires inFlight != [] && !inFlight[0].Data? && Shows(s.client, s.log, s.trimmed, w.from, w.to)
    requires Clears(inFlight) ==> w.to <= s.trimmed
    ensures v == if Clears(inFlight) then w.(from := w.to) else w
    ensures Shows(Received(s.client, inFlight[0]), s.log, s.trimmed, v.from, v.to)
    ensures Received(s.client, inFlight[0]).screen == if Clears(inFlight) then [] else s.client.screen
  {
    v := if Clears(inFlight) then w.(from := w.to) else w;
    Nothing(s.log, w.to);
  }

  lemma LinkAfterOther(s: State, w: Where, v: Where)
    requires LinkOk(s, w) && s.link.Attached? && s.link.inFlight != [] && !s.link.inFlight[0].Data?
    requires v == if Clears(s.link.inFlight) then w.(from := w.to) else w
    ensures LinkOk(Delivered(s), v)
  {
    var inFlight := s.link.inFlight;
    var after := s.(client := Received(s.client, inFlight[0]));
    RestInFlight(inFlight);
    if s.link.cursor != "0" {
      UnderwayAfterOther(SettingOf(s), s.client.screen, s.link.cursor, inFlight, w, after.client.screen, v);
      LinkIsAttached(after, s.link.cursor, inFlight[1..], v);
    }
  }

  lemma DeliverOther(s: State, w: Where) returns (v: Where)
    requires Inv(s, w) && s.link.Attached? && s.link.inFlight != [] && !s.link.inFlight[0].Data?
    ensures Inv(Delivered(s), v)
  {
    v := ShowsAfterOther(s, s.link.inFlight, w);
    LinkAfterOther(s, w, v);
  }

  lemma UnderwayAfterOther(
      g: Setting, screen: seq<byte>, cursor: string, inFlight: seq<ServerMessage>, w: Where, shown: seq<byte>, v: Where)
    requires Underway(g, screen, cursor, inFlight, w)
    requires inFlight != [] && !inFlight[0].Data? && ReadyOnlyFirst(inFlight)
    requires shown == if Clears(inFlight) then [] else screen
    requires v == w.(from := v.from)
    ensures Underway(g, shown, cursor, inFlight[1..], v)
  {
    RestInFlight(inFlight);
  }

  lemma DeliverFrame(s: State, w: Where) returns (v: Where)
    requires Inv(s, w) && s.link.Attached? && s.link.inFlight != [] && s.link.inFlight[0].Data?
    ensures Inv(Delivered(s), v)
  {
    var inFlight := s.link.inFlight;
    RestInFlight(inFlight);
    assert s.link.cursor != "0";
    HeadIsNext(SettingOf(s), s.client.screen, s.link.cursor, inFlight, w);
    var entry := s.log[w.next];
    ReceivedFrame(s.client, entry);
    v := FrameShown(s.log, s.client, s.trimmed, entry, w);
    UnderwayAfterFrame(SettingOf(s), s.client.screen, s.link.cursor, inFlight, w, s.client.screen + entry.data, v);
  }

  lemma UnderwayAfterFrame(
      g: Setting, screen: seq<byte>, cursor: string, inFlight: seq<ServerMessage>, w: Where, shown: seq<byte>, v: Where)
    requires LogOk(g.log) && Underway(g, screen, cursor, inFlight, w)
    requires inFlight != [] && inFlight[0].Data? && ReadyOnlyFirst(inFlight)
    requires v.to == v.next == w.next + 1 && v.cursor == w.cursor && shown != []
    ensures Underway(g, shown, cursor, inFlight[1..], v)
  {
    RestInFlight(inFlight);
    HeadIsNext(g, screen, cursor, inFlight, w);
  }

  /** The first frame in flight is that of the next entry, and the rest are those of the entries behind it. */
  lemma HeadIsNext(g: Setting, screen: seq<byte>, cursor: string, inFlight: seq<ServerMessage>, w: Where)
    requires LogOk(g.log) && Underway(g, screen, cursor, inFlight, w) && inFlight != [] && inFlight[0].Data?
    ensures w.next < w.cursor && Proper(g.log[w.next]) && inFlight[0] == WireFrame(g.log[w.next])
    ensures DataOf(inFlight[1..]) == FramesOf(g.log[w.next + 1..w.cursor])
    ensures screen == [] || w.next == w.to
  {
    var message, rest := inFlight[0], inFlight[1..];
    DataOfCons(message, rest);
    assert inFlight == [message] + rest;
    StretchOfFrames(g.log, w.next, w.cursor);
    FramesHead(g.log, w.next, w.cursor);
    SameHead(message, DataOf(rest), WireFrame(g.log[w.next]), FramesOf(g.log[w.next + 1..w.cursor]));
  }

  lemma StretchOfFrames(log: seq<Entry>, from: nat, to: nat)
    requires from <= to <= |log| && FramesOf(log[from..to]) != []
    ensures from < to
  {
  }

  lemma SameHead<T>(x: T, xs: seq<T>, y: T, ys: seq<T>)
    requires [x] + xs == [y] + ys
    ensures x == y && xs == ys
  {
    assert ([x] + xs)[0] == x && ([x] + xs)[1..] == xs;
    assert ([y] + ys)[0] == y && ([y] + ys)[1..] == ys;
  }

  /** Appending the next entry's bytes to what is shown gives the stretch one longer, or the one that starts there. */
  lemma FrameShown(log: seq<Entry>, client: Client, trimmed: nat, entry: Entry, w: Where) returns (v: Where)
    requires LogOk(log) && Shows(client, log, trimmed, w.from, w.to)
    requires w.next < |log| && entry == log[w.next]
    requires client.screen == [] || w.next == w.to
    requires w.next == w.to || w.next <= trimmed
    ensures v ==
            Where(if client.screen == [] && w.next != w.to then w.next else w.from, w.next + 1, w.next + 1, w.cursor)
    ensures Shows(
      client.(lastStreamId := Some(entry.id), screen := client.screen + entry.data), log, trimmed, v.from, v.to)
  {
    v := Where(if client.screen == [] && w.next != w.to then w.next else w.from, w.next + 1, w.next + 1, w.cursor);
    Nothing(log, w.next);
    BytesOfOneMore(log, v.from, w.next);
  }

  lemma FramesHead(log: seq<Entry>, next: nat, cursor: nat)
    requires LogOk(log) && next < cursor <= |log|
    ensures Proper(log[next])
    ensures FramesOf(log[next..cursor]) == [WireFrame(log[next])] + FramesOf(log[next + 1..cursor])
  {
    ProperAt(log, next);
    FirstOf(log, next, cursor);
    FramesOfCons(log[next], log[next + 1..cursor]);
    FrameOfProper(log[next]);
  }

  lemma StepKeepsInv(s: State, step: Step, w: Where) returns (v: Where)
    requires Inv(s, w) && Enabled(s, step) && !Overtakes(s, step)
    ensures Inv(Next(s, step), v)
  {
    v := w;
    match step
    case Publish(at, data) => PublishKeepsInv(s, at, data, w);
    case PublishingOver =>
    case Trim(upTo) => TrimKeepsInv(s, upTo, w);
    case Retry =>
    case Open =>
    case Serve => v := ServeKeepsInv(s, w);
    case Read => v := ReadKeepsInv(s, w);
    case Tell => SideMessageKeepsInv(s, Status, w);
    case Finish => SideMessageKeepsInv(s, End, w);
    case Deliver => v := DeliverKeepsInv(s, w);
    case Drop =>
  }

  // ---------------------------------------------------------------- over every run

  lemma {:induction false} RunKeepsInv(s: State, steps: seq<Step>, w: Where) returns (v: Where)
    requires Inv(s, w) && Runs(s, steps) && NeverOvertakes(s, steps)
    ensures Inv(Final(s, steps), v)
    decreases |steps|
  {
    if steps == [] {
      v := w;
    } else {
      v := StepKeepsInv(s, steps[0], w);
      v := RunKeepsInv(Next(s, steps[0]), steps[1..], v);
    }
  }

  lemma InitialIsInv()
    ensures Inv(INITIAL, Where(0, 0, 0, 0))
  {
  }

  /** The screen shows the stretch of the log from `from` to `to`, and the resume position is its last entry. */
  predicate ShowsStretch(s: State, from: nat, to: nat) {
    && from <= to <= |s.log|
    && s.client.screen == Bytes(s.log[from..to])
    && s.client.lastStreamId == (if to == 0 then None else Some(s.log[to - 1].id))
  }

  /**
   * Resume contiguity: after any sequence of publishes, trims, connects, drops and replays in which no trim overtakes a
   * positioned reader that has more to read, the screen is exactly a contiguous stretch of the published log ending at
   * the resume position: nothing twice, nothing missing in the middle.
   */
  lemma ScreenIsAContiguousStretch(steps: seq<Step>)
    requires Runs(INITIAL, steps) && NeverOvertakes(INITIAL, steps)
    ensures exists from: nat, to: nat ::
              ShowsStretch(Final(INITIAL, steps), from, to) && from <= Final(INITIAL, steps).trimmed
  {
    InitialIsInv();
    var w := RunKeepsInv(INITIAL, steps, Where(0, 0, 0, 0));
    InvShows(Final(INITIAL, steps), w);
  }

  /** A reload mid-run loses nothing: with an untrimmed stream the screen is everything up to the resume position. */
  lemma NothingIsLostUntrimmed(steps: seq<Step>)
    requires Runs(INITIAL, steps) && NeverOvertakes(INITIAL, steps) && Final(INITIAL, steps).trimmed == 0
    ensures exists to: nat :: ShowsStretch(Final(INITIAL, steps), 0, to)
  {
    ScreenIsAContiguousStretch(steps);
    var from: nat, to: nat :| ShowsStretch(Final(INITIAL, steps), from, to) && from <= Final(INITIAL, steps).trimmed;
  }

  /** A reader that has sent everything, over a socket that has delivered everything. */
  predicate CaughtUp(s: State) {
    && s.trimmed <= |s.log| && s.link.Attached? && s.link.inFlight == []
    && s.link.cursor != "0" && Unread(Stream(s), s.link.cursor) == []
  }

  lemma InvShows(s: State, w: Where)
    requires Inv(s, w)
    ensures ShowsStretch(s, w.from, w.to) && w.from <= s.trimmed
  {
  }

  lemma AllDelivered(s: State, w: Where)
    requires Inv(s, w) && CaughtUp(s) && s.trimmed < |s.log|
    ensures w.to == |s.log|
  {
    StretchOfNone(s.log, w.next, w.cursor);
    NothingUnread(s.log, s.trimmed, w.cursor, s.link.cursor);
  }

  lemma NothingUnread(log: seq<Entry>, trimmed: nat, k: nat, cursor: string)
    requires LogOk(log) && trimmed < |log| && 0 < k <= |log| && cursor == log[k - 1].id
    requires Unread(log[trimmed..], cursor) == [] && trimmed <= k
    ensures k == |log|
  {
    UnreadFrom(log, k, trimmed, |log|);
    ToTheEnd(log, trimmed);
    EmptyStretch(log, Cut(trimmed, |log|, k), |log|);
  }

  lemma StretchOfNone(log: seq<Entry>, from: nat, to: nat)
    requires LogOk(log) && from <= to <= |log| && FramesOf(log[from..to]) == []
    ensures from == to
  {
    AllProper(log, from, to);
    DataOfFrames(log[from..to]);
  }

  /** Once a replay has caught up, the screen ends where the log ends, as long as the stream holds anything at all. */
  lemma CaughtUpShowsTheEnd(steps: seq<Step>)
    requires Runs(INITIAL, steps) && NeverOvertakes(INITIAL, steps)
    requires CaughtUp(Final(INITIAL, steps)) && Final(INITIAL, steps).trimmed < |Final(INITIAL, steps).log|
    ensures exists from: nat :: ShowsStretch(Final(INITIAL, steps), from, |Final(INITIAL, steps).log|)
  {
    var s := Final(INITIAL, steps);
    InitialIsInv();
    var w := RunKeepsInv(INITIAL, steps, Where(0, 0, 0, 0));
    AllDelivered(s, w);
    InvShows(s, w);
  }
}
