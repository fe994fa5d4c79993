/** The three programs of the terminal stream, each against the functions the transition system is made of. */
module TerminalParts {
  import opened Options
  import opened Sequences
  import opened Octets
  import opened Frames
  import opened StreamIds
  import opened TerminalStream

  // ---------------------------------------------------------------- the publisher

  /** What a chain of appends leaves in the stream: the chunks in order, those whose append failed left out. */
  function Appended(chunks: seq<seq<byte>>, results: seq<Option<StreamId>>): seq<Entry>
    requires |results| == |chunks|
  {
    if chunks == [] then [] else AppendedOne(chunks[0], results[0]) + Appended(chunks[1..], results[1..])
  }

  function AppendedOne(chunk: seq<byte>, result: Option<StreamId>): seq<Entry> {
    match result
    case Some(at) => [Entry(at, Text(at), chunk)]
    case None => []
  }

  lemma BytesAfterOne(chunk: seq<byte>, result: Option<StreamId>, rest: seq<Entry>)
    ensures Bytes(AppendedOne(chunk, result) + rest) == (if result.Some? then chunk else []) + Bytes(rest)
  {
    if result.Some? {
      assert (AppendedOne(chunk, result) + rest)[1..] == rest;
    } else {
      assert AppendedOne(chunk, result) + rest == rest;
    }
  }

  lemma {:induction false} AppendedIsNoLonger(chunks: seq<seq<byte>>, results: seq<Option<StreamId>>)
    requires |results| == |chunks| && NoneEmpty(chunks)
    ensures |Bytes(Appended(chunks, results))| <= |Concat(chunks)|
    ensures |Bytes(Appended(chunks, results))| == |Concat(chunks)| ==> None !in results
    ensures None !in results ==> Bytes(Appended(chunks, results)) == Concat(chunks)
  {
    if chunks != [] {
      assert forall i | 0 <= i < |chunks| - 1 :: chunks[1..][i] == chunks[i + 1];
      AppendedIsNoLonger(chunks[1..], results[1..]);
      assert results == [results[0]] + results[1..];
      BytesAfterOne(chunks[0], results[0], Appended(chunks[1..], results[1..]));
    }
  }

  /** The stream holds exactly the bytes the pseudo-terminal wrote, in order, exactly when no append failed. */
  lemma NothingMissingExactlyWhen(chunks: seq<seq<byte>>, results: seq<Option<StreamId>>)
    requires |results| == |chunks| && NoneEmpty(chunks)
    ensures Bytes(Appended(chunks, results)) == Concat(chunks) <==> None !in results
  {
    AppendedIsNoLonger(chunks, results);
  }

  class StreamPublisher {
    /** The chunks whose appends are still chained up. */
    var chained: seq<seq<byte>>
    var latestId: Option<string>
    var failed: bool
    /** The run's stream, as far as this publisher wrote it. */
    var stream: seq<Entry>

    constructor ()
      ensures chained == [] && latestId == None && !failed && stream == []
    {
      chained, latestId, failed, stream := [], None, false, [];
    }

    method Publish(chunk: seq<byte>)
      modifies this
      ensures chained == if chunk == [] then old(chained) else old(chained) + [chunk]
      ensures stream == old(stream) && latestId == old(latestId) && failed == old(failed)
    {
      if chunk == [] {
        return;
      }
      chained := chained + [chunk];
    }

    /** One append of the chain: `result` is the id `XADD` answered with, none where it failed. */
    method Append(result: Option<StreamId>)
      requires chained != []
      modifies this
      ensures chained == old(chained)[1..]
      ensures stream == old(stream) + AppendedOne(old(chained)[0], result)
      ensures latestId == if result.Some? then Some(Text(result.value)) else old(latestId)
      ensures failed == (old(failed) || result.None?)
    {
      if result.Some? {
        stream := stream + [Entry(result.value, Text(result.value), chained[0])];
        latestId := Some(Text(result.value));
      } else {
        failed := true;
      }
      chained := chained[1..];
    }

    /** Waits for everything queued so far: the chain runs to its end, in order, whatever the single appends answer. */
    method Flush(results: seq<Option<StreamId>>)
      requires |results| == |chained|
      modifies this
      ensures chained == []
      ensures stream == old(stream) + Appended(old(chained), results)
      ensures failed == (old(failed) || None in results)
      ensures latestId == LatestId(old(latestId), results)
    {
      ghost var all, before := chained, stream;
      var k := 0;
      while chained != []
        invariant 0 <= k <= |results| && chained == all[k..]
        invariant stream == before + Appended(all[..k], results[..k])
        invariant failed == (old(failed) || None in results[..k])
        invariant latestId == LatestId(old(latestId), results[..k])
        decreases |chained|
      {
        AppendedOneMore(all[..k], results[..k], all[k], results[k]);
        TakeOneMore(all, k);
        TakeOneMore(results, k);
        Append(results[k]);
        k := k + 1;
      }
      assert all[..k] == all && results[..k] == results;
    }
  }

  function LatestId(before: Option<string>, results: seq<Option<StreamId>>): Option<string> {
    if results == [] then before
    else
      var last := results[|results| - 1];
      if last.Some? then Some(Text(last.value)) else LatestId(before, results[..|results| - 1])
  }

  /** The id of the last append that went through, or the one before where none of these did. */
  lemma {:induction false} LatestIdIsTheLast(before: Option<string>, results: seq<Option<StreamId>>, n: nat)
    requires n <= |results| && forall m | n <= m < |results| :: results[m].None?
    requires n > 0 ==> results[n - 1].Some?
    ensures LatestId(before, results) == if n == 0 then before else Some(Text(results[n - 1].value))
    decreases |results|
  {
    if n < |results| {
      LatestIdIsTheLast(before, results[..|results| - 1], n);
    }
  }

  lemma {:induction false} AppendedOneMore(
      chunks: seq<seq<byte>>, results: seq<Option<StreamId>>, chunk: seq<byte>, result: Option<StreamId>)
    requires |results| == |chunks|
    ensures Appended(chunks + [chunk], results + [result]) == Appended(chunks, results) + AppendedOne(chunk, result)
  {
    if chunks == [] {
      assert chunks + [chunk] == [chunk] && results + [result] == [result];
      assert AppendedOne(chunk, result) + [] == AppendedOne(chunk, result);
    } else {
      AppendedOneMore(chunks[1..], results[1..], chunk, result);
      assert (chunks + [chunk])[1..] == chunks[1..] + [chunk] && (results + [result])[1..] == results[1..] + [result];
      Regroup(AppendedOne(chunks[0], results[0]), Appended(chunks[1..], results[1..]), AppendedOne(chunk, result));
    }
  }

  // ---------------------------------------------------------------- the gateway

  lemma FramesFrom(entries: seq<Entry>, i: nat)
    requires i < |entries|
    ensures FramesOf(entries[i..]) == FrameOf(entries[i]) + FramesOf(entries[i + 1..])
  {
    assert entries[i..][1..] == entries[i + 1..];
  }

  /** A client that holds nothing, or cannot say what it holds, is told of no gap; the first gets the whole stream. */
  lemma NewcomersAreToldOfNoGap(hello: Option<string>, oldest: Option<string>)
    ensures hello == None ==> Positioned(hello, oldest) == ("0", false)
    ensures hello == Some("") || oldest == None ==> !Positioned(hello, oldest).1
    ensures hello.Some? && !Positioned(hello, oldest).1 ==> Positioned(hello, oldest).0 == hello.value
    ensures Positioned(hello, oldest).1 ==> Positioned(hello, oldest).0 == "0"
  {
  }

  /** One connection of the gateway: its position and what it has sent. */
  class Reader {
    var cursor: string
    var sent: seq<ServerMessage>

    /** Positions the reader and answers the hello. */
    constructor (hello: Option<string>, oldest: Option<string>)
      ensures cursor == Positioned(hello, oldest).0 && sent == [Ready(Positioned(hello, oldest).1)]
    {
      var position := if hello.Some? then hello.value else "0";
      var replayGap := false;
      if hello.Some? && hello.value != "" {
        if oldest.Some? && IsPositive(CompareStreamIds(oldest.value, hello.value)) {
          replayGap := true;
          position := "0";
        }
      }
      cursor := position;
      sent := [Ready(replayGap)];
    }

    method Send(entry: Entry)
      modifies this
      ensures sent == old(sent) + FrameOf(entry) && cursor == entry.id
    {
      cursor := entry.id;
      var frame := EncodeTerminalFrame(cursor, entry.data);
      if frame.Ok? {
        sent := sent + [Data(frame.value)];
      }
    }

    /** One answer of `XREAD`, entry by entry. */
    method Pump(entries: seq<Entry>)
      modifies this
      ensures sent == old(sent) + FramesOf(entries)
      ensures cursor == if entries == [] then old(cursor) else entries[|entries| - 1].id
    {
      for i := 0 to |entries|
        invariant sent + FramesOf(entries[i..]) == old(sent) + FramesOf(entries)
        invariant cursor == if i == 0 then old(cursor) else entries[i - 1].id
      {
        FramesFrom(entries, i);
        Regroup(sent, FrameOf(entries[i]), FramesOf(entries[i + 1..]));
        Send(entries[i]);
      }
    }
  }

  // ---------------------------------------------------------------- the client

  /** The client after so many sockets in a row that closed without having opened. */
  function ClosedTimes(client: Client, n: nat): Client {
    if n == 0 then client else Closed(ClosedTimes(client, n - 1))
  }

  /** A socket that opens gives the client its attempts back: exactly twenty failures in a row are survived then. */
  lemma {:induction false} OpenedLastsTwentyFailures(client: Client, n: nat)
    requires !client.closedByUs && client.attempts == 0
    ensures ClosedTimes(client, n).attempts == (if n < 20 then n else 20) && !ClosedTimes(client, n).closedByUs
    ensures Retries(ClosedTimes(client, n)) <==> n < 20
  {
    if n > 0 {
      OpenedLastsTwentyFailures(client, n - 1);
    }
  }

  class TerminalClient {
    var lastStreamId: Option<string>
    var attempts: nat
    var closedByUs: bool
    var screen: seq<byte>

    function Value(): Client
      reads this
    {
      Client(lastStreamId, screen, attempts, closedByUs)
    }

    constructor ()
      ensures Value() == Client(None, [], 0, false)
    {
      lastStreamId, attempts, closedByUs, screen := None, 0, false, [];
    }

    /** Answers the open socket with the hello. */
    method OnOpen() returns (hello: Option<string>)
      modifies this
      ensures Value() == Opened(old(Value())) && hello == old(lastStreamId)
      ensures !old(closedByUs) ==> forall n: nat :: Retries(ClosedTimes(Value(), n)) <==> n < 20
    {
      attempts := 0;
      hello := lastStreamId;
      if !closedByUs {
        forall n: nat
          ensures Retries(ClosedTimes(Value(), n)) <==> n < 20
        {
          OpenedLastsTwentyFailures(Value(), n);
        }
      }
    }

    method OnMessage(message: ServerMessage)
      modifies this
      ensures Value() == Received(old(Value()), message)
      ensures old(closedByUs) || message.End? ==> !Retries(Value())
      ensures message.Ready? ==> Value() == old(Value()).(screen := if message.replayGap then [] else old(screen))
      ensures message.End? ==> Value() == old(Value()).(closedByUs := true)
      ensures message.Status? ==> Value() == old(Value())
      ensures !message.Ready? ==> old(screen) <= screen
    {
      match message
      case Data(bytes) =>
        var decoded := Decode(bytes);
        if decoded.Ok? {
          if decoded.value.streamId != "" {
            lastStreamId := Some(decoded.value.streamId);
          }
          screen := screen + decoded.value.data;
        }
      case Ready(replayGap) =>
        if replayGap {
          screen := [];
        }
      case Status =>
      case End =>
        closedByUs := true;
    }

    /** Whether another attempt is due. */
    method OnClose() returns (retry: bool)
      modifies this
      ensures Value() == Closed(old(Value())) && retry == old(Retries(Value()))
      ensures retry ==> attempts == old(attempts) + 1 <= MAX_RECONNECTS
      ensures !retry ==> Value() == old(Value()) && !Retries(Value())
    {
      if closedByUs || attempts >= MAX_RECONNECTS {
        return false;
      }
      attempts := attempts + 1;
      retry := true;
    }
  }

  /** The terminal bytes of a frame are shown; its id becomes the resume position, unless it is empty. */
  lemma FrameIsTaken(client: Client, id: seq<byte>, data: seq<byte>)
    requires |id| <= 65535
    ensures var bytes: seq<byte> := [1, |id| / 256, |id| % 256] + id + data;
            Received(client, Data(bytes))
            == Client(if id == [] then client.lastStreamId else Some(Ascii(id)), client.screen + data,
                      client.attempts, client.closedByUs)
  {
    assert Frame(id, data) == [1, |id| / 256, |id| % 256] + id + data;
    DecodesExactlyTheLayout(Frame(id, data));
  }

  // ---------------------------------------------------------------- the end is for good

  /** The client was told the end: its socket is still there, or gone with no retry due. */
  predicate Ended(s: State) {
    s.client.closedByUs && (s.link.Attached? || s.link == Down(false))
  }

  /** A step that opens a socket or leads to one. */
  predicate Reconnects(step: Step) {
    step.Retry? || step.Open? || step.Serve?
  }

  lemma DroppedAfterTheEnd(s: State)
    requires s.client.closedByUs
    ensures Dropped(s).link == Down(false) && Dropped(s).client == s.client
  {
  }

  lemma EndStays(s: State, step: Step)
    requires Ended(s) && Enabled(s, step)
    ensures Ended(Next(s, step)) && !Reconnects(step)
    ensures s.link.Down? ==> Next(s, step).link == s.link && Next(s, step).client == s.client
  {
    match step {
      case Drop => DroppedAfterTheEnd(s);
      case Deliver => StaysClosed(s.client, s.link.inFlight[0]);
      case _ =>
    }
  }

  lemma StaysClosed(client: Client, message: ServerMessage)
    ensures client.closedByUs ==> Received(client, message).closedByUs
    ensures message.End? ==> Received(client, message).closedByUs
  {
  }

  lemma {:induction false} EndStaysOver(s: State, steps: seq<Step>)
    requires Runs(s, steps) && Ended(s)
    ensures Ended(Final(s, steps)) && forall step | step in steps :: !Reconnects(step)
    ensures s.link.Down? ==> Final(s, steps).link == s.link && Final(s, steps).client == s.client
    decreases |steps|
  {
    if steps != [] {
      EndStays(s, steps[0]);
      EndStaysOver(Next(s, steps[0]), steps[1..]);
      assert steps == [steps[0]] + steps[1..];
    }
  }

  /**
   * A client that was delivered the end never opens a socket again, however the run goes on; and from the moment its
   * socket is gone, its screen and its resume position stay as they are.
   */
  lemma EndIsForGood(s: State, steps: seq<Step>, more: seq<Step>)
    requires Enabled(s, Deliver) && s.link.inFlight[0].End?
    requires Runs(Delivered(s), steps) && Runs(Final(Delivered(s), steps), more)
    ensures forall step | step in steps + more :: !Reconnects(step)
    ensures Final(Delivered(s), steps).link.Down?
            ==> Final(Final(Delivered(s), steps), more).client == Final(Delivered(s), steps).client
  {
    StaysClosed(s.client, s.link.inFlight[0]);
    EndStaysOver(Delivered(s), steps);
    EndStaysOver(Final(Delivered(s), steps), more);
  }
}
