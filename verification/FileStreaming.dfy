/** A remote file on its way to the browser: read over SFTP, framed into a reply list, drained into a stream. */
module FileStreaming {
  import opened Options
  import opened Sequences
  import opened Octets

  // ---------------------------------------------------------------- reading

  /** What the remote read stream yields: chunks, and then an end or an error. */
  datatype RemoteFile = RemoteFile(chunks: seq<seq<byte>>, fails: bool)

  datatype ReadResult = ReadOk(sizeBytes: nat, truncated: bool) | ReadFailed

  /** The slices handed to the consumer. */
  function Slices(chunks: seq<seq<byte>>, maxBytes: nat): seq<seq<byte>> {
    if chunks == [] || maxBytes == 0 then []
    else if |chunks[0]| > maxBytes then [chunks[0][..maxBytes]]
    else [chunks[0]] + Slices(chunks[1..], maxBytes - |chunks[0]|)
  }

  /** The read stops before the end of the file. */
  predicate StopsShort(chunks: seq<seq<byte>>, maxBytes: nat) {
    chunks != [] && (maxBytes == 0 || |chunks[0]| > maxBytes || StopsShort(chunks[1..], maxBytes - |chunks[0]|))
  }

  function Least(a: nat, b: nat): nat {
    if a <= b then a else b
  }

  /** The slices are the file's first `maxBytes` bytes, none of them empty; the read stops short where there is more. */
  lemma {:induction false} SlicesAreThePrefix(chunks: seq<seq<byte>>, maxBytes: nat)
    requires NoneEmpty(chunks)
    ensures Concat(Slices(chunks, maxBytes)) == Concat(chunks)[..Least(Total(chunks), maxBytes)]
    ensures NoneEmpty(Slices(chunks, maxBytes))
    ensures StopsShort(chunks, maxBytes) <==> Total(chunks) > maxBytes
  {
    if chunks != [] && maxBytes > 0 {
      var first, rest := chunks[0], chunks[1..];
      if |first| > maxBytes {
        ConcatOfOne(first[..maxBytes]);
        assert (first + Concat(rest))[..maxBytes] == first[..maxBytes];
      } else {
        assert forall i | 0 <= i < |rest| :: rest[i] == chunks[i + 1];
        SlicesAreThePrefix(rest, maxBytes - |first|);
        HeadPlusPrefix(first, Concat(rest), Least(Total(rest), maxBytes - |first|));
        SlicesCons(first, Slices(rest, maxBytes - |first|));
      }
    }
  }

  lemma HeadPlusPrefix(first: seq<byte>, rest: seq<byte>, n: nat)
    requires n <= |rest|
    ensures (first + rest)[..|first| + n] == first + rest[..n]
  {
  }

  lemma SlicesCons(first: seq<byte>, rest: seq<seq<byte>>)
    ensures Concat([first] + rest) == first + Concat(rest)
    ensures first != [] && NoneEmpty(rest) ==> NoneEmpty([first] + rest)
  {
    assert ([first] + rest)[1..] == rest;
  }

  // ---------------------------------------------------------------- the reply

  const READ_CHUNK_BYTES := 256 * 1024

  datatype ErrorCode = NotFoundError | UpstreamUnavailable | Timeout | Internal

  datatype ReadFileHeader = ReadFileHeader(path: string, sizeBytes: nat, truncated: bool)

  /** One entry of a reply list. `header` is what the contract reads from a JSON frame's text. */
  datatype Frame =
    | Json(text: seq<byte>, header: Option<ReadFileHeader>)
    | Chunk(data: seq<byte>)
    | End
    | Error(code: ErrorCode)

  /** The reply so far and the bytes not yet flushed into it. */
  datatype Buffer = Buffer(frames: seq<Frame>, pending: seq<byte>)

  /** One slice: what is pending goes out as soon as it reaches the chunk size. */
  function Fed(b: Buffer, slice: seq<byte>): Buffer {
    var bytes := b.pending + slice;
    if |bytes| >= READ_CHUNK_BYTES then Buffer(b.frames + [Chunk(bytes)], []) else Buffer(b.frames, bytes)
  }

  function FedAll(b: Buffer, slices: seq<seq<byte>>): Buffer
    decreases |slices|
  {
    if slices == [] then b else FedAll(Fed(b, slices[0]), slices[1..])
  }

  function Flushed(b: Buffer): Buffer {
    if b.pending == [] then b else Buffer(b.frames + [Chunk(b.pending)], [])
  }

  /** The buffer of `readFile` and the reply it flushes into. */
  class ChunkSink {
    var pending: seq<seq<byte>>
    var pendingBytes: nat
    var frames: seq<Frame>

    predicate Valid()
      reads this
    {
      pendingBytes == Total(pending)
    }

    function State(): Buffer
      reads this
    {
      Buffer(frames, Concat(pending))
    }

    constructor ()
      ensures Valid() && State() == Buffer([], [])
    {
      pending, pendingBytes, frames := [], 0, [];
    }

    method Push(frame: Frame)
      requires Valid()
      modifies this`frames
      ensures Valid() && State() == Buffer(old(frames) + [frame], old(State()).pending)
    {
      frames := frames + [frame];
    }

    method Flush()
      requires Valid()
      modifies this
      ensures Valid() && State() == Flushed(old(State()))
    {
      if pendingBytes == 0 {
        return;
      }
      Push(Chunk(Concat(pending)));
      pending, pendingBytes := [], 0;
    }

    method OnChunk(chunk: seq<byte>)
      requires Valid() && chunk != []
      modifies this
      ensures Valid() && State() == Fed(old(State()), chunk)
    {
      ConcatOfConcat(pending, [chunk]);
      ConcatOfOne(chunk);
      pending := pending + [chunk];
      pendingBytes := pendingBytes + |chunk|;
      if pendingBytes >= READ_CHUNK_BYTES {
        Flush();
      }
    }

    /** Streams the file out, each slice handed over before the next one is read. */
    method Read(file: RemoteFile, maxBytes: nat) returns (result: ReadResult)
      requires Valid() && NoneEmpty(file.chunks)
      modifies this
      ensures Valid() && State() == FedAll(old(State()), Slices(file.chunks, maxBytes))
      ensures result.ReadFailed? <==> file.fails && !StopsShort(file.chunks, maxBytes)
      ensures result.ReadOk? ==>
        && result.truncated == StopsShort(file.chunks, maxBytes)
        && result.sizeBytes == Total(Slices(file.chunks, maxBytes))
    {
      var sizeBytes: nat := 0;
      for i := 0 to |file.chunks|
        invariant Valid() && sizeBytes <= maxBytes
        invariant ReadFrom(State(), file.chunks[i..], maxBytes - sizeBytes, sizeBytes)
               == ReadFrom(old(State()), file.chunks, maxBytes, 0)
      {
        var chunk := file.chunks[i];
        var remaining := maxBytes - sizeBytes;
        NextSlice(State(), file.chunks, i, remaining, sizeBytes);
        if remaining == 0 {
          return ReadOk(sizeBytes, true);
        }
        var slice := if |chunk| > remaining then chunk[..remaining] else chunk;
        sizeBytes := sizeBytes + |slice|;
        OnChunk(slice);
        if |slice| < |chunk| {
          return ReadOk(sizeBytes, true);
        }
      }
      result := if file.fails then ReadFailed else ReadOk(sizeBytes, false);
    }
  }

  /** What a read of these chunks makes of the buffer, of the size so far, and whether it stops short. */
  datatype Reading = Reading(buffer: Buffer, sizeBytes: nat, truncated: bool)

  function ReadFrom(b: Buffer, chunks: seq<seq<byte>>, limit: nat, before: nat): Reading {
    Reading(FedAll(b, Slices(chunks, limit)), before + Total(Slices(chunks, limit)), StopsShort(chunks, limit))
  }

  /** One turn of the read loop. */
  lemma NextSlice(b: Buffer, chunks: seq<seq<byte>>, i: nat, limit: nat, before: nat)
    requires i < |chunks|
    ensures ReadFrom(b, chunks[i..], limit, before)
         == if limit == 0 then Reading(b, before, true)
            else if limit < |chunks[i]| then Reading(Fed(b, chunks[i][..limit]), before + limit, true)
            else ReadFrom(Fed(b, chunks[i]), chunks[i + 1..], limit - |chunks[i]|, before + |chunks[i]|)
  {
    var slices := Slices(chunks[i..], limit);
    assert chunks[i..][1..] == chunks[i + 1..];
    if 0 < limit < |chunks[i]| {
      assert slices == [chunks[i][..limit]];
      ConcatOfOne(chunks[i][..limit]);
      assert slices[1..] == [];
      assert FedAll(b, slices) == Fed(b, chunks[i][..limit]);
    } else if 0 < limit {
      assert slices == [chunks[i]] + Slices(chunks[i + 1..], limit - |chunks[i]|);
      assert slices[1..] == Slices(chunks[i + 1..], limit - |chunks[i]|);
    }
  }

  /** What `stat` answers. */
  datatype Stat = Facts(sizeBytes: nat) | Missing | StatFailed

  /** The frames of a file whose read went well or ill, flushed or cut off where it failed. */
  function ReplyOf(
      connected: bool, stat: Stat, file: RemoteFile, path: string, headerText: seq<byte>, maxBytes: nat): seq<Frame> {
    if !connected || stat.StatFailed? then [Error(UpstreamUnavailable)]
    else if stat.Missing? then [Error(NotFoundError), End]
    else
      var header := Json(headerText, Some(ReadFileHeader(path, stat.sizeBytes, stat.sizeBytes > maxBytes)));
      var fed := FedAll(Buffer([header], []), Slices(file.chunks, maxBytes));
      if file.fails && !StopsShort(file.chunks, maxBytes) then fed.frames + [Error(UpstreamUnavailable)]
      else Flushed(fed).frames + [End]
  }

  /** `serve` of a `readFile` request: the reply it leaves, whatever happens on the way. */
  method Serve(connected: bool, stat: Stat, file: RemoteFile, path: string, headerText: seq<byte>, maxBytes: nat)
    returns (frames: seq<Frame>)
    requires NoneEmpty(file.chunks)
    ensures frames == ReplyOf(connected, stat, file, path, headerText, maxBytes)
  {
    var reply := new ChunkSink();
    if !connected || stat.StatFailed? {
      reply.Push(Error(UpstreamUnavailable));
      return reply.frames;
    }
    if stat.Missing? {
      reply.Push(Error(NotFoundError));
      reply.Push(End);
      assert reply.frames == [Error(NotFoundError), End];
      return reply.frames;
    }
    reply.Push(Json(headerText, Some(ReadFileHeader(path, stat.sizeBytes, stat.sizeBytes > maxBytes))));
    assert reply.State().frames
           == [Json(headerText, Some(ReadFileHeader(path, stat.sizeBytes, stat.sizeBytes > maxBytes)))];
    var result := reply.Read(file, maxBytes);
    if result.ReadFailed? {
      reply.Push(Error(UpstreamUnavailable));
    } else {
      reply.Flush();
      reply.Push(End);
    }
    frames := reply.frames;
  }

  // ---------------------------------------------------------------- what the buffer emits

  /** The bytes of the chunk frames of a reply. */
  function Payload(frames: seq<Frame>): seq<byte> {
    if frames == [] then [] else (if frames[0].Chunk? then frames[0].data else []) + Payload(frames[1..])
  }

  lemma {:induction false} PayloadOfConcat(a: seq<Frame>, b: seq<Frame>)
    ensures Payload(a + b) == Payload(a) + Payload(b)
  {
    if a == [] {
      assert a + b == b;
    } else {
      PayloadOfConcat(a[1..], b);
      assert (a + b)[1..] == a[1..] + b;
      Regroup(if a[0].Chunk? then a[0].data else [], Payload(a[1..]), Payload(b));
    }
  }

  lemma PayloadOfOne(frame: Frame)
    ensures Payload([frame]) == if frame.Chunk? then frame.data else []
  {
    assert [frame][1..] == [];
    assert frame.Chunk? ==> frame.data + [] == frame.data;
  }

  /** From the header on only chunk frames, none of them empty. */
  predicate OnlyChunks(frames: seq<Frame>) {
    forall i | 1 <= i < |frames| :: frames[i].Chunk? && frames[i].data != []
  }

  lemma FedKeepsEverything(b: Buffer, slice: seq<byte>)
    requires slice != [] && b.frames != [] && OnlyChunks(b.frames) && |b.pending| < READ_CHUNK_BYTES
    ensures Payload(Fed(b, slice).frames) + Fed(b, slice).pending == Payload(b.frames) + b.pending + slice
    ensures b.frames <= Fed(b, slice).frames && OnlyChunks(Fed(b, slice).frames)
    ensures |Fed(b, slice).pending| < READ_CHUNK_BYTES
  {
    var bytes := b.pending + slice;
    Regroup(Payload(b.frames), b.pending, slice);
    PayloadOfConcat(b.frames, [Chunk(bytes)]);
    PayloadOfOne(Chunk(bytes));
    assert Payload(b.frames) + bytes + [] == Payload(b.frames) + bytes;
  }

  lemma {:induction false} FedAllKeepsEverything(b: Buffer, slices: seq<seq<byte>>)
    requires NoneEmpty(slices) && b.frames != [] && OnlyChunks(b.frames) && |b.pending| < READ_CHUNK_BYTES
    ensures var fed := FedAll(b, slices);
            && Payload(fed.frames) + fed.pending == Payload(b.frames) + b.pending + Concat(slices)
            && b.frames <= fed.frames && OnlyChunks(fed.frames) && |fed.pending| < READ_CHUNK_BYTES
    decreases |slices|
  {
    if slices == [] {
      assert Payload(b.frames) + b.pending + [] == Payload(b.frames) + b.pending;
    } else {
      assert forall i | 0 <= i < |slices| - 1 :: slices[1..][i] == slices[i + 1];
      FedKeepsEverything(b, slices[0]);
      FedAllKeepsEverything(Fed(b, slices[0]), slices[1..]);
      Regroup(Payload(b.frames) + b.pending, slices[0], Concat(slices[1..]));
    }
  }

  /** Frames that were full when they went out: a quarter of a megabyte, and less than one more slice beyond it. */
  predicate FullChunks(frames: seq<Frame>, most: nat) {
    forall i | 1 <= i < |frames| :: frames[i].Chunk? && 262_144 <= |frames[i].data| < 262_144 + most
  }

  lemma {:induction false} FedAllGoesOutFull(b: Buffer, slices: seq<seq<byte>>, most: nat)
    requires forall i | 0 <= i < |slices| :: |slices[i]| <= most
    requires b.frames != [] && FullChunks(b.frames, most) && |b.pending| < 262_144
    ensures var fed := FedAll(b, slices);
            b.frames <= fed.frames && FullChunks(fed.frames, most) && |fed.pending| < 262_144
    decreases |slices|
  {
    if slices != [] {
      assert forall i | 0 <= i < |slices| - 1 :: slices[1..][i] == slices[i + 1];
      FedAllGoesOutFull(Fed(b, slices[0]), slices[1..], most);
    }
  }

  lemma {:induction false} SlicesAreNoLonger(chunks: seq<seq<byte>>, maxBytes: nat, most: nat)
    requires forall i | 0 <= i < |chunks| :: |chunks[i]| <= most
    ensures forall i | 0 <= i < |Slices(chunks, maxBytes)| :: |Slices(chunks, maxBytes)[i]| <= most
  {
    if chunks != [] && 0 < maxBytes && |chunks[0]| <= maxBytes {
      assert forall i | 0 <= i < |chunks| - 1 :: chunks[1..][i] == chunks[i + 1];
      SlicesAreNoLonger(chunks[1..], maxBytes - |chunks[0]|, most);
    }
  }

  lemma FlushedKeepsEverything(b: Buffer)
    requires b.frames != [] && OnlyChunks(b.frames)
    ensures Payload(Flushed(b).frames) == Payload(b.frames) + b.pending
    ensures b.frames <= Flushed(b).frames && OnlyChunks(Flushed(b).frames)
  {
    if b.pending == [] {
      assert Payload(b.frames) + [] == Payload(b.frames);
    } else {
      PayloadOfConcat(b.frames, [Chunk(b.pending)]);
      PayloadOfOne(Chunk(b.pending));
    }
  }

  // ---------------------------------------------------------------- the draining side

  datatype Body = Closed(bytes: seq<byte>) | Broken(bytes: seq<byte>, code: ErrorCode)

  datatype Download = Streaming(header: ReadFileHeader, body: Body) | Refused(code: ErrorCode)

  /** Pulling until the stream closes or breaks; a list that has run dry is a timeout. */
  function Drained(frames: seq<Frame>, bytes: seq<byte>): Body
    decreases |frames|
  {
    if frames == [] then Broken(bytes, Timeout)
    else match frames[0]
      case Error(code) => Broken(bytes, code)
      case End => Closed(bytes)
      case Chunk(data) => Drained(frames[1..], bytes + data)
      case Json(text, _) => Drained(frames[1..], bytes + text)
  }

  function Downloaded(frames: seq<Frame>): Download {
    if frames == [] then Refused(Timeout)
    else match frames[0]
      case Error(code) => Refused(code)
      case Json(_, header) =>
        if header.Some? then Streaming(header.value, Drained(frames[1..], [])) else Refused(Internal)
      case _ => Refused(Internal)
  }

  /** The reply list, popped from the front; popping an empty one is a timeout. */
  class ReplyList {
    var frames: seq<Frame>

    constructor (frames: seq<Frame>)
      ensures this.frames == frames
    {
      this.frames := frames;
    }

    method NextFrame() returns (frame: Frame)
      modifies this
      ensures frame == if old(frames) == [] then Error(Timeout) else old(frames)[0]
      ensures frames == if old(frames) == [] then [] else old(frames)[1..]
    {
      if frames == [] {
        return Error(Timeout);
      }
      frame := frames[0];
      frames := frames[1..];
    }

    /** The body, pulled to its end. */
    method Pull() returns (body: Body)
      modifies this
      ensures body == Drained(old(frames), [])
    {
      var bytes: seq<byte> := [];
      var frame := NextFrame();
      while frame.Chunk? || frame.Json?
        invariant Drained(old(frames), [])
               == match frame
                  case Error(code) => Broken(bytes, code)
                  case End => Closed(bytes)
                  case Chunk(data) => Drained(frames, bytes + data)
                  case Json(text, _) => Drained(frames, bytes + text)
        decreases |frames|, if frame.Chunk? || frame.Json? then 1 else 0
      {
        bytes := bytes + if frame.Chunk? then frame.data else frame.text;
        frame := NextFrame();
      }
      body := if frame.End? then Closed(bytes) else Broken(bytes, frame.code);
    }

    method ReadFile() returns (download: Download)
      modifies this
      ensures download == Downloaded(old(frames))
    {
      var first := NextFrame();
      match first
      case Error(code) => download := Refused(code);
      case Json(_, header) =>
        if header.None? {
          return Refused(Internal);
        }
        var body := Pull();
        download := Streaming(header.value, body);
      case Chunk(_) => download := Refused(Internal);
      case End => download := Refused(Internal);
    }
  }

  // ---------------------------------------------------------------- end to end

  predicate AllChunks(frames: seq<Frame>) {
    forall i | 0 <= i < |frames| :: frames[i].Chunk?
  }

  lemma {:induction false} DrainedChunks(chunks: seq<Frame>, rest: seq<Frame>, bytes: seq<byte>)
    requires AllChunks(chunks)
    ensures Drained(chunks + rest, bytes) == Drained(rest, bytes + Payload(chunks))
    decreases |chunks|
  {
    if chunks == [] {
      assert chunks + rest == rest && bytes + [] == bytes;
    } else {
      assert forall i | 0 <= i < |chunks| - 1 :: chunks[1..][i] == chunks[i + 1];
      assert (chunks + rest)[1..] == chunks[1..] + rest;
      DrainedChunks(chunks[1..], rest, bytes + chunks[0].data);
      Regroup(bytes, chunks[0].data, Payload(chunks[1..]));
    }
  }

  /** A reply of a header, chunks and one closing frame is downloaded as the chunks' bytes and that closing. */
  lemma DownloadOf(header: Frame, chunks: seq<Frame>, last: Frame)
    requires header.Json? && header.header.Some? && AllChunks(chunks) && (last.End? || last.Error?)
    ensures Downloaded([header] + chunks + [last])
         == Streaming(header.header.value,
                      if last.End? then Closed(Payload(chunks)) else Broken(Payload(chunks), last.code))
  {
    var frames := [header] + chunks + [last];
    assert frames[1..] == chunks + [last];
    DrainedChunks(chunks, [last], []);
    assert [] + Payload(chunks) == Payload(chunks);
  }

  /** The header frame, non-empty chunk frames, and whether there is more in the buffer. */
  lemma StreamedFrames(file: RemoteFile, maxBytes: nat, header: Frame) returns (fed: Buffer, chunks: seq<Frame>)
    requires NoneEmpty(file.chunks) && header.Json?
    ensures fed == FedAll(Buffer([header], []), Slices(file.chunks, maxBytes))
    ensures fed.frames == [header] + chunks && AllChunks(chunks) && OnlyChunks(fed.frames)
    ensures |fed.pending| < 262_144
    ensures Payload(chunks) + fed.pending == Concat(file.chunks)[..Least(Total(file.chunks), maxBytes)]
  {
    var start := Buffer([header], []);
    SlicesAreThePrefix(file.chunks, maxBytes);
    fed := FedAll(start, Slices(file.chunks, maxBytes));
    FedAllKeepsEverything(start, Slices(file.chunks, maxBytes));
    chunks := fed.frames[1..];
    PayloadAfterHeader(header, fed.frames);
    PayloadOfOne(header);
    assert [] + [] + Concat(Slices(file.chunks, maxBytes)) == Concat(Slices(file.chunks, maxBytes));
  }

  lemma PayloadAfterHeader(header: Frame, frames: seq<Frame>)
    requires header.Json? && [header] <= frames && OnlyChunks(frames)
    ensures frames == [header] + frames[1..] && AllChunks(frames[1..])
    ensures Payload(frames) == Payload(frames[1..])
  {
    assert frames[..1] == [header];
    assert [] + Payload(frames[1..]) == Payload(frames[1..]);
  }

  function HeaderOf(path: string, headerText: seq<byte>, size: nat, maxBytes: nat): Frame {
    Json(headerText, Some(ReadFileHeader(path, size, size > maxBytes)))
  }

  /**
   * End to end, for a file that did not change between `stat` and the read and that reads without an error: the
   * browser gets the file's first `maxBytes` bytes, in order, and a stream that closes; the header says `truncated`
   * exactly when the reader stopped short, which is when the file is longer than that; and the reply is one header
   * frame, non-empty chunk frames and an end.
   */
  lemma FileArrives(file: RemoteFile, path: string, headerText: seq<byte>, maxBytes: nat)
    requires NoneEmpty(file.chunks) && !(file.fails && !StopsShort(file.chunks, maxBytes))
    ensures var size := Total(file.chunks);
            var frames := ReplyOf(true, Facts(size), file, path, headerText, maxBytes);
            && Downloaded(frames)
            == Streaming(ReadFileHeader(path, size, size > maxBytes),
                         Closed(Concat(file.chunks)[..Least(size, maxBytes)]))
            && (size > maxBytes <==> StopsShort(file.chunks, maxBytes))
            && |frames| >= 2 && frames[0].Json? && frames[|frames| - 1] == End
            && forall i | 1 <= i < |frames| - 1 :: frames[i].Chunk? && frames[i].data != []
  {
    var header := HeaderOf(path, headerText, Total(file.chunks), maxBytes);
    var fed, chunks := StreamedFrames(file, maxBytes, header);
    SlicesAreThePrefix(file.chunks, maxBytes);
    FlushedKeepsEverything(fed);
    var flushed := Flushed(fed).frames;
    assert [header] <= flushed by {
      assert flushed[0] == fed.frames[0];
    }
    PayloadAfterHeader(header, flushed);
    PayloadAfterHeader(header, fed.frames);
    DownloadOf(header, flushed[1..], End);
  }

  /**
   * What a frame holds is bounded by the chunk size and what the remote side sends at once, whatever the file's size;
   * and only the last one before the end may hold less than the chunk size.
   */
  lemma FramesAreFull(file: RemoteFile, size: nat, path: string, headerText: seq<byte>, maxBytes: nat, most: nat)
    requires forall i | 0 <= i < |file.chunks| :: |file.chunks[i]| <= most
    ensures var frames := ReplyOf(true, Facts(size), file, path, headerText, maxBytes);
            && |frames| >= 2
            && (forall i | 1 <= i < |frames| - 1 :: frames[i].Chunk? && |frames[i].data| < 262_144 + most)
            && (forall i | 1 <= i < |frames| - 2 :: frames[i].Chunk? && 262_144 <= |frames[i].data|)
  {
    var start := Buffer([HeaderOf(path, headerText, size, maxBytes)], []);
    SlicesAreNoLonger(file.chunks, maxBytes, most);
    FedAllGoesOutFull(start, Slices(file.chunks, maxBytes), most);
  }

  /**
   * An error in the middle is never taken for the end: what arrives is a prefix of the file, and then the stream
   * breaks. What was read and not yet flushed is not part of it, and that is less than one chunk.
   */
  lemma ErrorsAreSeen(file: RemoteFile, size: nat, path: string, headerText: seq<byte>, maxBytes: nat)
    requires NoneEmpty(file.chunks) && file.fails && !StopsShort(file.chunks, maxBytes)
    ensures var frames := ReplyOf(true, Facts(size), file, path, headerText, maxBytes);
            exists bytes :: bytes <= Concat(file.chunks) && Total(file.chunks) < |bytes| + 262_144
              && Downloaded(frames)
              == Streaming(ReadFileHeader(path, size, size > maxBytes), Broken(bytes, UpstreamUnavailable))
  {
    var header := HeaderOf(path, headerText, size, maxBytes);
    var fed, chunks := StreamedFrames(file, maxBytes, header);
    DownloadOf(header, chunks, Error(UpstreamUnavailable));
    SlicesAreThePrefix(file.chunks, maxBytes);
    var bytes := Payload(chunks);
    Whole(Concat(file.chunks), bytes, fed.pending);
    assert bytes <= Concat(file.chunks) && Total(file.chunks) < |bytes| + 262_144;
  }

  lemma Whole(all: seq<byte>, first: seq<byte>, second: seq<byte>)
    requires first + second == all[..|all|]
    ensures first <= all && |first| == |all| - |second|
  {
    assert all[..|all|] == all;
  }

  lemma {:induction false} OnlyAnEndCloses(frames: seq<Frame>, bytes: seq<byte>)
    ensures Drained(frames, bytes).Closed? ==> End in frames
    decreases |frames|
  {
    if frames != [] && (frames[0].Chunk? || frames[0].Json?) {
      OnlyAnEndCloses(frames[1..], bytes + if frames[0].Chunk? then frames[0].data else frames[0].text);
    }
  }

  predicate EndsOnlyLast(frames: seq<Frame>) {
    forall i | 0 <= i < |frames| - 1 :: frames[i] != End
  }

  lemma ChunksThenLast(frames: seq<Frame>, last: Frame)
    requires frames != [] && frames[0].Json? && OnlyChunks(frames)
    ensures EndsOnlyLast(frames + [last])
  {
  }

  lemma RepliesEndOnlyLast(
      connected: bool, stat: Stat, file: RemoteFile, path: string, headerText: seq<byte>, maxBytes: nat)
    requires NoneEmpty(file.chunks)
    ensures EndsOnlyLast(ReplyOf(connected, stat, file, path, headerText, maxBytes))
  {
    if connected && stat.Facts? {
      var header := HeaderOf(path, headerText, stat.sizeBytes, maxBytes);
      var fed, chunks := StreamedFrames(file, maxBytes, header);
      ChunksThenLast(fed.frames, Error(UpstreamUnavailable));
      FlushedKeepsEverything(fed);
      assert Flushed(fed).frames[0] == fed.frames[0];
      ChunksThenLast(Flushed(fed).frames, End);
    }
  }

  /** A reply that stops arriving, wherever it is cut, is never taken for a whole one. */
  lemma CutReplyNeverCloses(
      connected: bool, stat: Stat, file: RemoteFile, path: string, headerText: seq<byte>, maxBytes: nat, k: nat)
    requires NoneEmpty(file.chunks)
    requires k < |ReplyOf(connected, stat, file, path, headerText, maxBytes)|
    ensures var download := Downloaded(ReplyOf(connected, stat, file, path, headerText, maxBytes)[..k]);
            download.Refused? || download.body.Broken?
  {
    var cut := ReplyOf(connected, stat, file, path, headerText, maxBytes)[..k];
    RepliesEndOnlyLast(connected, stat, file, path, headerText, maxBytes);
    assert forall i | 0 <= i < k :: cut[i] != End;
    if cut != [] {
      assert forall i | 0 <= i < k - 1 :: cut[1..][i] == cut[i + 1];
      OnlyAnEndCloses(cut[1..], []);
    }
  }

  /**
   * The browser's stream closes exactly when the file was found and read to its end or to the limit; in every other
   * case the reason is passed on.
   */
  lemma StreamClosesExactlyWhenRead(
      connected: bool, stat: Stat, file: RemoteFile, path: string, headerText: seq<byte>, maxBytes: nat)
    requires NoneEmpty(file.chunks)
    ensures var download := Downloaded(ReplyOf(connected, stat, file, path, headerText, maxBytes));
            && (download.Streaming? <==> connected && stat.Facts?)
            && (download.Streaming? && download.body.Closed? <==>
                  connected && stat.Facts? && !(file.fails && Total(file.chunks) <= maxBytes))
            && (connected && stat.Missing? ==> download == Refused(NotFoundError))
            && (!connected || stat.StatFailed? ==> download == Refused(UpstreamUnavailable))
  {
    if connected && stat.Facts? {
      SlicesAreThePrefix(file.chunks, maxBytes);
      var header := HeaderOf(path, headerText, stat.sizeBytes, maxBytes);
      var fed, chunks := StreamedFrames(file, maxBytes, header);
      if file.fails && !StopsShort(file.chunks, maxBytes) {
        DownloadOf(header, chunks, Error(UpstreamUnavailable));
      } else {
        FlushedKeepsEverything(fed);
        var flushed := Flushed(fed).frames;
        assert [header] <= flushed by {
          assert flushed[0] == fed.frames[0];
        }
        PayloadAfterHeader(header, flushed);
        DownloadOf(header, flushed[1..], End);
      }
    }
  }
}
