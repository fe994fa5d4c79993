/** The binary terminal frame: an opcode, the length of the stream id in two bytes, the id, the terminal bytes. */
module Frames {
  import opened Octets
  import opened Sequences

  const DATA: byte := 0x01
  const STREAM_ID_LENGTH_OFFSET := 1
  const STREAM_ID_OFFSET := 3

  datatype FrameResult<T> = Ok(value: T) | FrameError(message: string)

  datatype TerminalFrame = TerminalFrame(streamId: string, data: seq<byte>)

  // ---------------------------------------------------------------- text on the wire

  /** UTF-8, as `TextEncoder` writes it. */
  function Utf8Of(c: char): (bytes: seq<byte>)
    ensures c as int < 0x80 ==> bytes == [c as int]
    ensures c as int >= 0x80 ==> |bytes| >= 2
  {
    var u := c as int;
    if u < 0x80 then [u]
    else if u < 0x800 then [0xC0 + u / 0x40, 0x80 + u % 0x40]
    else if u < 0x10000 then [0xE0 + u / 0x1000, 0x80 + u / 0x40 % 0x40, 0x80 + u % 0x40]
    else [0xF0 + u / 0x40000, 0x80 + u / 0x1000 % 0x40, 0x80 + u / 0x40 % 0x40, 0x80 + u % 0x40]
  }

  /** The code point that a character's bytes spell: the lead byte says how many there are, each other adds six bits. */
  function CodePoint(bytes: seq<int>): int
    requires 1 <= |bytes| <= 4
  {
    if |bytes| == 1 then bytes[0]
    else if |bytes| == 2 then (bytes[0] - 0xC0) * 64 + (bytes[1] - 0x80)
    else if |bytes| == 3 then ((bytes[0] - 0xE0) * 64 + (bytes[1] - 0x80)) * 64 + (bytes[2] - 0x80)
    else (((bytes[0] - 0xF0) * 64 + (bytes[1] - 0x80)) * 64 + (bytes[2] - 0x80)) * 64 + (bytes[3] - 0x80)
  }

  /** A character's bytes spell its code point, in as few as can, a lead byte and trailing bytes of the right kind. */
  lemma Utf8SpellsTheCodePoint(c: char)
    ensures var bytes, u := Utf8Of(c), c as int;
            && |bytes| == (if u < 0x80 then 1 else if u < 0x800 then 2 else if u < 0x10000 then 3 else 4)
            && CodePoint(bytes) == u
            && (forall i | 1 <= i < |bytes| :: 0x80 <= bytes[i] < 0xC0)
            && (|bytes| == 2 ==> 0xC2 <= bytes[0] < 0xE0)
            && (|bytes| == 3 ==> 0xE0 <= bytes[0] < 0xF0)
            && (|bytes| == 4 ==> 0xF0 <= bytes[0] < 0xF5)
  {
    var u := c as int;
    SixBits(u);
    SixBits(u / 0x40);
    SixBits(u / 0x1000);
    assert u / 0x40 / 0x40 == u / 0x1000 && u / 0x1000 / 0x40 == u / 0x40000;
  }

  lemma SixBits(n: nat)
    ensures n == n / 0x40 * 0x40 + n % 0x40
  {
  }

  function Utf8(s: string): seq<byte> {
    if s == [] then [] else Utf8Of(s[0]) + Utf8(s[1..])
  }

  /** What the bytes 0x80 to 0x9F stand for in windows-1252: five of them stand for themselves. */
  function Windows1252(b: byte): char
    requires 0x80 <= b < 0xA0
  {
    match b
    case 0x80 => '\U{20AC}'
    case 0x82 => '\U{201A}'
    case 0x83 => '\U{0192}'
    case 0x84 => '\U{201E}'
    case 0x85 => '\U{2026}'
    case 0x86 => '\U{2020}'
    case 0x87 => '\U{2021}'
    case 0x88 => '\U{02C6}'
    case 0x89 => '\U{2030}'
    case 0x8A => '\U{0160}'
    case 0x8B => '\U{2039}'
    case 0x8C => '\U{0152}'
    case 0x8E => '\U{017D}'
    case 0x91 => '\U{2018}'
    case 0x92 => '\U{2019}'
    case 0x93 => '\U{201C}'
    case 0x94 => '\U{201D}'
    case 0x95 => '\U{2022}'
    case 0x96 => '\U{2013}'
    case 0x97 => '\U{2014}'
    case 0x98 => '\U{02DC}'
    case 0x99 => '\U{2122}'
    case 0x9A => '\U{0161}'
    case 0x9B => '\U{203A}'
    case 0x9C => '\U{0153}'
    case 0x9E => '\U{017E}'
    case 0x9F => '\U{0178}'
    case _ => b as char
  }

  /** `TextDecoder("ascii")`: the label names windows-1252, one character per byte. */
  function AsciiOf(b: byte): char {
    if 0x80 <= b < 0xA0 then Windows1252(b) else b as char
  }

  /** The characters of windows-1252 from 0x80 on, in order, as the encoding's table lists them. */
  lemma UpperRow(b: byte)
    requires 0x80 <= b < 0xA0
    ensures var k, c := b % 8, AsciiOf(b);
            && (b < 0x88 ==> c == "\U{20AC}\U{81}\U{201A}\U{192}\U{201E}\U{2026}\U{2020}\U{2021}"[k])
            && (0x88 <= b < 0x90 ==> c == "\U{2C6}\U{2030}\U{160}\U{2039}\U{152}\U{8D}\U{17D}\U{8F}"[k])
            && (0x90 <= b < 0x98 ==> c == "\U{90}\U{2018}\U{2019}\U{201C}\U{201D}\U{2022}\U{2013}\U{2014}"[k])
            && (0x98 <= b ==> c == "\U{2DC}\U{2122}\U{161}\U{203A}\U{153}\U{9D}\U{17E}\U{178}"[k])
  {
  }

  function Ascii(bytes: seq<byte>): (s: string)
    ensures |s| == |bytes|
  {
    seq(|bytes|, i requires 0 <= i < |bytes| => AsciiOf(bytes[i]))
  }

  predicate IsAscii(s: string) {
    forall i | 0 <= i < |s| :: s[i] as int < 0x80
  }

  lemma {:induction false} Utf8OfAscii(s: string)
    requires IsAscii(s)
    ensures |Utf8(s)| == |s| && forall i | 0 <= i < |s| :: Utf8(s)[i] == s[i] as int
  {
    if s != [] {
      assert forall i | 0 <= i < |s| - 1 :: s[1..][i] == s[i + 1];
      Utf8OfAscii(s[1..]);
      assert Utf8(s) == [s[0] as int] + Utf8(s[1..]);
    }
  }

  lemma {:induction false} Utf8IsLonger(s: string)
    ensures |Utf8(s)| >= |s|
    ensures !IsAscii(s) ==> |Utf8(s)| > |s|
  {
    if s != [] {
      Utf8IsLonger(s[1..]);
      if !IsAscii(s) && s[0] as int < 0x80 {
        var i :| 0 <= i < |s| && s[i] as int >= 0x80;
        assert s[1..][i - 1] == s[i];
      }
    }
  }

  // ---------------------------------------------------------------- the frame

  /** The layout: opcode, big-endian length, id, data. */
  function Frame(id: seq<byte>, data: seq<byte>): seq<byte>
    requires |id| <= 0xffff
  {
    [DATA, |id| / 256, |id| % 256] + id + data
  }

  function Encode(streamId: string, data: seq<byte>): FrameResult<seq<byte>> {
    if |Utf8(streamId)| > 0xffff then FrameError("stream id too long") else Ok(Frame(Utf8(streamId), data))
  }

  /** `frame.set(bytes, offset)`. */
  method Set(frame: array<byte>, bytes: seq<byte>, offset: nat)
    requires offset + |bytes| <= frame.Length
    modifies frame
    ensures frame[..] == old(frame[..offset]) + bytes + old(frame[offset + |bytes|..])
  {
    for i := 0 to |bytes|
      invariant frame[offset..offset + i] == bytes[..i]
      invariant frame[..offset] == old(frame[..offset])
      invariant frame[offset + |bytes|..] == old(frame[offset + |bytes|..])
    {
      frame[offset + i] := bytes[i];
      assert frame[offset..offset + i + 1] == frame[offset..offset + i] + [bytes[i]];
    }
    assert bytes[..|bytes|] == bytes;
    CutInThree(frame[..], offset, offset + |bytes|);
  }

  lemma Whole<T>(a: seq<T>, b: seq<T>)
    ensures a + b + [] == a + b
  {
  }

  method EncodeTerminalFrame(streamId: string, data: seq<byte>) returns (result: FrameResult<seq<byte>>)
    ensures result == Encode(streamId, data)
  {
    var id := Utf8(streamId);
    if |id| > 0xffff {
      return FrameError("stream id too long");
    }
    var frame := new byte[STREAM_ID_OFFSET + |id| + |data|];
    frame[0] := DATA;
    frame[STREAM_ID_LENGTH_OFFSET] := |id| / 256;
    frame[STREAM_ID_LENGTH_OFFSET + 1] := |id| % 256;
    ghost var header := [DATA, |id| / 256, |id| % 256];
    assert frame[..STREAM_ID_OFFSET] == header;
    var split := STREAM_ID_OFFSET + |id|;
    ghost var rest := frame[split..];
    Set(frame, id, STREAM_ID_OFFSET);
    Halves(header + id, rest);
    assert frame[..split] == header + id;
    Set(frame, data, split);
    Whole(header + id, data);
    result := Ok(frame[..]);
  }

  /** `getUint16(offset, false)` at the length's offset. */
  function IdLength(frame: seq<byte>): (n: nat)
    requires |frame| >= STREAM_ID_OFFSET
    ensures n <= 0xffff
  {
    var high: int, low: int := frame[STREAM_ID_LENGTH_OFFSET], frame[STREAM_ID_LENGTH_OFFSET + 1];
    high * 256 + low
  }

  function Decode(frame: seq<byte>): FrameResult<TerminalFrame> {
    if |frame| < STREAM_ID_OFFSET then FrameError("frame shorter than its header")
    else if frame[0] != DATA then FrameError("unknown opcode")
    else
      var idLength := IdLength(frame);
      if |frame| < STREAM_ID_OFFSET + idLength then FrameError("truncated stream id")
      else
        Ok(TerminalFrame(Ascii(frame[STREAM_ID_OFFSET..STREAM_ID_OFFSET + idLength]),
            frame[STREAM_ID_OFFSET + idLength..]))
  }

  /** The opcode is 1, the two bytes behind it are the length of the id, the higher one first. */
  lemma FrameOnTheWire(streamId: string, data: seq<byte>)
    ensures Encode(streamId, data).Ok? <==> |Utf8(streamId)| <= 65535
    ensures Encode(streamId, data).Ok? ==>
              var frame: seq<int> := Encode(streamId, data).value;
              && |frame| == 3 + |Utf8(streamId)| + |data|
              && frame[0] == 1 && frame[1] * 256 + frame[2] == |Utf8(streamId)|
              && frame[3..] == Utf8(streamId) + data
  {
    if Encode(streamId, data).Ok? {
      var id := Utf8(streamId);
      FramePieces(id, data);
      var header := [DATA, |id| / 256, |id| % 256];
      Regroup(header, id, data);
      Halves(header, id + data);
    }
  }

  // ---------------------------------------------------------------- the two undo each other

  lemma FramePieces(id: seq<byte>, data: seq<byte>)
    requires |id| <= 0xffff
    ensures var frame := Frame(id, data);
            && |frame| == 3 + |id| + |data| && frame[0] == DATA && IdLength(frame) == |id|
            && frame[3..3 + |id|] == id && frame[3 + |id|..] == data
  {
  }

  /** A frame carries the payload untouched whatever the id, and the id itself exactly when it is ASCII. */
  lemma DecodeOfEncode(streamId: string, data: seq<byte>)
    requires Encode(streamId, data).Ok?
    ensures Decode(Encode(streamId, data).value).Ok?
    ensures Decode(Encode(streamId, data).value).value.data == data
    ensures Decode(Encode(streamId, data).value).value.streamId == streamId <==> IsAscii(streamId)
  {
    var id := Utf8(streamId);
    FramePieces(id, data);
    if IsAscii(streamId) {
      Utf8OfAscii(streamId);
      assert Ascii(id) == streamId;
    } else {
      Utf8IsLonger(streamId);
    }
  }

  /** A frame whose id bytes are ASCII is the encoding of what it decodes to: nothing in it is lost. */
  lemma EncodeOfDecode(frame: seq<byte>)
    requires Decode(frame).Ok? && IsAscii(Decode(frame).value.streamId)
    ensures Encode(Decode(frame).value.streamId, Decode(frame).value.data) == Ok(frame)
  {
    var idLength := IdLength(frame);
    var id := frame[3..3 + idLength];
    var streamId := Ascii(id);
    Utf8OfAscii(streamId);
    forall i | 0 <= i < |id|
      ensures Utf8(streamId)[i] == id[i]
    {
      assert streamId[i] == AsciiOf(id[i]);
      AsciiIsLow(id[i]);
    }
    assert Utf8(streamId) == id;
    assert frame == [frame[0], frame[1], frame[2]] + id + frame[3 + idLength..];
  }

  lemma HighCharacter(b: byte)
    requires 0x80 <= b < 0xA0
    ensures Windows1252(b) as int >= 0x80
  {
  }

  lemma AsciiIsLow(b: byte)
    requires AsciiOf(b) as int < 0x80
    ensures AsciiOf(b) as int == b
  {
    if 0x80 <= b < 0xA0 {
      HighCharacter(b);
    }
  }

  /**
   * Bytes are accepted exactly when they are some id and some data in the layout; then that data is what they carry.
   */
  lemma DecodesExactlyTheLayout(frame: seq<byte>)
    ensures Decode(frame).Ok? <==> exists id: seq<byte>, data: seq<byte> | |id| <= 0xffff :: frame == Frame(id, data)
    ensures forall id: seq<byte>, data: seq<byte> | |id| <= 0xffff && frame == Frame(id, data) ::
              Decode(frame) == Ok(TerminalFrame(Ascii(id), data))
  {
    if Decode(frame).Ok? {
      var n := IdLength(frame);
      var id, data := frame[3..3 + n], frame[3 + n..];
      assert frame == [frame[0], frame[1], frame[2]] + id + data;
      assert frame == Frame(id, data);
    }
    forall id: seq<byte>, data: seq<byte> | |id| <= 0xffff && frame == Frame(id, data)
      ensures Decode(frame) == Ok(TerminalFrame(Ascii(id), data))
    {
      FramePieces(id, data);
    }
  }
}
