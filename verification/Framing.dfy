/**
 Messages on a byte stream: a kind, a length and a payload; and the stream-data frame inside one.
 */
module Framing {
  import opened Base
  import opened Sanitize

  const MAX_FRAME: nat := 16 * 1024 * 1024

  type u32 = n: int | 0 <= n < 0x1_0000_0000

  /** A text is its UTF-8 bytes. */
  datatype Message = Binary(payload: seq<byte>) | Text(payload: seq<byte>)

  datatype FrameError = UnknownKind(kind: byte) | TooLarge(size: nat) | NotUtf8 | Short

  datatype Result<+T> = Ok(value: T) | Err(error: FrameError)

  /** `to_be_bytes` and `from_be_bytes`. */
  function ToBytes(n: u32): (b: seq<byte>)
    ensures |b| == 4
  {
    var upper: int := n / 0x100;
    var top: int := upper / 0x100;
    [top / 0x100, top % 0x100, upper % 0x100, n % 0x100]
  }

  function FromBytes(b: seq<byte>): (n: u32)
    requires |b| == 4
  {
    var w: int, x: int, y: int, z: int := b[0], b[1], b[2], b[3];
    ((w * 0x100 + x) * 0x100 + y) * 0x100 + z
  }

  lemma BytesRoundTrip(n: u32)
    ensures FromBytes(ToBytes(n)) == n
  {
  }

  // ---------------------------------------------------------------- encoding and decoding

  function Encode(m: Message): (b: seq<byte>)
  {
    [if m.Binary? then 0 else 1] + ToBytes(|m.payload| % 0x1_0000_0000) + m.payload
  }

  function DecodeHeader(b: seq<byte>): (r: Result<(byte, nat)>)
    requires |b| == 5
  {
    if b[0] > 1 then Err(UnknownKind(b[0])) else
    var n := FromBytes(b[1..]);
    if n > MAX_FRAME then Err(TooLarge(n)) else Ok((b[0], n))
  }

  function Body(kind: byte, payload: seq<byte>): (r: Result<Message>)
  {
    if kind == 0 then Ok(Binary(payload))
    else if kind == 1 then if Utf8(payload) then Ok(Text(payload)) else Err(NotUtf8)
    else Err(UnknownKind(kind))
  }

  /** `read_one`: a header, then exactly as many bytes as it says; what is left stays on the stream. */
  function ReadOne(b: seq<byte>): (r: Result<(Message, seq<byte>)>)
    ensures r.Ok? ==> |r.value.1| + 5 <= |b|
  {
    if |b| < 5 then Err(Short) else
    match DecodeHeader(b[..5])
    case Err(e) => Err(e)
    case Ok(header) =>
      if |b| < 5 + header.1 then Err(Short) else
      match Body(header.0, b[5..5 + header.1])
      case Err(e) => Err(e)
      case Ok(m) => Ok((m, b[5 + header.1..]))
  }

  /** Reads to the end of the stream, or to the first thing that is not a message. */
  function ReadAll(b: seq<byte>): (r: Result<seq<Message>>)
    decreases |b|
  {
    if b == [] then Ok([]) else
    match ReadOne(b)
    case Err(e) => Err(e)
    case Ok(one) =>
      match ReadAll(one.1)
      case Err(e) => Err(e)
      case Ok(rest) => Ok([one.0] + rest)
  }

  function EncodeAll(ms: seq<Message>): (b: seq<byte>)
  {
    if ms == [] then [] else Encode(ms[0]) + EncodeAll(ms[1..])
  }

  // ---------------------------------------------------------------- self-delimiting

  ghost predicate WellFormed(m: Message)
  {
    m.Text? ==> Utf8(m.payload)
  }

  lemma HeaderOf(m: Message, rest: seq<byte>)
    ensures var b := Encode(m) + rest; var n := |m.payload| % 0x1_0000_0000;
      && |b| == 5 + |m.payload| + |rest|
      && b[5..] == m.payload + rest
      && (n > MAX_FRAME ==> DecodeHeader(b[..5]) == Err(TooLarge(n)))
      && (n <= MAX_FRAME ==> DecodeHeader(b[..5]) == Ok((if m.Binary? then 0 else 1, n)))
  {
    var n := |m.payload| % 0x1_0000_0000;
    var b := Encode(m) + rest;
    assert b[..5][1..] == ToBytes(n);
    BytesRoundTrip(n);
  }

  /** A message comes back, and what follows it is untouched, exactly when its payload is within the cap. */
  lemma ReadsBackExactlyWhen(m: Message, rest: seq<byte>)
    requires WellFormed(m)
    ensures ReadOne(Encode(m) + rest) == Ok((m, rest)) <==> |m.payload| <= 16 * 1024 * 1024
  {
    var b, n := Encode(m) + rest, |m.payload| % 0x1_0000_0000;
    HeaderOf(m, rest);
    if |m.payload| <= MAX_FRAME {
      assert b[5..5 + n] == m.payload && b[5 + n..] == rest;
    } else if n <= MAX_FRAME {
      assert n < |m.payload| && |b[5 + n..]| > |rest|;
    }
  }

  /** And nothing else is ever read: what is read as a message is its encoding, within the cap, and text only if it is UTF-8. */
  lemma ReadsExactlyWhen(b: seq<byte>, m: Message, rest: seq<byte>)
    ensures ReadOne(b) == Ok((m, rest)) <==> WellFormed(m) && |m.payload| <= 16 * 1024 * 1024 && b == Encode(m) + rest
  {
    if WellFormed(m) && b == Encode(m) + rest { ReadsBackExactlyWhen(m, rest); }
    if ReadOne(b) == Ok((m, rest)) { WhatIsRead(b, m, rest, b[1..5], |m.payload|); }
  }

  lemma WhatIsRead(b: seq<byte>, m: Message, rest: seq<byte>, size: seq<byte>, n: nat)
    requires ReadOne(b) == Ok((m, rest)) && size == b[1..5] && n == |m.payload|
    ensures WellFormed(m) && n <= 16 * 1024 * 1024 && b == Encode(m) + rest
  {
    ReadShape(b, m, rest, n);
    EncodeIs(m, b[0], size);
    Pieces(b, n);
  }

  lemma ReadShape(b: seq<byte>, m: Message, rest: seq<byte>, n: nat)
    requires ReadOne(b) == Ok((m, rest)) && n == |m.payload|
    ensures WellFormed(m) && n <= 16 * 1024 * 1024 && 5 + n <= |b| && FromBytes(b[1..5]) == n
    ensures m.payload == b[5..5 + n] && rest == b[5 + n..] && b[0] == if m.Binary? then 0 else 1
  {
    assert b[..5][1..] == b[1..5];
  }

  lemma EncodeIs(m: Message, kind: byte, size: seq<byte>)
    requires |size| == 4 && FromBytes(size) == |m.payload| && kind == if m.Binary? then 0 else 1
    ensures Encode(m) == [kind] + size + m.payload
  {
    ToFrom(size);
  }

  lemma Pieces(b: seq<byte>, n: nat)
    requires 5 + n <= |b|
    ensures b == [b[0]] + b[1..5] + b[5..5 + n] + b[5 + n..]
  {
  }

  /** Any sequence of messages within the cap is read back exactly, with nothing left over. */
  lemma {:induction false} StreamReadsBack(ms: seq<Message>)
    requires forall i :: 0 <= i < |ms| ==> WellFormed(ms[i]) && |ms[i].payload| <= MAX_FRAME
    ensures ReadAll(EncodeAll(ms)) == Ok(ms)
  {
    if ms != [] {
      ReadsBackExactlyWhen(ms[0], EncodeAll(ms[1..]));
      StreamReadsBack(ms[1..]);
      assert ms == [ms[0]] + ms[1..];
    }
  }

  // ---------------------------------------------------------------- stream data

  datatype Incoming = Control(envelope: seq<byte>) | StreamData(stream: u32, no: u32, payload: seq<byte>)

  datatype CodecError = Empty | Unknown(kind: byte) | Truncated

  datatype Decoded = Frame(frame: Incoming) | Bad(error: CodecError)

  function EncodeStreamData(stream: u32, no: u32, payload: seq<byte>): (b: seq<byte>)
  {
    [1] + ToBytes(stream) + ToBytes(no) + payload
  }

  /** `decode_binary`, with a control envelope left as its bytes. */
  function DecodeBinary(b: seq<byte>): (r: Decoded)
  {
    if b == [] then Bad(Empty)
    else if b[0] == 0 then Frame(Control(b[1..]))
    else if b[0] != 1 then Bad(Unknown(b[0]))
    else if |b| < 9 then Bad(Truncated)
    else Frame(StreamData(FromBytes(b[1..5]), FromBytes(b[5..9]), b[9..]))
  }

  lemma StreamDataRoundTrip(stream: u32, no: u32, payload: seq<byte>)
    ensures DecodeBinary(EncodeStreamData(stream, no, payload)) == Frame(StreamData(stream, no, payload))
  {
    var b := EncodeStreamData(stream, no, payload);
    assert b[1..5] == ToBytes(stream) && b[5..9] == ToBytes(no) && b[9..] == payload;
    BytesRoundTrip(stream);
    BytesRoundTrip(no);
  }

  lemma ToFrom(b: seq<byte>)
    requires |b| == 4
    ensures ToBytes(FromBytes(b)) == b
  {
    var w: int, x: int, y: int, z: int := b[0], b[1], b[2], b[3];
    var n: int := FromBytes(b);
    assert n / 0x100 == (w * 0x100 + x) * 0x100 + y;
    assert ((w * 0x100 + x) * 0x100 + y) / 0x100 == w * 0x100 + x;
  }

  /** A frame says what it is in its first byte: 0 a control envelope, 1 stream data, which needs its two numbers whole. */
  lemma DecodesExactlyWhen(b: seq<byte>, envelope: seq<byte>, kind: byte)
    ensures DecodeBinary(b) == Frame(Control(envelope)) <==> b == [0] + envelope
    ensures DecodeBinary(b) == Bad(Empty) <==> b == []
    ensures DecodeBinary(b) == Bad(Unknown(kind)) <==> b != [] && b[0] == kind && kind > 1
    ensures DecodeBinary(b) == Bad(Truncated) <==> 0 < |b| < 9 && b[0] == 1
  {
    if b != [] { assert b == [b[0]] + b[1..]; }
    assert ([0] + envelope)[1..] == envelope;
  }

  /** Nothing else decodes to stream data: every frame that does is the encoding of what it decodes to. */
  lemma StreamDataIsCanonical(b: seq<byte>)
    requires DecodeBinary(b).Frame? && DecodeBinary(b).frame.StreamData?
    ensures var f := DecodeBinary(b).frame; EncodeStreamData(f.stream, f.no, f.payload) == b
  {
    ToFrom(b[1..5]);
    ToFrom(b[5..9]);
    assert b == [b[0]] + b[1..5] + b[5..9] + b[9..];
  }

  /** A chunk sent among other messages is read back with its stream, its number and its bytes. */
  lemma ChunkInAStream(before: seq<Message>, after: seq<Message>, stream: u32, no: u32, payload: seq<byte>)
    requires forall i :: 0 <= i < |before| ==> WellFormed(before[i]) && |before[i].payload| <= MAX_FRAME
    requires forall i :: 0 <= i < |after| ==> WellFormed(after[i]) && |after[i].payload| <= MAX_FRAME
    requires |payload| + 9 <= MAX_FRAME
    ensures var ms := before + [Binary(EncodeStreamData(stream, no, payload))] + after;
      && ReadAll(EncodeAll(ms)) == Ok(ms)
      && DecodeBinary(ms[|before|].payload) == Frame(StreamData(stream, no, payload))
  {
    StreamDataRoundTrip(stream, no, payload);
    StreamReadsBack(before + [Binary(EncodeStreamData(stream, no, payload))] + after);
  }
}
