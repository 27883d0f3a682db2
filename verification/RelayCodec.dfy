/**
 The wire format of the two relays (`parse_packet`, `build_packet`, `read_frame`,
 `write_frame`).  The stream and the UDP relay share it and differ in the magic bytes; only
 the stream relay frames its packets with a length.  A Rust string is its UTF-8 bytes.
 */
module RelayCodec {
  import opened Base

  const STREAM_MAGIC: seq<byte> := [76, 83, 82, 50]
  const UDP_MAGIC: seq<byte> := [76, 83, 82, 49]

  const TYPE_REGISTER: byte := 1
  const TYPE_SEND: byte := 2
  const TYPE_DELIVER: byte := 3
  const HEADER_LEN: nat := 8
  const MAX_ID_LEN: nat := 64
  const MAX_FRAME_LEN: nat := 65536
  const UDP_BUFFER_LEN: nat := 2048

  datatype RelayPacket =
    | Register(nodeId: Text)
    | Send(fromId: Text, toId: Text, payload: seq<byte>)

  // ---------------------------------------------------------------- UTF-8

  predicate Continuation(b: byte) {
    0x80 <= b <= 0xBF
  }

  /** The number of bytes of the scalar value that starts `s`, or 0 if it is malformed. */
  function ScalarLen(s: seq<byte>): (n: nat)
    requires s != []
    ensures n <= |s|
  {
    var b := s[0];
    if b <= 0x7F then 1
    else if 0xC2 <= b <= 0xDF && |s| >= 2 && Continuation(s[1]) then 2
    else if |s| >= 3 && Continuation(s[1]) && Continuation(s[2]) &&
            (|| (b == 0xE0 && s[1] >= 0xA0) || 0xE1 <= b <= 0xEC
             || (b == 0xED && s[1] <= 0x9F) || 0xEE <= b <= 0xEF) then 3
    else if |s| >= 4 && Continuation(s[1]) && Continuation(s[2]) && Continuation(s[3]) &&
            ((b == 0xF0 && s[1] >= 0x90) || 0xF1 <= b <= 0xF3 || (b == 0xF4 && s[1] <= 0x8F)) then 4
    else 0
  }

  /** `std::str::from_utf8` succeeds. */
  predicate ValidUtf8(s: seq<byte>) {
    s == [] || (ScalarLen(s) > 0 && ValidUtf8(s[ScalarLen(s)..]))
  }

  // ---------------------------------------------------------------- packets

  function Parse(magic: seq<byte>, buf: seq<byte>): (r: Option<RelayPacket>)
    requires |magic| == 4
  {
    if |buf| < HEADER_LEN || buf[..4] != magic then None else
    var fromLen, toLen := buf[5] as nat, buf[6] as nat;
    if fromLen > MAX_ID_LEN || toLen > MAX_ID_LEN then None else
    if |buf| < HEADER_LEN + fromLen + toLen then None else
    var fromEnd := HEADER_LEN + fromLen;
    var toEnd := fromEnd + toLen;
    var fromId, toId := buf[HEADER_LEN..fromEnd], buf[fromEnd..toEnd];
    if !ValidUtf8(fromId) || !ValidUtf8(toId) then None else
    if buf[4] == TYPE_REGISTER then
      if fromId == [] || toId != [] then None else Some(Register(fromId))
    else if buf[4] == TYPE_SEND then
      if fromId == [] || toId == [] then None else Some(Send(fromId, toId, buf[toEnd..]))
    else None
  }

  /** Header, both ids, payload. */
  function Layout(magic: seq<byte>, kind: byte, fromId: Text, toId: Text, payload: seq<byte>): (buf: seq<byte>)
    requires |fromId| <= MAX_ID_LEN && |toId| <= MAX_ID_LEN
  {
    magic + [kind, |fromId| as byte, |toId| as byte, 0] + fromId + toId + payload
  }

  predicate Buildable(fromId: Text, toId: Text) {
    |fromId| <= MAX_ID_LEN && |toId| <= MAX_ID_LEN
  }

  datatype BuildError = IdTooLong

  method BuildPacket(magic: seq<byte>, kind: byte, fromId: Text, toId: Text, payload: seq<byte>)
    returns (r: Result<seq<byte>, BuildError>)
    ensures r.Ok? <==> Buildable(fromId, toId)
    ensures r.Ok? ==> r.value == Layout(magic, kind, fromId, toId, payload)
  {
    if |fromId| > MAX_ID_LEN || |toId| > MAX_ID_LEN {
      return Err(IdTooLong);
    }
    var buf: seq<byte> := magic;
    buf := buf + [kind];
    buf := buf + [|fromId| as byte];
    buf := buf + [|toId| as byte];
    buf := buf + [0];
    buf := buf + fromId;
    buf := buf + toId;
    buf := buf + payload;
    assert buf == Layout(magic, kind, fromId, toId, payload);
    return Ok(buf);
  }

  lemma LayoutParts(magic: seq<byte>, kind: byte, fromId: Text, toId: Text, payload: seq<byte>)
    requires |magic| == 4 && Buildable(fromId, toId)
    ensures var buf := Layout(magic, kind, fromId, toId, payload);
            && |buf| == HEADER_LEN + |fromId| + |toId| + |payload|
            && buf[..4] == magic && buf[4] == kind && buf[5] == |fromId| && buf[6] == |toId| && buf[7] == 0
            && buf[HEADER_LEN..HEADER_LEN + |fromId|] == fromId
            && buf[HEADER_LEN + |fromId|..HEADER_LEN + |fromId| + |toId|] == toId
            && buf[HEADER_LEN + |fromId| + |toId|..] == payload
  {
    var head := magic + [kind, |fromId| as byte, |toId| as byte, 0];
    assert Layout(magic, kind, fromId, toId, payload) == head + (fromId + (toId + payload));
  }

  /** A built Send or Register is read back exactly when the parser's limits admit its ids. */
  lemma ParseBuilt(magic: seq<byte>, fromId: Text, toId: Text, payload: seq<byte>)
    requires |magic| == 4 && Buildable(fromId, toId) && ValidUtf8(fromId) && ValidUtf8(toId)
    ensures Parse(magic, Layout(magic, TYPE_SEND, fromId, toId, payload))
         == if fromId == [] || toId == [] then None else Some(Send(fromId, toId, payload))
    ensures Parse(magic, Layout(magic, TYPE_REGISTER, fromId, toId, payload))
         == if fromId == [] || toId != [] then None else Some(Register(fromId))
    ensures Parse(magic, Layout(magic, TYPE_DELIVER, fromId, toId, payload)) == None
  {
    LayoutParts(magic, TYPE_SEND, fromId, toId, payload);
    LayoutParts(magic, TYPE_REGISTER, fromId, toId, payload);
    LayoutParts(magic, TYPE_DELIVER, fromId, toId, payload);
  }

  /** A parsed packet determines its bytes, up to reserved byte 7 and a Register's payload. */
  lemma BuildParsed(magic: seq<byte>, buf: seq<byte>)
    requires |magic| == 4 && Parse(magic, buf).Some?
    ensures match Parse(magic, buf).value
            case Send(fromId, toId, payload) =>
              && Buildable(fromId, toId)
              && Layout(magic, TYPE_SEND, fromId, toId, payload) == buf[7 := 0]
            case Register(nodeId) =>
              && Buildable(nodeId, [])
              && Layout(magic, TYPE_REGISTER, nodeId, [], []) == buf[7 := 0][..HEADER_LEN + |nodeId|]
  {
    var fromEnd := HEADER_LEN + buf[5] as nat;
    var toEnd := fromEnd + buf[6] as nat;
    var head := magic + [buf[4], buf[5], buf[6], 0];
    assert buf[7 := 0][..HEADER_LEN] == head;
    assert buf[7 := 0] == head + buf[HEADER_LEN..fromEnd] + buf[fromEnd..toEnd] + buf[toEnd..];
  }

  /** The parser does not look at the reserved byte. */
  lemma ReservedIgnored(magic: seq<byte>, buf: seq<byte>)
    requires |magic| == 4 && |buf| >= HEADER_LEN
    ensures Parse(magic, buf[7 := 0]) == Parse(magic, buf)
  {
    var b := buf[7 := 0];
    assert b[..4] == buf[..4];
    forall i, j | HEADER_LEN <= i <= j <= |buf|
      ensures b[i..j] == buf[i..j]
    {
    }
    forall i | HEADER_LEN <= i <= |buf|
      ensures b[i..] == buf[i..]
    {
    }
  }

  /**
   What parses as a Send is exactly what was laid out as one, with two UTF-8 ids of 1 to 64
   bytes and any reserved byte.
   */
  lemma ParsesIffBuilt(magic: seq<byte>, buf: seq<byte>, fromId: Text, toId: Text, payload: seq<byte>)
    requires |magic| == 4
    ensures Parse(magic, buf) == Some(Send(fromId, toId, payload)) <==>
              && fromId != [] && toId != [] && Buildable(fromId, toId) && ValidUtf8(fromId) && ValidUtf8(toId)
              && |buf| >= HEADER_LEN && buf[7 := 0] == Layout(magic, TYPE_SEND, fromId, toId, payload)
  {
    if Parse(magic, buf) == Some(Send(fromId, toId, payload)) {
      BuildParsed(magic, buf);
    }
    if |buf| >= HEADER_LEN && fromId != [] && toId != [] && Buildable(fromId, toId)
       && ValidUtf8(fromId) && ValidUtf8(toId) && buf[7 := 0] == Layout(magic, TYPE_SEND, fromId, toId, payload) {
      ParseBuilt(magic, fromId, toId, payload);
      ReservedIgnored(magic, buf);
    }
  }

  /** Which relay a packet is meant for is never ambiguous. */
  lemma RelaysAreSeparate(buf: seq<byte>)
    ensures Parse(STREAM_MAGIC, buf) == None || Parse(UDP_MAGIC, buf) == None
  {
    if |buf| >= HEADER_LEN {
      assert buf[..4][3] == buf[3];
      assert STREAM_MAGIC[3] != UDP_MAGIC[3];
    }
  }

  /** The ids and the payload of a packet that some relay accepted from a client. */
  ghost predicate AcceptedSend(magic: seq<byte>, limit: nat, fromId: Text, toId: Text, payload: seq<byte>)
    requires |magic| == 4
  {
    exists buf :: |buf| <= limit && Parse(magic, buf) == Some(Send(fromId, toId, payload))
  }

  /** The Deliver made of an accepted Send can always be built and is shorter than the Send was. */
  lemma DeliverFits(magic: seq<byte>, limit: nat, fromId: Text, toId: Text, payload: seq<byte>)
    requires |magic| == 4 && AcceptedSend(magic, limit, fromId, toId, payload)
    ensures Buildable(fromId, [])
    ensures 0 < |Layout(magic, TYPE_DELIVER, fromId, [], payload)| < limit
  {
    var buf :| |buf| <= limit && Parse(magic, buf) == Some(Send(fromId, toId, payload));
    BuildParsed(magic, buf);
    LayoutParts(magic, TYPE_SEND, fromId, toId, payload);
    LayoutParts(magic, TYPE_DELIVER, fromId, [], payload);
  }

  // ---------------------------------------------------------------- frames

  function BigEndian(n: nat): (b: seq<byte>)
    requires n < 0x1_0000_0000
    ensures |b| == 4
  {
    [(n / 0x100_0000) as byte, (n / 0x1_0000 % 0x100) as byte, (n / 0x100 % 0x100) as byte, (n % 0x100) as byte]
  }

  function FromBigEndian(b: seq<byte>): (n: nat)
    requires |b| == 4
  {
    b[0] as int * 0x100_0000 + b[1] as int * 0x1_0000 + b[2] as int * 0x100 + b[3] as int
  }

  lemma BigEndianRoundTrip(n: nat)
    requires n < 0x1_0000_0000
    ensures FromBigEndian(BigEndian(n)) == n
  {
    assert n == n / 0x100 * 0x100 + n % 0x100;
    assert n / 0x100 == n / 0x1_0000 * 0x100 + n / 0x100 % 0x100;
    assert n / 0x1_0000 == n / 0x100_0000 * 0x100 + n / 0x1_0000 % 0x100;
  }

  predicate FrameLenOk(n: nat) {
    0 < n <= MAX_FRAME_LEN
  }

  /** The bytes `write_frame` puts on the connection, or an error. */
  function WriteFrame(body: seq<byte>): (r: Option<seq<byte>>) {
    if !FrameLenOk(|body|) then None else Some(BigEndian(|body|) + body)
  }

  /** The next body and what follows it; None where `read_frame` fails or waits for more. */
  function ReadFrame(stream: seq<byte>): (r: Option<(seq<byte>, seq<byte>)>)
    ensures r.Some? ==> |r.value.1| < |stream|
  {
    if |stream| < 4 then None else
    var n := FromBigEndian(stream[..4]);
    if !FrameLenOk(n) || |stream| < 4 + n then None
    else Some((stream[4..4 + n], stream[4 + n..]))
  }

  function WriteAll(bodies: seq<seq<byte>>): (stream: seq<byte>)
    requires forall b <- bodies :: FrameLenOk(|b|)
  {
    if bodies == [] then [] else WriteFrame(bodies[0]).value + WriteAll(bodies[1..])
  }

  function ReadAll(stream: seq<byte>): (bodies: seq<seq<byte>>)
    decreases |stream|
  {
    match ReadFrame(stream)
    case None => []
    case Some((body, rest)) => [body] + ReadAll(rest)
  }

  lemma ReadWritten(body: seq<byte>, rest: seq<byte>)
    requires FrameLenOk(|body|)
    ensures ReadFrame(WriteFrame(body).value + rest) == Some((body, rest))
  {
    var stream := BigEndian(|body|) + body + rest;
    BigEndianRoundTrip(|body|);
    assert stream[..4] == BigEndian(|body|);
    assert stream[4..4 + |body|] == body;
    assert stream[4 + |body|..] == rest;
  }

  lemma FirstWritten(bodies: seq<seq<byte>>, rest: seq<byte>) returns (first: seq<byte>)
    requires bodies != [] && forall b <- bodies :: FrameLenOk(|b|)
    ensures WriteAll(bodies) == first + WriteAll(bodies[1..])
    ensures ReadAll(first + rest) == [bodies[0]] + ReadAll(rest)
  {
    first := WriteFrame(bodies[0]).value;
    ReadWritten(bodies[0], rest);
  }

  lemma NothingWritten(rest: seq<byte>)
    ensures WriteAll([]) + rest == rest
  {
  }

  lemma ReadsNext(bodies: seq<seq<byte>>, rest: seq<byte>)
    requires bodies != [] && forall b <- bodies :: FrameLenOk(|b|)
    ensures ReadAll(WriteAll(bodies) + rest) == [bodies[0]] + ReadAll(WriteAll(bodies[1..]) + rest)
  {
    var others := WriteAll(bodies[1..]);
    var first := FirstWritten(bodies, others + rest);
    assert (first + others) + rest == first + (others + rest);
  }

  /** Written frames are read back as the same frames, whatever follows them. */
  lemma {:induction false} FramesRoundTrip(bodies: seq<seq<byte>>, rest: seq<byte>)
    requires forall b <- bodies :: FrameLenOk(|b|)
    ensures ReadAll(WriteAll(bodies) + rest) == bodies + ReadAll(rest)
  {
    if bodies == [] {
      NothingWritten(rest);
    } else {
      ReadsNext(bodies, rest);
      FramesRoundTrip(bodies[1..], rest);
      Regroup(bodies, ReadAll(rest));
    }
  }

  lemma Regroup(bodies: seq<seq<byte>>, rest: seq<seq<byte>>)
    requires bodies != []
    ensures [bodies[0]] + (bodies[1..] + rest) == bodies + rest
  {
  }

  /** Reading is the inverse of writing also the other way: what is read was written so. */
  lemma WriteRead(stream: seq<byte>)
    requires ReadFrame(stream).Some?
    ensures var (body, rest) := ReadFrame(stream).value;
            FrameLenOk(|body|) && WriteFrame(body).value + rest == stream
  {
    var (body, rest) := ReadFrame(stream).value;
    assert stream == stream[..4] + body + rest;
    BigEndianInjective(stream[..4], |body|);
  }

  lemma BigEndianInjective(b: seq<byte>, n: nat)
    requires |b| == 4 && FromBigEndian(b) == n
    ensures n < 0x1_0000_0000 && BigEndian(n) == b
  {
    assert n / 0x100 == b[0] as int * 0x1_0000 + b[1] as int * 0x100 + b[2] as int;
    assert n / 0x1_0000 == b[0] as int * 0x100 + b[1] as int;
    assert n / 0x100_0000 == b[0];
  }
}
