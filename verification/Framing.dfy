/** The framing of the helper protocol (internal/guesthelper/protocol.go): a big-endian length, that
    many bytes of header, then as many raw bytes as the header's Len says. */
module Framing {
  import opened Wrappers

  const MAX_FRAME := 0x10_0000
  const MAX_PAYLOAD := 0x80_0000

  datatype Error =
    | FrameTooLarge         // ErrShortFrame: a length beyond the limits
    | Eof                   // the stream ended before the first byte of a part
    | UnexpectedEof         // the stream ended inside a part
    | BadHeader             // the header bytes do not decode
    | WriteFailed
    | Closed

  /** JSON encoding of a header; `len` is its Len field. */
  datatype Codec<!H> = Codec(enc: H -> seq<byte>, dec: seq<byte> -> Option<H>, len: H -> int)

  /** What was encoded decodes to itself. */
  ghost predicate Faithful<H(!new)>(c: Codec<H>) {
    forall h :: c.dec(c.enc(h)) == Some(h)
  }

  datatype Message<H> = Message(header: H, payload: seq<byte>)

  // ----- Lengths -----

  function BigEndian(n: nat): (b: seq<byte>)
    requires n < 0x1_0000_0000
    ensures |b| == 4 && FromBigEndian(b) == n
  {
    DividedTwice(n);
    [n / 0x100_0000, n / 0x1_0000 % 0x100, n / 0x100 % 0x100, n % 0x100]
  }

  lemma DividedTwice(n: nat)
    ensures n / 0x1_0000 == n / 0x100 / 0x100 && n / 0x100_0000 == n / 0x100 / 0x100 / 0x100
  {
  }

  function FromBigEndian(b: seq<byte>): nat
    requires |b| == 4
  {
    b[0] as int * 0x100_0000 + b[1] as int * 0x1_0000 + b[2] as int * 0x100 + b[3] as int
  }

  // ----- Writing -----

  /** WriteMessage: what reaches the stream when every write succeeds. */
  function FrameOf<H>(c: Codec<H>, m: Message<H>): Result<seq<byte>, Error> {
    var b := c.enc(m.header);
    if |b| > MAX_FRAME then Err(FrameTooLarge) else Ok(BigEndian(|b|) + b + m.payload)
  }

  /** The frame on the wire: the header's length in four bytes, the most significant first, the header,
      and the payload to the end. */
  lemma WireFormat<H>(c: Codec<H>, m: Message<H>)
    requires |c.enc(m.header)| <= MAX_FRAME
    ensures var r, n := FrameOf(c, m), |c.enc(m.header)|;
            && r.Ok? && |r.value| == 4 + n + |m.payload|
            && n == r.value[0] as int * 16777216 + r.value[1] as int * 65536 + r.value[2] as int * 256 + r.value[3] as int
            && r.value[4..4 + n] == c.enc(m.header) && r.value[4 + n..] == m.payload
  {
    var b := BigEndian(|c.enc(m.header)|);
    var frame := FrameOf(c, m).value;
    assert frame[..4] == b && frame[0] == b[0] && frame[1] == b[1] && frame[2] == b[2] && frame[3] == b[3];
  }

  // ----- Reading -----

  /** A value read off the front of a stream, with the rest, or the error. */
  datatype Read<T> = Got(value: T, rest: seq<byte>) | Failed(error: Error)

  /** io.ReadFull. */
  function Take(s: seq<byte>, n: nat): Read<seq<byte>> {
    if n <= |s| then Got(s[..n], s[n..]) else if s == [] then Failed(Eof) else Failed(UnexpectedEof)
  }

  function HeaderOf<H>(c: Codec<H>, s: seq<byte>): Read<H> {
    match Take(s, 4)
    case Failed(e) => Failed(e)
    case Got(prefix, s1) =>
      var n := FromBigEndian(prefix);
      if n > MAX_FRAME then Failed(FrameTooLarge)
      else match Take(s1, n)
        case Failed(e) => Failed(e)
        case Got(b, s2) =>
          match c.dec(b)
          case None => Failed(BadHeader)
          case Some(h) => Got(h, s2)
  }

  function PayloadOf(s: seq<byte>, n: int): Read<seq<byte>> {
    if n < 0 || n > MAX_PAYLOAD then Failed(FrameTooLarge)
    else Take(s, n)
  }

  /** A header and, when its Len is positive, the payload it announces. */
  function MessageOf<H>(c: Codec<H>, s: seq<byte>): Read<Message<H>> {
    match HeaderOf(c, s)
    case Failed(e) => Failed(e)
    case Got(h, s1) =>
      if c.len(h) <= 0 then Got(Message(h, []), s1)
      else match PayloadOf(s1, c.len(h))
        case Failed(e) => Failed(e)
        case Got(p, s2) => Got(Message(h, p), s2)
  }

  // ----- Round trip -----

  /** Within the bounds, and Len announces the payload. */
  predicate Sound<H>(c: Codec<H>, m: Message<H>) {
    |c.enc(m.header)| <= MAX_FRAME && |m.payload| <= MAX_PAYLOAD && Announces(c, m)
  }

  predicate Announces<H>(c: Codec<H>, m: Message<H>) {
    c.len(m.header) == |m.payload| || (c.len(m.header) <= 0 && m.payload == [])
  }

  lemma HeaderRoundTrip<H(!new)>(c: Codec<H>, h: H, rest: seq<byte>)
    requires Faithful(c) && |c.enc(h)| <= MAX_FRAME
    ensures HeaderOf(c, BigEndian(|c.enc(h)|) + c.enc(h) + rest) == Got(h, rest)
  {
    var b := c.enc(h);
    var prefix := BigEndian(|b|);
    var s := prefix + b + rest;
    assert s[..4] == prefix && s[4..] == b + rest;
    assert (b + rest)[..|b|] == b && (b + rest)[|b|..] == rest;
  }

  /** A message written to the stream is read back, and nothing after it is touched, exactly when its
      Len announces its payload. */
  lemma MessageRoundTrip<H(!new)>(c: Codec<H>, m: Message<H>)
    requires Faithful(c) && |c.enc(m.header)| <= MAX_FRAME && |m.payload| <= MAX_PAYLOAD
    ensures (forall rest :: MessageOf(c, FrameOf(c, m).value + rest) == Got(m, rest)) <==> Announces(c, m)
  {
    var frame := FrameOf(c, m).value;
    forall rest
      ensures Announces(c, m) ==> MessageOf(c, frame + rest) == Got(m, rest)
    {
      if Announces(c, m) {
        ReadBack(c, m, rest);
      }
    }
    if !Announces(c, m) {
      var rest := [];
      var n := c.len(m.header);
      assert frame + rest == BigEndian(|c.enc(m.header)|) + c.enc(m.header) + (m.payload + rest);
      HeaderRoundTrip(c, m.header, m.payload + rest);
      assert MessageOf(c, frame + rest) != Got(m, rest);
    }
  }

  lemma ReadBack<H(!new)>(c: Codec<H>, m: Message<H>, rest: seq<byte>)
    requires Faithful(c) && |c.enc(m.header)| <= MAX_FRAME && |m.payload| <= MAX_PAYLOAD && Announces(c, m)
    ensures MessageOf(c, FrameOf(c, m).value + rest) == Got(m, rest)
  {
    var s := m.payload + rest;
    assert FrameOf(c, m).value + rest == BigEndian(|c.enc(m.header)|) + c.enc(m.header) + s;
    HeaderRoundTrip(c, m.header, s);
    assert s[..|m.payload|] == m.payload && s[|m.payload|..] == rest;
    if m.payload == [] {
      assert s == rest;
    }
  }

  /** The places in a frame at which nothing of the next part has been read yet: its start, the end of
      the length, the end of the header. */
  predicate AtBoundary<H>(c: Codec<H>, m: Message<H>, k: nat) {
    k == 0 || k == 4 || k == 4 + |c.enc(m.header)|
  }

  /** A stream cut short inside a message yields no message; and it looks like the proper end of the
      stream exactly when it is cut at the start, after the length or after the header. */
  lemma TruncatedFails<H(!new)>(c: Codec<H>, m: Message<H>, k: nat)
    requires Faithful(c) && Sound(c, m) && k < |FrameOf(c, m).value|
    ensures MessageOf(c, FrameOf(c, m).value[..k]) == Failed(if AtBoundary(c, m, k) then Eof else UnexpectedEof)
  {
    var b, prefix := c.enc(m.header), BigEndian(|c.enc(m.header)|);
    var frame := prefix + b + m.payload;
    var s := frame[..k];
    if k >= 4 {
      assert s[..4] == frame[..4] == prefix;
      var s1 := s[4..];
      assert s1 == frame[4..k] == (b + m.payload)[..k - 4];
      if k - 4 >= |b| {
        assert s1[..|b|] == b && s1[|b|..] == m.payload[..k - 4 - |b|];
      }
    }
  }

  predicate AllSound<H>(c: Codec<H>, ms: seq<Message<H>>) {
    forall i | 0 <= i < |ms| :: Sound(c, ms[i])
  }

  function Stream<H>(c: Codec<H>, ms: seq<Message<H>>): seq<byte>
    requires AllSound(c, ms)
  {
    if ms == [] then []
    else
      assert Sound(c, ms[0]);
      FrameOf(c, ms[0]).value + Stream(c, ms[1..])
  }

  /** Reading messages until the stream fails. */
  function MessagesOf<H>(c: Codec<H>, s: seq<byte>): (r: (seq<Message<H>>, Error))
    decreases |s|
  {
    match MessageOf(c, s)
    case Failed(e) => ([], e)
    case Got(m, rest) =>
      MessageShrinks(c, s);
      var (ms, e) := MessagesOf(c, rest);
      ([m] + ms, e)
  }

  lemma MessageShrinks<H>(c: Codec<H>, s: seq<byte>)
    ensures MessageOf(c, s).Got? ==> |MessageOf(c, s).rest| < |s|
  {
  }

  lemma NextMessage<H>(c: Codec<H>, s: seq<byte>, m: Message<H>, rest: seq<byte>)
    requires MessageOf(c, s) == Got(m, rest)
    ensures MessagesOf(c, s) == ([m] + MessagesOf(c, rest).0, MessagesOf(c, rest).1)
  {
  }

  /** Any sequence of sound messages, concatenated, is read back exactly, and then the stream is at its end. */
  lemma {:induction false} StreamRoundTrip<H(!new)>(c: Codec<H>, ms: seq<Message<H>>)
    requires Faithful(c) && AllSound(c, ms)
    ensures MessagesOf(c, Stream(c, ms)) == (ms, Eof)
    decreases |ms|
  {
    if ms != [] {
      var rest := Stream(c, ms[1..]);
      ReadBack(c, ms[0], rest);
      NextMessage(c, Stream(c, ms), ms[0], rest);
      StreamRoundTrip(c, ms[1..]);
      assert ms == [ms[0]] + ms[1..];
    }
  }

  // ----- The streams themselves -----

  /** A stream that accepts each write in full, or fails part of the way through it. */
  class Sink {
    var sent: seq<byte>

    constructor ()
      ensures sent == []
    {
      sent := [];
    }

    method Write(data: seq<byte>) returns (ok: bool)
      modifies this
      ensures old(sent) <= sent <= old(sent) + data
      ensures ok <==> |sent| == |old(sent)| + |data|
    {
      var n: nat :| n <= |data|;
      sent := sent + data[..n];
      ok := n == |data|;
    }
  }

  /** A stream that delivers its bytes in pieces of any size, and then ends. */
  class Source {
    var rest: seq<byte>

    constructor (bytes: seq<byte>)
      ensures rest == bytes
    {
      rest := bytes;
    }

    /** Between one and `max` bytes, or none at the end of the stream. */
    method Read(max: nat) returns (data: seq<byte>)
      requires max > 0
      modifies this
      ensures |data| <= max && old(rest) == data + rest && (data == [] <==> old(rest) == [])
    {
      if rest == [] {
        return [];
      }
      var n: nat :| 1 <= n <= max && n <= |rest|;
      data, rest := rest[..n], rest[n..];
    }
  }

  /** io.ReadFull over short reads. */
  method ReadFull(r: Source, n: nat) returns (data: Result<seq<byte>, Error>)
    modifies r
    ensures match Take(old(r.rest), n)
            case Got(v, rest) => data == Ok(v) && r.rest == rest
            case Failed(e) => data == Err(e) && r.rest == []
  {
    var buf: seq<byte> := [];
    while |buf| < n
      invariant |buf| <= n && old(r.rest) == buf + r.rest
    {
      var more := r.Read(n - |buf|);
      if more == [] {
        return if buf == [] then Err(Eof) else Err(UnexpectedEof);
      }
      buf := buf + more;
    }
    return Ok(buf);
  }

  /** Writes the length, the header and, if there is one, the payload; stops at the first failure. */
  method WriteMessage<H>(w: Sink, c: Codec<H>, m: Message<H>) returns (r: Result<(), Error>)
    modifies w
    ensures match FrameOf(c, m)
            case Err(e) => r == Err(e) && w.sent == old(w.sent)
            case Ok(frame) =>
              && old(w.sent) <= w.sent <= old(w.sent) + frame
              && (r.Ok? <==> |w.sent| == |old(w.sent)| + |frame|)
              && (r.Err? ==> r.error == WriteFailed)
  {
    var b := c.enc(m.header);
    if |b| > MAX_FRAME {
      return Err(FrameTooLarge);
    }
    ghost var before := w.sent;
    var ok := w.Write(BigEndian(|b|));
    if !ok {
      return Err(WriteFailed);
    }
    ok := w.Write(b);
    if !ok {
      return Err(WriteFailed);
    }
    if |m.payload| > 0 {
      ok := w.Write(m.payload);
      if !ok {
        return Err(WriteFailed);
      }
    }
    return Ok(());
  }

  method ReadHeader<H>(r: Source, c: Codec<H>) returns (h: Result<H, Error>)
    modifies r
    ensures match HeaderOf(c, old(r.rest))
            case Got(v, rest) => h == Ok(v) && r.rest == rest
            case Failed(e) => h == Err(e)
  {
    var prefix := ReadFull(r, 4);
    if prefix.Err? {
      return Err(prefix.error);
    }
    var n := FromBigEndian(prefix.value);
    if n > MAX_FRAME {
      return Err(FrameTooLarge);
    }
    var buf := ReadFull(r, n);
    if buf.Err? {
      return Err(buf.error);
    }
    var v := c.dec(buf.value);
    return if v.Some? then Ok(v.value) else Err(BadHeader);
  }

  method ReadPayload(r: Source, n: int) returns (p: Result<seq<byte>, Error>)
    modifies r
    ensures match PayloadOf(old(r.rest), n)
            case Got(v, rest) => p == Ok(v) && r.rest == rest
            case Failed(e) => p == Err(e)
  {
    if n < 0 || n > MAX_PAYLOAD {
      return Err(FrameTooLarge);
    }
    if n == 0 {
      return Ok([]);
    }
    p := ReadFull(r, n);
  }
}
