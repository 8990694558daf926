/** Length-prefixed framing on the named pipe: what the reader queues for a byte stream, however
    the stream is cut into reads. */
module IpcFraming {
  import opened Options

  type Byte = b: int | 0 <= b < 256

  const MAX_PAYLOAD := 1024 * 1024
  const U32_LIMIT := 0x1_0000_0000

  /** What becomes of a payload: it does not parse, it is of another protocol version (or not an
      object at all), or it is a message. */
  datatype Parsed<M> = Malformed | WrongVersion | Good(msg: M)

  datatype Payload = Payload(bytes: seq<Byte>)

  // ----- the length prefix -----

  /** `struct.pack("<I", n)`. */
  function Pack(n: nat): (h: seq<Byte>)
    requires n < U32_LIMIT
    ensures |h| == 4
  {
    [n % 256, n / 256 % 256, n / 65536 % 256, n / 16777216 % 256]
  }

  /** `struct.unpack("<I", h)`. */
  function Unpack(h: seq<Byte>): (n: nat)
    requires |h| == 4
    ensures n < U32_LIMIT
  {
    var (a: int, b: int, c: int, d: int) := (h[0], h[1], h[2], h[3]);
    a + 256 * b + 65536 * c + 16777216 * d
  }

  lemma UnpackPack(n: nat)
    requires n < U32_LIMIT
    ensures Unpack(Pack(n)) == n
  {
    var a, b, c := n / 256, n / 65536, n / 16777216;
    assert n == 256 * a + n % 256;
    assert a == 256 * b + a % 256;
    assert b == 256 * c + b % 256;
  }

  // ----- writing and reading -----

  function Frame(p: Payload): seq<Byte>
    requires |p.bytes| < U32_LIMIT
  {
    Pack(|p.bytes|) + p.bytes
  }

  ghost predicate Sized(ps: seq<Payload>) {
    forall i :: 0 <= i < |ps| ==> 1 <= |ps[i].bytes| <= MAX_PAYLOAD
  }

  function Wire(ps: seq<Payload>): seq<Byte>
    requires Sized(ps)
  {
    if ps == [] then [] else Frame(ps[0]) + Wire(ps[1..])
  }

  /** The messages the reader queues for a stream that ends after `bytes`. */
  function Drain<M>(bytes: seq<Byte>, decode: seq<Byte> -> Parsed<M>): seq<M>
    decreases |bytes|
  {
    if |bytes| < 4 then []
    else
      var length := Unpack(bytes[..4]);
      if length == 0 || length > MAX_PAYLOAD || |bytes| < 4 + length then []
      else
        var rest := bytes[4 + length..];
        match decode(bytes[4..4 + length])
        case Malformed => Drain(rest, decode)
        case WrongVersion => []
        case Good(m) => [m] + Drain(rest, decode)
  }

  /** The messages among payloads. */
  function Messages<M>(ps: seq<Payload>, decode: seq<Byte> -> Parsed<M>): seq<M> {
    if ps == [] then []
    else
      var p := decode(ps[0].bytes);
      (if p.Good? then [p.msg] else []) + Messages(ps[1..], decode)
  }

  ghost predicate SameVersion<M>(ps: seq<Payload>, decode: seq<Byte> -> Parsed<M>) {
    forall i :: 0 <= i < |ps| ==> decode(ps[i].bytes) != WrongVersion
  }

  /** A stream at which the reader ends at once: a cut header or payload, a bad length, or a frame
      of another version. */
  predicate EndsReader<M>(bytes: seq<Byte>, decode: seq<Byte> -> Parsed<M>) {
    if |bytes| < 4 then true
    else
      var length := Unpack(bytes[..4]);
      length == 0 || length > MAX_PAYLOAD || |bytes| < 4 + length
      || decode(bytes[4..4 + length]) == WrongVersion
  }

  lemma DrainFrame<M>(p: Payload, rest: seq<Byte>, decode: seq<Byte> -> Parsed<M>)
    requires 1 <= |p.bytes| <= MAX_PAYLOAD
    ensures Drain(Frame(p) + rest, decode) ==
            match decode(p.bytes)
            case Malformed => Drain(rest, decode)
            case WrongVersion => []
            case Good(m) => [m] + Drain(rest, decode)
  {
    var n := |p.bytes|;
    var bytes := Frame(p) + rest;
    UnpackPack(n);
    assert bytes[..4] == Pack(n);
    assert bytes[4..4 + n] == p.bytes;
    assert bytes[4 + n..] == rest;
  }

  lemma Associate<T>(a: seq<T>, b: seq<T>, c: seq<T>)
    ensures a + b + c == a + (b + c) && [] + b == b
  {
  }

  /** Whatever follows them, well-formed frames are read first, in order; malformed payloads are
      skipped without losing the position. */
  lemma {:induction false} DrainWire<M>(ps: seq<Payload>, rest: seq<Byte>, decode: seq<Byte> -> Parsed<M>)
    requires Sized(ps) && SameVersion(ps, decode)
    ensures Drain(Wire(ps) + rest, decode) == Messages(ps, decode) + Drain(rest, decode)
    decreases |ps|
  {
    if ps == [] {
      assert Wire(ps) + rest == rest;
    } else {
      var tail := Wire(ps[1..]) + rest;
      Associate(Frame(ps[0]), Wire(ps[1..]), rest);
      DrainFrame(ps[0], tail, decode);
      DrainWire(ps[1..], rest, decode);
      assert decode(ps[0].bytes) != WrongVersion;
      var first := if decode(ps[0].bytes).Good? then [decode(ps[0].bytes).msg] else [];
      Associate(first, Messages(ps[1..], decode), Drain(rest, decode));
    }
  }

  /** A stream that ends the reader behind well-formed frames yields exactly those frames. */
  lemma DrainIsExactPrefix<M>(ps: seq<Payload>, rest: seq<Byte>, decode: seq<Byte> -> Parsed<M>)
    requires Sized(ps) && SameVersion(ps, decode) && EndsReader(rest, decode)
    ensures Drain(Wire(ps) + rest, decode) == Messages(ps, decode)
  {
    DrainWire(ps, rest, decode);
  }

  /** Every stream is such a stream, so the two cases above are all there are. */
  lemma {:induction false} Decompose<M>(bytes: seq<Byte>, decode: seq<Byte> -> Parsed<M>)
      returns (ps: seq<Payload>, rest: seq<Byte>)
    ensures Sized(ps) && SameVersion(ps, decode) && EndsReader(rest, decode)
    ensures bytes == Wire(ps) + rest
    decreases |bytes|
  {
    if EndsReader(bytes, decode) {
      return [], bytes;
    }
    var length := Unpack(bytes[..4]);
    var p := Payload(bytes[4..4 + length]);
    var more;
    more, rest := Decompose(bytes[4 + length..], decode);
    ps := [p] + more;
    assert ps[1..] == more;
    PackUnpack(bytes[..4]);
    assert bytes == bytes[..4] + bytes[4..4 + length] + bytes[4 + length..];
    assert bytes == Frame(p) + (Wire(more) + rest);
  }

  lemma PackUnpack(h: seq<Byte>)
    requires |h| == 4
    ensures Pack(Unpack(h)) == h
  {
    var h0: int, h1: int, h2: int, h3: int := h[0], h[1], h[2], h[3];
    var a: int := h2 + 256 * h3;
    var b: int := h1 + 256 * a;
    var n := Unpack(h);
    assert n == h0 + 256 * b && n / 256 == b;
    assert b / 256 == a && a / 256 == h3;
    assert n / 65536 == b / 256 && n / 16777216 == a / 256;
  }

  /** The frames of a sender. */
  function Encoded<M>(ms: seq<M>, encode: M -> seq<Byte>): seq<Payload> {
    if ms == [] then [] else [Payload(encode(ms[0]))] + Encoded(ms[1..], encode)
  }

  /** Round trip: when encoding and decoding are inverse and payloads have 1 to 2^20 bytes, the
      reader queues what was sent. */
  lemma {:induction false} RoundTrip<M>(ms: seq<M>, encode: M -> seq<Byte>, decode: seq<Byte> -> Parsed<M>)
    requires forall i :: 0 <= i < |ms| ==> decode(encode(ms[i])) == Good(ms[i]) && 1 <= |encode(ms[i])| <= MAX_PAYLOAD
    ensures Sized(Encoded(ms, encode)) && Drain(Wire(Encoded(ms, encode)), decode) == ms
    decreases |ms|
  {
    if ms != [] {
      RoundTrip(ms[1..], encode, decode);
      var ps := Encoded(ms, encode);
      assert ps[1..] == Encoded(ms[1..], encode);
      DrainFrame(ps[0], Wire(ps[1..]), decode);
    }
  }

  /** A single frame arrives exactly when its length is in range: the writer does not check. */
  lemma FrameArrivesExactly<M>(p: Payload, decode: seq<Byte> -> Parsed<M>)
    requires |p.bytes| < U32_LIMIT && decode(p.bytes).Good?
    ensures Drain(Frame(p), decode) == [decode(p.bytes).msg] <==> 1 <= |p.bytes| <= MAX_PAYLOAD
  {
    UnpackPack(|p.bytes|);
    assert Frame(p)[..4] == Pack(|p.bytes|);
    if 1 <= |p.bytes| <= MAX_PAYLOAD {
      assert Frame(p) + [] == Frame(p);
      DrainFrame(p, [], decode);
    }
  }

  // ----- the pipe and the reader -----

  /** The read end of a pipe: `pending` is everything that will still arrive before it fails. */
  class Pipe {
    var pending: seq<Byte>

    constructor (stream: seq<Byte>)
      ensures pending == stream
    {
      pending := stream;
    }

    /** One blocking read: some bytes, at least one and at most `count`, or a failure. */
    method ReadFile(count: nat) returns (data: Option<seq<Byte>>)
      requires count > 0
      modifies this
      ensures data.None? ==> old(pending) == [] == pending
      ensures data.Some? ==> 1 <= |data.value| <= count && old(pending) == data.value + pending
    {
      if pending == [] {
        return None;
      }
      var k: nat :| 1 <= k <= count && k <= |pending|;
      data := Some(pending[..k]);
      pending := pending[k..];
    }

    /** Exactly `count` bytes, collected over any number of reads. */
    method ReadBytes(count: nat) returns (data: Option<seq<Byte>>)
      modifies this
      ensures data.Some? <==> |old(pending)| >= count
      ensures data.Some? ==> data.value == old(pending)[..count] && pending == old(pending)[count..]
      ensures |pending| <= |old(pending)|
    {
      var chunks := [];
      var remaining := count;
      while remaining > 0
        invariant 0 <= remaining <= count && |chunks| == count - remaining
        invariant old(pending) == chunks + pending
      {
        var chunk := ReadFile(remaining);
        if chunk.None? {
          return None;
        }
        chunks := chunks + chunk.value;
        remaining := remaining - |chunk.value|;
      }
      data := Some(chunks);
    }
  }

  function Queued<M>(ms: seq<M>): (q: seq<Option<M>>)
    ensures |q| == |ms|
  {
    if ms == [] then [] else [Some(ms[0])] + Queued(ms[1..])
  }

  class IpcReader<M> {
    const pipe: Pipe
    const decode: seq<Byte> -> Parsed<M>
    var queue: seq<Option<M>>
    /** The messages handed to the action-result table, each just before it is queued. */
    var delivered: seq<M>
    var connected: bool

    constructor (pipe: Pipe, decode: seq<Byte> -> Parsed<M>)
      ensures this.pipe == pipe && this.decode == decode
      ensures queue == [] && delivered == [] && connected
    {
      this.pipe, this.decode := pipe, decode;
      queue, delivered, connected := [], [], true;
    }

    /** One frame: the stream is over, or a malformed payload was skipped, or there is a message. */
    method ReadFrame() returns (frame: Option<Parsed<M>>)
      modifies pipe
      ensures frame.None? || frame == Some(WrongVersion) ==> Drain(old(pipe.pending), decode) == []
      ensures frame == Some(Malformed) ==> Drain(old(pipe.pending), decode) == Drain(pipe.pending, decode)
      ensures frame.Some? && frame.value.Good? ==>
                Drain(old(pipe.pending), decode) == [frame.value.msg] + Drain(pipe.pending, decode)
      ensures frame.Some? ==> |pipe.pending| < |old(pipe.pending)|
    {
      ghost var before := pipe.pending;
      var header := pipe.ReadBytes(4);
      if header.None? {
        return None;
      }
      var length := Unpack(header.value);
      if length == 0 || length > MAX_PAYLOAD {
        return None;
      }
      var payload := pipe.ReadBytes(length);
      if payload.None? {
        return None;
      }
      assert payload.value == before[4..4 + length] && pipe.pending == before[4 + length..];
      return Some(decode(payload.value));
    }

    /** Drains the pipe. For every cutting of the stream into reads, the queue receives exactly the
        messages of the stream and then one end mark. */
    method ReaderLoop()
      modifies this, pipe
      ensures queue == old(queue) + Queued(Drain(old(pipe.pending), decode)) + [None]
      ensures delivered == old(delivered) + Drain(old(pipe.pending), decode)
      ensures !connected
    {
      ghost var stream, queue0, delivered0 := pipe.pending, queue, delivered;
      ghost var read: seq<M> := [];
      while true
        invariant queue == queue0 + Queued(read) && delivered == delivered0 + read
        invariant Drain(stream, decode) == read + Drain(pipe.pending, decode)
        decreases |pipe.pending|
      {
        var frame := ReadFrame();
        if frame.None? || frame.value.WrongVersion? {
          AppendNothing(read);
          break;
        }
        if frame.value.Malformed? {
          continue;
        }
        var msg := frame.value.msg;
        QueuedSnoc(read, msg);
        OneMore(read, msg, Drain(pipe.pending, decode));
        OneMore(delivered0, msg, []);
        read := read + [msg];
        delivered := delivered + [msg];
        queue := queue + [Some(msg)];
      }
      connected := false;
      queue := queue + [None];
    }
  }

  lemma AppendNothing<T>(a: seq<T>)
    ensures a + [] == a
  {
  }

  lemma OneMore<T>(a: seq<T>, x: T, b: seq<T>)
    ensures a + ([x] + b) == a + [x] + b
  {
  }

  lemma {:induction false} QueuedSnoc<M>(ms: seq<M>, m: M)
    ensures Queued(ms + [m]) == Queued(ms) + [Some(m)]
  {
    if ms == [] {
      assert ms + [m] == [m];
      assert Queued([m]) == [Some(m)] + Queued([m][1..]);
    } else {
      assert (ms + [m])[1..] == ms[1..] + [m];
      QueuedSnoc(ms[1..], m);
    }
  }
}
