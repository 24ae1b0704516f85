/** Length-prefixed framing over a byte stream (nexus_transport.py): a big-endian 4-byte
    length, then that many bytes of payload, however the network fragments them. */
module Framing {
  import opened Basics

  type Byte = x: int | 0 <= x < 256

  const HEADER_SIZE := 4
  const MAX_MESSAGE_SIZE := 16 * 1024 * 1024

  /** JSON in UTF-8; `loads` also refuses what is not an object. */
  datatype Codec<!M> = Codec(dumps: M -> seq<Byte>, loads: seq<Byte> -> Result<M, ()>)

  datatype EncodeError = EmptyMessage | TooLargeToSend

  datatype RecvError = ConnectionClosed | InvalidSize | TooLarge | InvalidPayload

  // ----- header ------------------------------------------------------------------------------

  function Pack(n: nat): (h: seq<Byte>)
    requires n < 0x1_0000_0000
    ensures |h| == HEADER_SIZE
  {
    [n / 0x100_0000, n / 0x1_0000 % 0x100, n / 0x100 % 0x100, n % 0x100]
  }

  function Unpack(h: seq<Byte>): (n: nat)
    requires |h| == HEADER_SIZE
    ensures n < 0x1_0000_0000
  {
    var a: int, b: int, c: int, d: int := h[0], h[1], h[2], h[3];
    ((a * 0x100 + b) * 0x100 + c) * 0x100 + d
  }

  lemma DivideInTurn(n: nat)
    ensures n / 0x1_0000 == n / 0x100 / 0x100
    ensures n / 0x100_0000 == n / 0x1_0000 / 0x100
  {
  }

  lemma UnpackInvertsPack(n: nat)
    requires n < 0x1_0000_0000
    ensures Unpack(Pack(n)) == n
  {
    DivideInTurn(n);
    var high, middle := n / 0x1_0000, n / 0x100;
    assert high == (high / 0x100) * 0x100 + high % 0x100;
    assert middle == high * 0x100 + middle % 0x100;
    assert n == middle * 0x100 + n % 0x100;
  }

  lemma PackInvertsUnpack(h: seq<Byte>)
    requires |h| == HEADER_SIZE
    ensures Pack(Unpack(h)) == h
  {
    var a: int, b: int, c: int, d: int := h[0], h[1], h[2], h[3];
    var n := Unpack(h);
    assert n / 0x100 == (a * 0x100 + b) * 0x100 + c;
    assert n / 0x1_0000 == a * 0x100 + b;
    assert Pack(n) == [h[0], h[1], h[2], h[3]];
  }

  // ----- sending -------------------------------------------------------------------------------

  function EncodeMessage<M>(c: Codec<M>, m: M): Result<seq<Byte>, EncodeError> {
    var payload := c.dumps(m);
    if payload == [] then Err(EmptyMessage)
    else if |payload| > MAX_MESSAGE_SIZE then Err(TooLargeToSend)
    else Ok(Pack(|payload|) + payload)
  }

  // ----- receiving -----------------------------------------------------------------------------

  /** The receiving end of a connection that delivers `rest` and is then closed. The k-th `recv`
      finds at most max(1, offers(k)) bytes ready, so fragmentation is arbitrary. */
  class Conn {
    var rest: seq<Byte>
    var calls: nat
    const offers: nat -> nat

    constructor (stream: seq<Byte>, offers: nat -> nat)
      ensures rest == stream && this.offers == offers
    {
      rest, calls, this.offers := stream, 0, offers;
    }

    /** Nothing only at the end of the stream. */
    method Recv(limit: nat) returns (chunk: seq<Byte>)
      requires limit > 0
      modifies this
      ensures chunk + rest == old(rest) && |chunk| <= limit
      ensures chunk == [] <==> old(rest) == []
    {
      var ready := if offers(calls) == 0 then 1 else offers(calls);
      var size := if ready <= limit then ready else limit;
      if size > |rest| { size := |rest|; }
      chunk, rest := rest[..size], rest[size..];
      calls := calls + 1;
    }
  }

  /** `_recv_exact`. */
  method RecvExact(conn: Conn, size: nat) returns (r: Result<seq<Byte>, RecvError>)
    modifies conn
    ensures if size <= |old(conn.rest)| then r == Ok(old(conn.rest)[..size]) && conn.rest == old(conn.rest)[size..]
            else r == Err(ConnectionClosed) && conn.rest == []
  {
    var bytes: seq<Byte> := [];
    var remaining := size;
    while remaining > 0
      invariant 0 <= remaining <= size && |bytes| == size - remaining
      invariant bytes + conn.rest == old(conn.rest)
    {
      var chunk := conn.Recv(remaining);
      if chunk == [] { return Err(ConnectionClosed); }
      bytes := bytes + chunk;
      remaining := remaining - |chunk|;
    }
    return Ok(bytes);
  }

  /** What one `recv_message` makes of a stream, and what it leaves unread. */
  function TakeMessage<M>(c: Codec<M>, s: seq<Byte>): (Result<M, RecvError>, seq<Byte>) {
    if |s| < HEADER_SIZE then (Err(ConnectionClosed), [])
    else
      var size := Unpack(s[..HEADER_SIZE]);
      var body := s[HEADER_SIZE..];
      if size == 0 then (Err(InvalidSize), body)
      else if size > MAX_MESSAGE_SIZE then (Err(TooLarge), body)
      else if |body| < size then (Err(ConnectionClosed), [])
      else
        match c.loads(body[..size])
        case Ok(m) => (Ok(m), body[size..])
        case Err(_) => (Err(InvalidPayload), body[size..])
  }

  /** `recv_message`: the answer depends on the bytes only, never on their fragmentation. */
  method RecvMessage<M>(c: Codec<M>, conn: Conn) returns (r: Result<M, RecvError>)
    modifies conn
    ensures (r, conn.rest) == TakeMessage(c, old(conn.rest))
  {
    var header := RecvExact(conn, HEADER_SIZE);
    if header.Err? { return Err(header.error); }
    var size := Unpack(header.value);
    if size <= 0 { return Err(InvalidSize); }
    if size > MAX_MESSAGE_SIZE { return Err(TooLarge); }
    var payload := RecvExact(conn, size);
    if payload.Err? { return Err(payload.error); }
    match c.loads(payload.value)
    case Ok(m) => return Ok(m);
    case Err(_) => return Err(InvalidPayload);
  }

  // ----- whole streams ---------------------------------------------------------------------------

  /** The receiver reloads what was dumped of these messages. */
  ghost predicate Reloads<M>(c: Codec<M>, ms: seq<M>) {
    forall i :: 0 <= i < |ms| ==> c.loads(c.dumps(ms[i])) == Ok(ms[i])
  }

  ghost predicate Sendable<M>(c: Codec<M>, ms: seq<M>) {
    forall i :: 0 <= i < |ms| ==> EncodeMessage(c, ms[i]).Ok?
  }

  ghost function Stream<M>(c: Codec<M>, ms: seq<M>): seq<Byte>
    requires Sendable(c, ms)
  {
    if ms == [] then [] else EncodeMessage(c, ms[0]).value + Stream(c, ms[1..])
  }

  /** What repeated `recv_message` yields, up to and including the first error. */
  ghost function ReceiveAll<M>(c: Codec<M>, s: seq<Byte>): (seq<M>, RecvError)
    decreases |s|
  {
    var (r, rest) := TakeMessage(c, s);
    if r.Err? then ([], r.error)
    else
      var (more, error) := ReceiveAll(c, rest);
      ([r.value] + more, error)
  }

  /** A frame is read back whole, whatever follows it. */
  lemma FrameIsRead<M>(c: Codec<M>, m: M, tail: seq<Byte>)
    requires c.loads(c.dumps(m)) == Ok(m) && EncodeMessage(c, m).Ok?
    ensures TakeMessage(c, EncodeMessage(c, m).value + tail) == (Ok(m), tail)
  {
    var payload := c.dumps(m);
    var s := EncodeMessage(c, m).value + tail;
    UnpackInvertsPack(|payload|);
    assert s[..HEADER_SIZE] == Pack(|payload|);
    assert s[HEADER_SIZE..] == payload + tail;
    assert (payload + tail)[..|payload|] == payload && (payload + tail)[|payload|..] == tail;
  }

  /** A frame cut short is a closed connection, nothing else. */
  lemma CutFrameCloses<M>(c: Codec<M>, m: M, k: nat)
    requires EncodeMessage(c, m).Ok? && k < |EncodeMessage(c, m).value|
    ensures TakeMessage(c, EncodeMessage(c, m).value[..k]) == (Err(ConnectionClosed), [])
  {
    var payload := c.dumps(m);
    var s := EncodeMessage(c, m).value[..k];
    if k >= HEADER_SIZE {
      UnpackInvertsPack(|payload|);
      assert s[..HEADER_SIZE] == Pack(|payload|);
    }
  }

  /** How many messages of the stream arrive whole within its first k bytes. */
  ghost function Whole<M>(c: Codec<M>, ms: seq<M>, k: nat): (n: nat)
    requires Sendable(c, ms)
    ensures n <= |ms|
  {
    if ms == [] || k < |EncodeMessage(c, ms[0]).value| then 0
    else 1 + Whole(c, ms[1..], k - |EncodeMessage(c, ms[0]).value|)
  }

  /** It is the greatest number of messages whose frames fit. */
  lemma {:induction false} WholeIsGreatest<M>(c: Codec<M>, ms: seq<M>, k: nat, n: nat)
    requires Sendable(c, ms) && n <= |ms|
    ensures |Stream(c, ms[..n])| <= k <==> n <= Whole(c, ms, k)
  {
    if n > 0 {
      var frame := EncodeMessage(c, ms[0]).value;
      assert ms[..n][1..] == ms[1..][..n - 1];
      assert Stream(c, ms[..n]) == frame + Stream(c, ms[1..][..n - 1]);
      if k >= |frame| { WholeIsGreatest(c, ms[1..], k - |frame|, n - 1); }
    }
  }

  lemma ReceiveOneMore<M>(c: Codec<M>, m: M, tail: seq<Byte>)
    requires c.loads(c.dumps(m)) == Ok(m) && EncodeMessage(c, m).Ok?
    ensures ReceiveAll(c, EncodeMessage(c, m).value + tail) == ([m] + ReceiveAll(c, tail).0, ReceiveAll(c, tail).1)
  {
    FrameIsRead(c, m, tail);
  }

  lemma CutLater<M>(c: Codec<M>, ms: seq<M>, k: nat)
    requires Sendable(c, ms) && ms != [] && |EncodeMessage(c, ms[0]).value| <= k <= |Stream(c, ms)|
    ensures var frame := EncodeMessage(c, ms[0]).value;
            k - |frame| <= |Stream(c, ms[1..])|
            && Stream(c, ms)[..k] == frame + Stream(c, ms[1..])[..k - |frame|]
  {
  }

  lemma CutInside<M>(c: Codec<M>, ms: seq<M>, k: nat)
    requires Sendable(c, ms) && ms != [] && k < |EncodeMessage(c, ms[0]).value|
    ensures k <= |Stream(c, ms)| && ReceiveAll(c, Stream(c, ms)[..k]) == ([], ConnectionClosed)
  {
    var frame := EncodeMessage(c, ms[0]).value;
    assert Stream(c, ms)[..k] == frame[..k];
    CutFrameCloses(c, ms[0], k);
  }

  /** Cut anywhere, a stream yields exactly its complete messages and then a closed connection. */
  lemma {:induction false} CutStreamYieldsWholeMessages<M>(c: Codec<M>, ms: seq<M>, k: nat)
    requires Reloads(c, ms) && Sendable(c, ms) && k <= |Stream(c, ms)|
    ensures ReceiveAll(c, Stream(c, ms)[..k]) == (ms[..Whole(c, ms, k)], ConnectionClosed)
  {
    if ms != [] {
      var size := |EncodeMessage(c, ms[0]).value|;
      if k < size {
        CutInside(c, ms, k);
      } else {
        CutLater(c, ms, k);
        ReceiveOneMore(c, ms[0], Stream(c, ms[1..])[..k - size]);
        CutStreamYieldsWholeMessages(c, ms[1..], k - size);
        TakeOneMore(ms, Whole(c, ms[1..], k - size));
      }
    }
  }

  lemma TakeOneMore<M>(ms: seq<M>, n: nat)
    requires n < |ms|
    ensures ms[..n + 1] == [ms[0]] + ms[1..][..n]
  {
  }

  lemma AllArriveWhole<M>(c: Codec<M>, ms: seq<M>)
    requires Sendable(c, ms)
    ensures Whole(c, ms, |Stream(c, ms)|) == |ms|
  {
    assert ms[..|ms|] == ms;
    WholeIsGreatest(c, ms, |Stream(c, ms)|, |ms|);
  }

  /** What was sent is what arrives, in order, followed by a closed connection. */
  lemma StreamRoundTrip<M>(c: Codec<M>, ms: seq<M>)
    requires Reloads(c, ms) && Sendable(c, ms)
    ensures ReceiveAll(c, Stream(c, ms)) == (ms, ConnectionClosed)
  {
    var s := Stream(c, ms);
    assert s[..|s|] == s && ms[..|ms|] == ms;
    AllArriveWhole(c, ms);
    CutStreamYieldsWholeMessages(c, ms, |s|);
  }

  /** No two lists of messages share a byte stream. */
  lemma StreamsDiffer<M>(c: Codec<M>, ms: seq<M>, ns: seq<M>)
    requires Reloads(c, ms) && Reloads(c, ns) && Sendable(c, ms) && Sendable(c, ns) && Stream(c, ms) == Stream(c, ns)
    ensures ms == ns
  {
    StreamRoundTrip(c, ms);
    StreamRoundTrip(c, ns);
  }

  /** The two ends agree on sizes: a payload can be sent exactly when its length passes the
      receiver's checks. */
  lemma SizesAgree<M>(c: Codec<M>, m: M)
    requires |c.dumps(m)| < 0x1_0000_0000
    ensures EncodeMessage(c, m) == Err(EmptyMessage) <==> |c.dumps(m)| == 0
    ensures EncodeMessage(c, m) == Err(TooLargeToSend) <==> |c.dumps(m)| > 16777216
    ensures EncodeMessage(c, m).Ok? <==>
            TakeMessage(c, Pack(|c.dumps(m)|) + c.dumps(m)).0 !in {Err(InvalidSize), Err(TooLarge)}
  {
    var payload := c.dumps(m);
    var s := Pack(|payload|) + payload;
    UnpackInvertsPack(|payload|);
    assert s[..HEADER_SIZE] == Pack(|payload|) && s[HEADER_SIZE..] == payload;
  }

  /** Every answer to a stream that begins with a whole header: by the size it announces, the bytes
      that are there, and whether they can be loaded. The next message starts behind them. */
  lemma TakesExactly<M>(c: Codec<M>, n: nat, body: seq<Byte>)
    requires n < 0x1_0000_0000
    ensures TakeMessage(c, Pack(n) + body) ==
            if n == 0 then (Err(InvalidSize), body)
            else if n > 16777216 then (Err(TooLarge), body)
            else if |body| < n then (Err(ConnectionClosed), [])
            else if c.loads(body[..n]).Ok? then (Ok(c.loads(body[..n]).value), body[n..])
            else (Err(InvalidPayload), body[n..])
  {
    var s := Pack(n) + body;
    UnpackInvertsPack(n);
    assert s[..HEADER_SIZE] == Pack(n) && s[HEADER_SIZE..] == body;
  }

  lemma TooShortForAHeader<M>(c: Codec<M>, s: seq<Byte>)
    requires |s| < 4
    ensures TakeMessage(c, s) == (Err(ConnectionClosed), [])
  {
  }
}
