/** Frames as sequences of bytes: what a stream means, independent of how it is cut up. */
module Framing {
  import opened MachineInts
  import opened Results
  import opened Wire

  datatype Message = Message(kind: Byte, payload: seq<Byte>)

  const RESOURCE_REPORT: Byte := 1
  const PING: Byte := 2
  const PONG: Byte := 3
  const SHUTDOWN: Byte := 4

  // ----- The frame buffer -----

  /** The uint32 length field, and the size of the frame buffer, also computed in uint32. */
  function LengthField(payloadSize: nat): nat { (1 + payloadSize) % TWO_32 }
  function BufferSize(payloadSize: nat): nat { (4 + LengthField(payloadSize)) % TWO_32 }

  /** sendMessage writes inside its buffer exactly for payloads of at most 2^32 - 6 bytes. */
  lemma {:induction false} FrameFits(payloadSize: nat)
    ensures 5 + payloadSize <= BufferSize(payloadSize) <==> payloadSize <= TWO_32 - 6
    ensures payloadSize <= TWO_32 - 6 ==>
              LengthField(payloadSize) == 1 + payloadSize && BufferSize(payloadSize) == 5 + payloadSize
  {
  }

  /** A payload whose length field is right but whose frame buffer is empty. */
  lemma BufferWrapsAround()
    ensures LengthField(TWO_32 - 5) == TWO_32 - 4 && BufferSize(TWO_32 - 5) == 0
  {
  }

  predicate Sendable(m: Message) {
    |m.payload| <= TWO_32 - 6
  }

  // ----- Encoding and decoding -----

  function Frame(m: Message): (f: seq<Byte>)
    ensures |f| == 5 + |m.payload|
  {
    ToBytes(1 + |m.payload|, 4) + [m.kind] + m.payload
  }

  function EncodeAll(ms: seq<Message>): seq<Byte> {
    if ms == [] then [] else Frame(ms[0]) + EncodeAll(ms[1..])
  }

  datatype Parse = Complete(m: Message, rest: seq<Byte>) | Incomplete | ZeroLength

  /** The first frame of a stream that ends after s. */
  function NextFrame(s: seq<Byte>): (p: Parse)
    ensures p.Complete? ==> |p.rest| < |s|
  {
    if |s| < 4 then Incomplete
    else
      var len := FromBytes(s[..4]);
      if len == 0 then ZeroLength
      else if |s| < 4 + len then Incomplete
      else Complete(Message(s[4], s[5..4 + len]), s[4 + len..])
  }

  /** The messages recvMessage delivers from a stream before it returns false. */
  function Decoded(s: seq<Byte>): seq<Message>
    decreases |s|
  {
    match NextFrame(s)
    case Complete(m, rest) => [m] + Decoded(rest)
    case Incomplete => []
    case ZeroLength => []
  }

  lemma {:induction false} LengthBytes(m: Message)
    requires Sendable(m)
    ensures FromBytes(ToBytes(1 + |m.payload|, 4)) == 1 + |m.payload|
  {
    Powers();
    FromToBytes(1 + |m.payload|, 4);
  }

  /** The layout of a frame: the length of the rest in four bytes, most significant first, type and payload. */
  lemma {:induction false} FrameLayout(m: Message)
    requires Sendable(m)
    ensures var f := Frame(m);
            var n := 1 + |m.payload|;
            && f[..4] == [n / 0x100_0000, n / 0x1_0000 % 256, n / 256 % 256, n % 256]
            && f[4] == m.kind
            && f[5..] == m.payload
  {
    FourBytes(1 + |m.payload|);
  }

  /** A frame at the front of a stream is read back, and nothing after it is touched. */
  lemma {:induction false} FrameIsNext(m: Message, tail: seq<Byte>)
    requires Sendable(m)
    ensures NextFrame(Frame(m) + tail) == Complete(m, tail)
  {
    LengthBytes(m);
    var s := Frame(m) + tail;
    assert s[..4] == ToBytes(1 + |m.payload|, 4);
    assert s[5..5 + |m.payload|] == m.payload;
    assert s[5 + |m.payload|..] == tail;
  }

  /** A frame that was cut off yields nothing. */
  lemma {:induction false} CutFrameIsIncomplete(m: Message, n: nat)
    requires Sendable(m) && n < |Frame(m)|
    ensures NextFrame(Frame(m)[..n]) == Incomplete
  {
    LengthBytes(m);
    if n >= 4 {
      assert Frame(m)[..n][..4] == ToBytes(1 + |m.payload|, 4);
    }
  }

  ghost predicate AllSendable(ms: seq<Message>) {
    forall i :: 0 <= i < |ms| ==> Sendable(ms[i])
  }

  /** Round trip: decoding what was encoded gives the messages back, in order. */
  lemma {:induction false} DecodedOfEncoded(ms: seq<Message>)
    requires AllSendable(ms)
    ensures Decoded(EncodeAll(ms)) == ms
  {
    if ms != [] {
      FrameIsNext(ms[0], EncodeAll(ms[1..]));
      DecodedOfEncoded(ms[1..]);
    }
  }

  /** The number of messages whose frames lie within the first n bytes. */
  function CompleteFrames(ms: seq<Message>, n: nat): (k: nat)
    ensures k <= |ms|
  {
    if ms == [] || n < |Frame(ms[0])| then 0 else 1 + CompleteFrames(ms[1..], n - |Frame(ms[0])|)
  }

  /** CompleteFrames counts exactly the frames that fit. */
  lemma {:induction false} CompleteFramesFit(ms: seq<Message>, n: nat, k: nat)
    requires k <= |ms|
    ensures k <= CompleteFrames(ms, n) <==> |EncodeAll(ms[..k])| <= n
  {
    if k > 0 {
      assert ms[..k][0] == ms[0] && ms[..k][1..] == ms[1..][..k - 1];
      if |Frame(ms[0])| <= n {
        CompleteFramesFit(ms[1..], n - |Frame(ms[0])|, k - 1);
      }
    }
  }

  lemma PrefixOfConcat(a: seq<Byte>, b: seq<Byte>, n: nat)
    requires n <= |a| + |b|
    ensures (a + b)[..n] == if n < |a| then a[..n] else a + b[..n - |a|]
  {
  }

  /** Truncation: of a stream cut off anywhere, exactly the complete frames are delivered. */
  lemma {:induction false} DecodedOfPrefix(ms: seq<Message>, n: nat)
    requires AllSendable(ms) && n <= |EncodeAll(ms)|
    ensures Decoded(EncodeAll(ms)[..n]) == ms[..CompleteFrames(ms, n)]
  {
    hide NextFrame, Frame, Sendable;
    if ms != [] {
      var f, tail := Frame(ms[0]), EncodeAll(ms[1..]);
      PrefixOfConcat(f, tail, n);
      if n < |f| {
        CutFrameIsIncomplete(ms[0], n);
      } else {
        FrameIsNext(ms[0], tail[..n - |f|]);
        DecodedOfPrefix(ms[1..], n - |f|);
      }
    } else {
      NothingDecoded(EncodeAll(ms)[..n]);
    }
  }

  lemma NothingDecoded(s: seq<Byte>)
    requires s == []
    ensures Decoded(s) == []
  {
  }

  /** Unique decoding: a stream that extends another carries its messages first. */
  lemma {:induction false} PrefixFree(a: seq<Message>, b: seq<Message>)
    requires AllSendable(a) && AllSendable(b) && EncodeAll(a) <= EncodeAll(b)
    ensures a <= b
  {
    var n := |EncodeAll(a)|;
    assert EncodeAll(b)[..n] == EncodeAll(a);
    DecodedOfEncoded(a);
    DecodedOfPrefix(b, n);
  }

  /** Different message lists never have the same bytes. */
  lemma {:induction false} EncodingIsInjective(a: seq<Message>, b: seq<Message>)
    requires AllSendable(a) && AllSendable(b) && EncodeAll(a) == EncodeAll(b)
    ensures a == b
  {
    PrefixFree(a, b);
    PrefixFree(b, a);
  }

  // ----- Payloads -----

  datatype Report = Report(ramBytes: nat, threads: nat)

  predicate InRange(r: Report) {
    r.ramBytes < TWO_64 && r.threads < TWO_32
  }

  /** encodeResourceReport: hostToNet64 changes nothing, so the RAM field keeps the sender's byte order. */
  function EncodeReport(host: Endian, r: Report): (s: seq<Byte>)
    requires InRange(r)
    ensures |s| == 12
  {
    NetBytes(host, r.threads);
    Store(host, r.ramBytes, 8) + Store(host, HostToNet32(host, r.threads), 4)
  }

  function DecodeReport(host: Endian, buf: seq<Byte>): (r: Result<Report>)
    ensures r.Err? <==> |buf| != 12
  {
    if |buf| != 12 then Err(RuntimeError)
    else
      StoreLoad(host, buf[8..]);
      NetToHostOfBytes(host, buf[8..]);
      Ok(Report(Load(host, buf[..8]), NetToHost32(host, Load(host, buf[8..]))))
  }

  /**
   The layout of a report: eight bytes of RAM size in the order of the sender, most significant byte
   first or last, and then four bytes of thread count, most significant first on every host.
   */
  lemma {:induction false} ReportLayout(sender: Endian, r: Report)
    requires InRange(r)
    ensures var s := EncodeReport(sender, r);
            && |s| == 12
            && s[8..] == ToBytes(r.threads, 4)
            && (sender == BigEndian ==> s[..8] == ToBytes(r.ramBytes, 8))
            && (sender == LittleEndian ==> forall i :: 0 <= i < 8 ==> s[i] == ToBytes(r.ramBytes, 8)[7 - i])
  {
    NetBytes(sender, r.threads);
    assert EncodeReport(sender, r)[..8] == Store(sender, r.ramBytes, 8);
  }

  lemma {:induction false} LoadOfOther(v: nat, n: nat, sender: Endian, receiver: Endian)
    requires v < Power256(n) && sender != receiver
    ensures Load(receiver, Store(sender, v, n)) == v <==> Reversed(ToBytes(v, n)) == ToBytes(v, n)
  {
    var b := ToBytes(v, n);
    FromToBytes(v, n);
    ToFromBytes(Reversed(b));
    assert Load(receiver, Store(sender, v, n)) == FromBytes(Reversed(b));
    if FromBytes(Reversed(b)) == v {
      assert Reversed(b) == ToBytes(v, n);
    }
  }

  /**
   A report survives the trip exactly if both hosts keep bytes in the same order or the RAM size reads
   the same in both orders. The thread count always survives.
   */
  lemma {:induction false} ReportRoundTrip(sender: Endian, receiver: Endian, r: Report)
    requires InRange(r)
    ensures DecodeReport(receiver, EncodeReport(sender, r)).Ok?
    ensures DecodeReport(receiver, EncodeReport(sender, r)).value.threads == r.threads
    ensures DecodeReport(receiver, EncodeReport(sender, r)) == Ok(r) <==>
              sender == receiver || Reversed(ToBytes(r.ramBytes, 8)) == ToBytes(r.ramBytes, 8)
  {
    var s := EncodeReport(sender, r);
    Powers();
    NetBytes(sender, r.threads);
    assert s[..8] == Store(sender, r.ramBytes, 8);
    assert s[8..] == ToBytes(r.threads, 4);
    NetToHostOfBytes(receiver, s[8..]);
    FromToBytes(r.threads, 4);
    if sender == receiver {
      LoadStore(sender, r.ramBytes, 8);
    } else {
      LoadOfOther(r.ramBytes, 8, sender, receiver);
    }
  }

  function Zeros(n: nat): (s: seq<Byte>)
    ensures |s| == n
  {
    seq(n, _ => 0)
  }

  lemma {:induction false} FromBytesOfZeros(s: seq<Byte>, n: nat)
    ensures FromBytes(s + Zeros(n)) == FromBytes(s) * Power256(n)
  {
    if n == 0 {
      assert s + Zeros(0) == s;
    } else {
      FromBytesOfZeros(s, n - 1);
      assert (s + Zeros(n))[..|s| + n - 1] == s + Zeros(n - 1);
    }
  }

  lemma {:induction false} OneAsBytes(n: nat)
    requires n > 0
    ensures ToBytes(1, n) == Zeros(n - 1) + [1]
  {
    ZeroAsBytes(n - 1);
  }

  lemma {:induction false} ZeroAsBytes(n: nat)
    ensures ToBytes(0, n) == Zeros(n)
  {
    if n > 0 {
      ZeroAsBytes(n - 1);
    }
  }

  lemma {:induction false} OneReadBackwards()
    ensures Load(BigEndian, Store(LittleEndian, 1, 8)) == 0x100_0000_0000_0000
  {
    OneAsBytes(8);
    assert Store(LittleEndian, 1, 8) == [1] + Zeros(7);
    assert FromBytes([1]) == 1 by {
      assert [1][..0] == [];
    }
    FromBytesOfZeros([1], 7);
    Powers();
  }

  /** One byte of RAM becomes 2^56 bytes on the way from a little-endian to a big-endian host. */
  lemma {:induction false} ReportIsGarbled()
    ensures DecodeReport(BigEndian, EncodeReport(LittleEndian, Report(1, 0))) == Ok(Report(0x100_0000_0000_0000, 0))
  {
    hide Store, Load, HostToNet32, NetToHost32;
    var s := EncodeReport(LittleEndian, Report(1, 0));
    ReportRoundTrip(LittleEndian, BigEndian, Report(1, 0));
    assert s[..8] == Store(LittleEndian, 1, 8);
    OneReadBackwards();
  }

  /** The frame the heartbeat builds by hand. */
  function PingFrame(host: Endian): seq<Byte> {
    Store(host, HostToNet32(host, 1), 4) + [PING]
  }

  /** It is the frame of an empty PING on every host: the bytes 0, 0, 0, 1, 2. */
  lemma {:induction false} PingFrameIsPing(host: Endian, tail: seq<Byte>)
    ensures PingFrame(host) == [0, 0, 0, 1, 2]
    ensures PingFrame(host) == Frame(Message(PING, []))
    ensures NextFrame(PingFrame(host) + tail) == Complete(Message(PING, []), tail)
  {
    NetBytes(host, 1);
    FourBytes(1);
    FrameIsNext(Message(PING, []), tail);
  }
}
