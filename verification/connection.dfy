/** A connection over a socket that moves any positive number of bytes per call, or fails. */
module Connections {
  import opened Wire
  import opened Framing

  /**
   One socket. `wire` is what the kernel has accepted from us, `inbound` what will still arrive before
   the peer closes. A `reliable` socket reports no errors, but still moves as few bytes as it likes.
   */
  class Socket {
    var wire: seq<Byte>
    var inbound: seq<Byte>
    const reliable: bool

    constructor (inbound: seq<Byte>, reliable: bool)
      ensures this.inbound == inbound && wire == [] && this.reliable == reliable
    {
      this.inbound, wire, this.reliable := inbound, [], reliable;
    }

    /** ::send */
    method Send(p: seq<Byte>) returns (n: int)
      requires p != []
      modifies this`wire
      ensures n <= |p| && (reliable ==> n > 0)
      ensures wire == if n > 0 then old(wire) + p[..n] else old(wire)
    {
      n :| -1 <= n <= |p| && (reliable ==> n > 0);
      if n > 0 {
        wire := wire + p[..n];
      }
    }

    /** ::recv, zero when the peer has closed */
    method Recv(limit: nat) returns (n: int, got: seq<Byte>)
      requires limit > 0
      modifies this`inbound
      ensures n <= limit && n <= |old(inbound)|
      ensures n > 0 ==> got == old(inbound)[..n] && inbound == old(inbound)[n..]
      ensures n <= 0 ==> got == [] && inbound == old(inbound)
      ensures reliable && old(inbound) != [] ==> n > 0
    {
      got := [];
      var most := if limit <= |inbound| then limit else |inbound|;
      n :| -1 <= n <= most && (reliable && inbound != [] ==> n > 0);
      if n > 0 {
        got := inbound[..n];
        inbound := inbound[n..];
      }
    }
  }

  class Connection {
    const socket: Socket
    var lastSeen: int

    constructor (socket: Socket, now: int)
      ensures this.socket == socket && lastSeen == now
    {
      this.socket, lastSeen := socket, now;
    }

    /** sendAll: on failure some prefix has gone out. */
    method SendAll(data: array<Byte>) returns (ok: bool)
      modifies socket`wire
      ensures socket.reliable ==> ok
      ensures ok ==> socket.wire == old(socket.wire) + data[..]
      ensures !ok ==> exists k :: 0 <= k < data.Length && socket.wire == old(socket.wire) + data[..k]
    {
      var sent := 0;
      while sent < data.Length
        invariant 0 <= sent <= data.Length
        invariant socket.wire == old(socket.wire) + data[..sent]
      {
        var n := socket.Send(data[sent..]);
        if n <= 0 {
          return false;
        }
        assert data[..sent] + data[sent..][..n] == data[..sent + n];
        sent := sent + n;
      }
      assert data[..data.Length] == data[..];
      ok := true;
    }

    /** recvAll into a buffer: fails only at the end of the stream or on an error. */
    method RecvAll(out: array<Byte>) returns (ok: bool)
      modifies socket`inbound, out
      ensures ok ==> |old(socket.inbound)| >= out.Length && out[..] == old(socket.inbound)[..out.Length]
                     && socket.inbound == old(socket.inbound)[out.Length..]
      ensures socket.reliable ==> (ok <==> |old(socket.inbound)| >= out.Length)
      ensures !ok ==> exists k :: 0 <= k <= |old(socket.inbound)| && socket.inbound == old(socket.inbound)[k..]
    {
      var recvd := 0;
      ghost var stream := socket.inbound;
      while recvd < out.Length
        invariant 0 <= recvd <= out.Length && recvd <= |stream|
        invariant out[..recvd] == stream[..recvd]
        invariant socket.inbound == stream[recvd..]
      {
        var n, got := socket.Recv(out.Length - recvd);
        if n == 0 {
          return false;
        }
        if n < 0 {
          return false;
        }
        assert stream[recvd..][..n] == stream[recvd..recvd + n] && stream[recvd..][n..] == stream[recvd + n..];
        forall i | 0 <= i < n {
          out[recvd + i] := got[i];
        }
        assert out[..recvd + n] == stream[..recvd] + got;
        recvd := recvd + n;
      }
      ok := true;
    }

    /** sendMessage: builds the frame in a buffer and sends it. */
    method SendMessage(host: Endian, m: Message) returns (ok: bool)
      requires Sendable(m)
      modifies socket`wire
      ensures socket.reliable ==> ok
      ensures ok ==> socket.wire == old(socket.wire) + Frame(m)
      ensures !ok ==> exists k :: 0 <= k < |Frame(m)| && socket.wire == old(socket.wire) + Frame(m)[..k]
    {
      FrameFits(|m.payload|);
      var len := LengthField(|m.payload|);
      NetBytes(host, len);
      var lenBytes := Store(host, HostToNet32(host, len), 4);
      var frame := new Byte[BufferSize(|m.payload|)](_ => 0);
      forall i | 0 <= i < 4 {
        frame[i] := lenBytes[i];
      }
      frame[4] := m.kind;
      forall i | 0 <= i < |m.payload| {
        frame[5 + i] := m.payload[i];
      }
      assert frame[..] == Frame(m);
      ok := SendAll(frame);
    }

    /** recvMessage: the next frame of the stream, whatever the sizes of the pieces it arrives in. */
    method RecvMessage(host: Endian, now: int) returns (ok: bool, m: Message)
      modifies socket`inbound, this`lastSeen
      ensures ok ==> NextFrame(old(socket.inbound)) == Complete(m, socket.inbound)
      ensures socket.reliable ==> (ok <==> NextFrame(old(socket.inbound)).Complete?)
      ensures lastSeen == if ok then now else old(lastSeen)
    {
      hide FromBytes, Load, NetToHost32;
      m := Message(0, []);
      ghost var stream := socket.inbound;
      var lenN := new Byte[4](_ => 0);
      ok := RecvAll(lenN);
      if !ok {
        return;
      }
      NetToHostOfBytes(host, lenN[..]);
      var len := NetToHost32(host, Load(host, lenN[..]));
      if len == 0 {
        ok := false;
        return;
      }
      var buf := new Byte[len](_ => 0);
      ok := RecvAll(buf);
      if !ok {
        return;
      }
      assert stream[4..][..len] == stream[4..4 + len] && stream[4..][len..] == stream[4 + len..];
      assert buf[0] == stream[4];
      m := Message(buf[0], buf[1..]);
      assert buf[1..] == stream[5..4 + len];
      lastSeen := now;
    }

    /** Receiving until recvMessage returns false, as connectionLoop does. */
    method ReceiveAll(host: Endian, now: int) returns (ms: seq<Message>)
      modifies socket`inbound, this`lastSeen
      ensures ms <= Decoded(old(socket.inbound))
      ensures socket.reliable ==> ms == Decoded(old(socket.inbound))
    {
      hide NextFrame, FromBytes;
      ms := [];
      ghost var stream := socket.inbound;
      while true
        invariant Decoded(stream) == ms + Decoded(socket.inbound)
        decreases |socket.inbound|
      {
        ghost var before := socket.inbound;
        var ok, m := RecvMessage(host, now);
        if !ok {
          assert ms + [] == ms;
          return;
        }
        assert ms + ([m] + Decoded(socket.inbound)) == (ms + [m]) + Decoded(socket.inbound);
        ms := ms + [m];
      }
    }
  }

  /** Sending every message of a list, in order. */
  method SendMessages(conn: Connection, host: Endian, ms: seq<Message>)
    requires AllSendable(ms) && conn.socket.reliable
    modifies conn.socket`wire
    ensures conn.socket.wire == old(conn.socket.wire) + EncodeAll(ms)
  {
    for i := 0 to |ms|
      invariant conn.socket.wire + EncodeAll(ms[i..]) == old(conn.socket.wire) + EncodeAll(ms)
    {
      assert ms[i..][0] == ms[i] && ms[i..][1..] == ms[i + 1..];
      ghost var before := conn.socket.wire;
      var ok := conn.SendMessage(host, ms[i]);
      assert before + (Frame(ms[i]) + EncodeAll(ms[i + 1..])) == (before + Frame(ms[i])) + EncodeAll(ms[i + 1..]);
    }
    assert conn.socket.wire + [] == conn.socket.wire;
  }

  /**
   From one host to another: what was sent is what is received, in order, whatever the byte orders of
   the two hosts and however both sockets cut up the stream. If the stream ends after `cut` bytes,
   exactly the messages whose frames were complete are received.
   */
  method Transfer(sender: Endian, receiver: Endian, ms: seq<Message>, cut: nat) returns (got: seq<Message>)
    requires AllSendable(ms)
    ensures got == ms[..CompleteFrames(ms, cut)]
    ensures cut >= |EncodeAll(ms)| ==> got == ms
  {
    var out := new Socket([], true);
    var a := new Connection(out, 0);
    SendMessages(a, sender, ms);
    var n := if cut <= |out.wire| then cut else |out.wire|;
    var inn := new Socket(out.wire[..n], true);
    var b := new Connection(inn, 0);
    got := b.ReceiveAll(receiver, 0);
    assert out.wire == EncodeAll(ms);
    DecodedOfPrefix(ms, n);
    if cut >= |EncodeAll(ms)| {
      CutBeyondEnd(ms, cut);
      CutBeyondEnd(ms, n);
      assert ms[..|ms|] == ms;
    }
  }

  lemma {:induction false} CutBeyondEnd(ms: seq<Message>, cut: nat)
    requires cut >= |EncodeAll(ms)|
    ensures CompleteFrames(ms, cut) == |ms|
  {
    CompleteFramesFit(ms, cut, |ms|);
    assert ms[..|ms|] == ms;
  }
}
