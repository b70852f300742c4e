/**
 The licence checker's private TCP stream (src/tls/b9c_stream.cpp): a
 stop-and-wait sender and an in-order receiver over a 16 KiB ring. `Conn` is the
 protocol state seen by the theorems; the class holds the fields, and the ring,
 hands real frames to the frame sender, and each method is tied to `Conn`.
 */
module B9cStream {
  import opened Bytes
  import opened Checksum
  import opened Ipv4
  import opened Ring

  const RING := 16384
  const CHUNK := 1200
  const ZERO_MAC: Mac := [0, 0, 0, 0, 0, 0]

  datatype Config = Config(mac: Mac, ip: dword, gateway: dword, dns: dword)

  datatype Flow = Flow(localIp: dword, localPort: word, peerIp: dword, peerPort: word)

  datatype Conn = Conn(
    flow: Flow,
    sendSeq: dword, recvSeq: dword, peerAck: dword,
    configured: bool, connected: bool, closed: bool, failed: bool,
    locked: bool, rx: Bytes)

  const CLEARED := Conn(Flow(0, 0, 0, 0), 0, 0, 0, false, false, false, false, false, [])

  /** The state Configure leaves; `mix` is the address and clock mixture it derives the port and sequence number from. */
  function Configured(ip: dword, mix: dword): Conn {
    CLEARED.(flow := Flow(ip, 50000 + mix % 0x1000, 0, 0), configured := true, sendSeq := 0x3600_0000 + mix % 0x100_0000)
  }

  /** What one received segment does: new state, segments sent, result of the call. */
  datatype Reaction = Reaction(conn: Conn, replies: seq<Segment>, ok: bool)

  // ------------------------------------------------------------- the protocol

  /** The segment that a frame delivers to this connection, if any. */
  function Received(configured: bool, mac: Mac, flow: Flow, frame: Bytes): Option<Segment> {
    if !configured || |frame| < 34 then None
    else if frame[..6] != mac && frame[0] % 2 == 0 then None
    else if Read16(frame, 12) != ETHERTYPE then None
    else
      match Parse(frame[14..])
      case None => None
      case Some(p) =>
        if p.dst != flow.localIp || p.proto != TCP || p.src != flow.peerIp then None
        else
          match ParseTcp(p.body)
          case None => None
          case Some(s) => if s.srcPort != flow.peerPort || s.dstPort != flow.localPort then None else Some(s)
  }

  /** What SendTcp puts on the wire. */
  function Emit(c: Conn, flags: byte, data: Bytes, seqno: dword): (r: seq<Segment>)
    ensures |r| <= 1 && forall s :: s in r ==> |s.data| <= 1360
  {
    if c.flow.peerIp == 0 || c.flow.peerPort == 0 || |data| > 1360 then []
    else [Segment(c.flow.localPort, c.flow.peerPort, seqno, c.recvSeq, flags, data)]
  }

  function EmitAck(c: Conn): seq<Segment> {
    Emit(c, ACK, [], c.sendSeq)
  }

  function Room(c: Conn): int {
    RING - |c.rx|
  }

  /** PushRx: all or nothing, and nothing while the reader holds the lock. */
  function Push(c: Conn, data: Bytes): (r: (Conn, bool)) {
    if data == [] then (c, true)
    else if c.locked || |data| > Room(c) then (c, false)
    else (c.(rx := c.rx + data), true)
  }

  function Failed(c: Conn): Conn {
    c.(failed := true, connected := false)
  }

  function Acked(c: Conn, s: Segment): Conn {
    if s.ack > c.peerAck then c.(peerAck := s.ack) else c
  }

  predicate IsAccept(c: Conn, s: Segment) {
    !c.connected && Has(s.flags, SYN) && Has(s.flags, ACK) && s.ack == c.sendSeq
  }

  function OnSegment(c: Conn, s: Segment): Reaction {
    var a := Acked(c, s);
    if c.connected then OnEstablished(a, s) else OnOpening(a, s)
  }

  function OnOpening(c: Conn, s: Segment): Reaction {
    if IsAccept(c, s) then
      var o := c.(recvSeq := Wrap32(s.seqno + 1), connected := true);
      Reaction(o, EmitAck(o), true)
    else
      Reaction(if Has(s.flags, RST) then Failed(c) else c, [], true)
  }

  function OnEstablished(c: Conn, s: Segment): Reaction {
    var d := OnData(c, s);
    if !d.ok then d
    else
      var f := OnFin(d.conn, s);
      Reaction(if Has(s.flags, RST) then f.conn.(closed := true, connected := false) else f.conn,
               d.replies + f.replies, true)
  }

  function OnData(c: Conn, s: Segment): Reaction {
    if s.data == [] then Reaction(c, [], true)
    else if s.seqno != c.recvSeq then Reaction(c, EmitAck(c), true)
    else
      var (p, ok) := Push(c, s.data);
      if !ok then Reaction(Failed(c), [], false)
      else
        var n := p.(recvSeq := Wrap32(p.recvSeq + |s.data|));
        Reaction(n, EmitAck(n), true)
  }

  function OnFin(c: Conn, s: Segment): Reaction {
    if !Has(s.flags, FIN) then Reaction(c, [], true)
    else
      var n := if Wrap32(s.seqno + |s.data|) == c.recvSeq then c.(recvSeq := Wrap32(c.recvSeq + 1)) else c;
      Reaction(n.(closed := true, connected := false), EmitAck(n), true)
  }

  /** What the frame handler may do to the connection behind a blocked caller's back. */
  predicate Evolves(c: Conn, d: Conn) {
    d.flow == c.flow && d.configured == c.configured && d.sendSeq == c.sendSeq && d.locked == c.locked &&
    d.peerAck >= c.peerAck && (c.failed ==> d.failed) && (c.closed ==> d.closed) && c.rx <= d.rx
  }

  lemma EvolvesTrans(c: Conn, d: Conn, e: Conn)
    requires Evolves(c, d) && Evolves(d, e)
    ensures Evolves(c, e)
  {
  }

  function WithData(segments: seq<Segment>): seq<Segment> {
    if segments == [] then []
    else
      var last := segments[|segments| - 1];
      WithData(segments[..|segments| - 1]) + if last.data == [] then [] else [last]
  }

  lemma {:induction false} WithDataAppend(a: seq<Segment>, b: seq<Segment>)
    ensures WithData(a + b) == WithData(a) + WithData(b)
  {
    if b == [] {
      assert a + b == a;
    } else {
      assert (a + b)[..|a + b| - 1] == a + b[..|b| - 1];
      WithDataAppend(a, b[..|b| - 1]);
    }
  }

  lemma BareReply(c: Conn)
    ensures WithData(EmitAck(c)) == []
  {
    if EmitAck(c) != [] {
      assert EmitAck(c)[..0] == [];
    }
  }

  lemma DataEvolves(c: Conn, s: Segment)
    ensures Evolves(c, OnData(c, s).conn) && WithData(OnData(c, s).replies) == []
  {
    BareReply(c);
    BareReply(OnData(c, s).conn);
  }

  lemma FinEvolves(c: Conn, s: Segment)
    ensures Evolves(c, OnFin(c, s).conn) && WithData(OnFin(c, s).replies) == []
  {
    BareReply(c.(recvSeq := Wrap32(c.recvSeq + 1)));
    BareReply(c);
  }

  /** The handler keeps its promise and only ever sends bare acknowledgements. */
  lemma HandlerEvolves(c: Conn, s: Segment)
    ensures Evolves(c, OnSegment(c, s).conn)
    ensures WithData(OnSegment(c, s).replies) == []
  {
    var a := Acked(c, s);
    if c.connected {
      EstablishedEvolves(a, s);
    } else {
      BareReply(a.(recvSeq := Wrap32(s.seqno + 1), connected := true));
    }
  }

  lemma EstablishedEvolves(c: Conn, s: Segment)
    ensures Evolves(c, OnEstablished(c, s).conn) && WithData(OnEstablished(c, s).replies) == []
  {
    DataEvolves(c, s);
    var d := OnData(c, s);
    if d.ok {
      FinEvolves(d.conn, s);
      EvolvesTrans(c, d.conn, OnFin(d.conn, s).conn);
      WithDataAppend(d.replies, OnFin(d.conn, s).replies);
    }
  }

  // ---------------------------------------------------------------- the class

  /** A receiver parses `s` from `frame` and every checksum in it passes. */
  predicate WellFormed(frame: Bytes, s: Segment) {
    |frame| >= 34 && Read16(frame, 12) == ETHERTYPE && Verifies(WordSum(frame[14..34])) &&
    var p := Parse(frame[14..]);
    p.Some? && p.value.proto == TCP && |p.value.body| < 0x1_0000 && ParseTcp(p.value.body) == Some(s) &&
    Verifies(SegmentSum(p.value.src, p.value.dst, TCP, p.value.body))
  }

  /** The frame that carries segment `s`. */
  function TcpFrame(to: Mac, from: Mac, id: word, src: dword, dst: dword, s: Segment): Bytes
    requires |s.data| <= 1360
  {
    Frame(to, from, id, Packet(src, dst, TCP, TcpBytes(src, dst, s)))
  }

  lemma TcpFrameWellFormed(to: Mac, from: Mac, id: word, src: dword, dst: dword, s: Segment)
    requires |s.data| <= 1360
    ensures WellFormed(TcpFrame(to, from, id, src, dst, s), s)
  {
    TcpVerifies(src, dst, s);
    FrameParses(to, from, id, Packet(src, dst, TCP, TcpBytes(src, dst, s)));
  }

  /** What happens while a caller sleeps or is preempted: time passes and frames arrive. */
  datatype Tick = Tick(elapsed: nat, frames: seq<Bytes>)

  datatype Deadline = Deadline(start: nat, timeout: dword) {
    predicate Expired(now: nat) {
      start != 0 && now != 0 && now >= start + timeout
    }
  }

  /** A call's result, or `Running` when the schedule ends before the call does. */
  datatype Outcome = Returned(value: int) | Running

  datatype Wait = GoOn | TooLate | TimedOut | Refused | Unfinished

  /** The bytes that `segments` carry, in order. */
  function Carried(segments: seq<Segment>): Bytes {
    if segments == [] then [] else Carried(segments[..|segments| - 1]) + segments[|segments| - 1].data
  }

  /** Chunks of 1..1200 bytes at consecutive sequence numbers from `start` on. */
  predicate Consecutive(segments: seq<Segment>, start: dword) {
    segments == [] ||
    (var init, last := segments[..|segments| - 1], segments[|segments| - 1];
     0 < |last.data| <= CHUNK && last.seqno == Wrap32(start + |Carried(init)|) && Consecutive(init, start))
  }

  lemma OneCarried(segments: seq<Segment>, s: Segment)
    ensures Carried(segments + [s]) == Carried(segments) + s.data
  {
    assert (segments + [s])[..|segments|] == segments;
  }

  class B9cTcpStream {
    var cfg: Config
    var gatewayMac: Mac
    var remoteIp: dword
    var remotePort: word
    var localPort: word
    var ipId: word
    var sendSeq: dword
    var recvSeq: dword
    var peerAck: dword
    var configured: bool
    var connected: bool
    var closed: bool
    var failed: bool
    var rxLock: bool
    const rx: array<byte>
    var rxHead: nat
    var rxTail: nat
    var rxCount: nat
    /** The segments carried by the frames that the send callback was given. */
    ghost var sent: seq<Segment>
    /** The millisecond clock. */
    var clock: nat

    ghost predicate Valid()
      reads this
    {
      rx.Length == RING && RingOk(RING, rxHead, rxTail, rxCount)
    }

    ghost function View(): Conn
      reads this, rx
      requires Valid()
    {
      Conn(Flow(cfg.ip, localPort, remoteIp, remotePort), sendSeq, recvSeq, peerAck,
           configured, connected, closed, failed, rxLock, Unread())
    }

    /** The bytes in the ring, oldest first. */
    ghost function Unread(): Bytes
      reads this`rxHead, this`rxTail, this`rxCount, rx
      requires rx.Length == RING && RingOk(RING, rxHead, rxTail, rxCount)
    {
      Entries(rx[..], rxHead, rxCount)
    }

    constructor ()
      ensures Valid() && fresh(rx)
      ensures View() == CLEARED
    {
      cfg := Config(ZERO_MAC, 0, 0, 0);
      gatewayMac := ZERO_MAC;
      remoteIp, remotePort, localPort, ipId := 0, 0, 0, 1;
      sendSeq, recvSeq, peerAck := 0, 0, 0;
      configured, connected, closed, failed, rxLock := false, false, false, false, false;
      rx := new byte[RING](_ => 0);
      rxHead, rxTail, rxCount := 0, 0, 0;
      sent := [];
      clock := 0;
    }

    method Reset()
      requires Valid()
      modifies this
      ensures Valid() && sent == old(sent) && clock == old(clock) && View() == CLEARED
    {
      ResetAddresses();
      ResetProgress();
      rxHead, rxTail, rxCount := 0, 0, 0;
    }

    method ResetProgress()
      requires Valid()
      modifies this`sendSeq, this`recvSeq, this`peerAck
      modifies this`configured, this`connected, this`closed, this`failed, this`rxLock
      ensures Valid() && View() == CLEARED.(flow := old(View()).flow, rx := old(View()).rx)
    {
      sendSeq, recvSeq, peerAck := 0, 0, 0;
      configured, connected, closed, failed, rxLock := false, false, false, false, false;
    }

    method ResetAddresses()
      requires Valid()
      modifies this`cfg, this`gatewayMac, this`remoteIp, this`remotePort, this`localPort, this`ipId
      ensures Valid() && View() == old(View()).(flow := CLEARED.flow)
    {
      cfg, gatewayMac := Config(ZERO_MAC, 0, 0, 0), ZERO_MAC;
      remoteIp, remotePort, localPort, ipId := 0, 0, 0, 1;
    }

    method Configure(config: Config, gateway: Mac, mix: dword) returns (ok: bool)
      requires Valid()
      modifies this
      ensures Valid() && sent == old(sent)
      ensures ok <==> config.ip != 0 && config.dns != 0
      ensures ok ==> cfg == config && gatewayMac == gateway
      ensures ok ==> View() == Configured(config.ip, mix)
      ensures !ok ==> View() == CLEARED
    {
      Reset();
      if config.ip == 0 || config.dns == 0 {
        return false;
      }
      cfg := config;
      gatewayMac := gateway;
      localPort := 50000 + mix % 0x1000;
      sendSeq := 0x3600_0000 + mix % 0x100_0000;
      configured := true;
      return true;
    }

    /** The send callback: it is only given frames that `TcpFrameWellFormed` speaks of; its answer is arbitrary. */
    method Transmit(frame: Bytes, id: word, dst: dword, ghost s: Segment) returns (ok: bool)
      requires |s.data| <= 1360 && frame == TcpFrame(gatewayMac, cfg.mac, id, cfg.ip, dst, s)
      modifies this`sent
      ensures sent == old(sent) + [s]
    {
      sent := sent + [s];
      ok := *;
    }

    method SendIpv4Raw(dst: dword, payload: Bytes, ghost s: Segment) returns (ok: bool)
      requires |s.data| <= 1360 && payload == TcpBytes(cfg.ip, dst, s)
      modifies this`sent, this`ipId
      ensures sent == old(sent) + [s] && ipId == Wrap16(old(ipId) + 1)
    {
      var id: word := ipId;
      var frame := BuildFrame(gatewayMac, cfg.mac, id, Packet(cfg.ip, dst, TCP, payload));
      ipId := Wrap16(id + 1);
      ok := Transmit(frame, id, dst, s);
    }

    method SendTcp(flags: byte, data: Bytes, seqno: dword) returns (ok: bool)
      requires Valid()
      modifies this`sent, this`ipId
      ensures Valid() && View() == old(View())
      ensures sent == old(sent) + Emit(View(), flags, data, seqno)
      ensures ok ==> Emit(View(), flags, data, seqno) != []
    {
      if remoteIp == 0 || remotePort == 0 || |data| > 1360 {
        return false;
      }
      var s := Segment(localPort, remotePort, seqno, recvSeq, flags, data);
      var tcp := BuildTcp(cfg.ip, remoteIp, s);
      ok := SendIpv4Raw(remoteIp, tcp, s);
    }

    method TryLockRx() returns (got: bool)
      requires Valid()
      modifies this`rxLock
      ensures Valid() && got == !old(rxLock) && View() == old(View()).(locked := true)
    {
      got := !rxLock;
      rxLock := true;
    }

    method UnlockRx()
      requires Valid()
      modifies this`rxLock
      ensures Valid() && View() == old(View()).(locked := false)
    {
      rxLock := false;
    }

    method PushRx(data: Bytes) returns (ok: bool)
      requires Valid()
      modifies this`rxLock, this`rxTail, this`rxCount, rx
      ensures Valid() && (View(), ok) == Push(old(View()), data)
    {
      if |data| == 0 {
        return true;
      }
      if rxLock {
        return false;
      }
      rxLock := true;
      if |data| > RING - rxCount {
        rxLock := false;
        return false;
      }
      ghost var before := Entries(rx[..], rxHead, rxCount);
      var tail: nat := rxTail;
      for i := 0 to |data|
        invariant RingOk(RING, rxHead, tail, rxCount + i)
        invariant rxCount + |data| <= RING
        invariant Entries(rx[..], rxHead, rxCount + i) == before + data[..i]
        invariant rxLock && rxCount == old(rxCount)
      {
        PushEntry(rx[..], rxHead, tail, rxCount + i, data[i]);
        ghost var was := rx[..];
        rx[tail] := data[i];
        assert rx[..] == was[tail := data[i]];
        tail := (tail + 1) % RING;
        assert data[..i + 1] == data[..i] + [data[i]];
      }
      rxTail, rxCount := tail, rxCount + |data|;
      assert data[..|data|] == data;
      rxLock := false;
      return true;
    }

    /** The part of PopRx that runs under the lock. */
    method TakeRx(cap: nat) returns (data: Bytes)
      requires Valid() && rxLock
      modifies this`rxHead, this`rxCount
      ensures Valid() && |data| == if |old(View()).rx| < cap then |old(View()).rx| else cap
      ensures data + View().rx == old(View()).rx && View() == old(View()).(rx := View().rx)
    {
      var n := if rxCount < cap then rxCount else cap;
      data := [];
      var head: nat := rxHead;
      ghost var all := Entries(rx[..], rxHead, rxCount);
      for i := 0 to n
        invariant n <= rxCount && RingOk(RING, head, rxTail, rxCount - i)
        invariant data == all[..i] && Entries(rx[..], head, rxCount - i) == all[i..]
        invariant rxHead == old(rxHead) && rxCount == old(rxCount)
      {
        PopEntry(rx[..], head, rxTail, rxCount - i, 0);
        assert all[i..][1..] == all[i + 1..];
        data := data + [rx[head]];
        head := (head + 1) % RING;
      }
      rxHead, rxCount := head, rxCount - n;
      assert all[..n] + all[n..] == all;
    }

    method PopRx(cap: nat) returns (data: Bytes)
      requires Valid()
      modifies this`rxLock, this`rxHead, this`rxCount
      ensures Valid() && View() == old(View()).(rx := View().rx)
      ensures data + View().rx == old(View()).rx
      ensures |data| == if old(rxLock) then 0 else if |old(View()).rx| < cap then |old(View()).rx| else cap
      ensures !old(rxLock) ==> Do(Do(Run(old(View()), [], []), Lock), Take(cap)) == Run(View(), data, [])
    {
      if cap == 0 {
        return [];
      }
      var got := TryLockRx();
      if !got {
        return [];
      }
      data := TakeRx(cap);
      UnlockRx();
    }

    method Fail()
      requires Valid()
      modifies this`failed, this`connected
      ensures Valid() && View() == Failed(old(View()))
    {
      failed := true;
      connected := false;
    }

    method OnEthernetFrame(frame: Bytes) returns (ok: bool)
      requires Valid()
      modifies this`sent, this`ipId, this`peerAck, this`recvSeq, this`connected, this`closed, this`failed
      modifies this`rxLock, this`rxTail, this`rxCount, rx
      ensures Valid()
      ensures match Received(old(configured), cfg.mac, old(View()).flow, frame)
              case None => ok && View() == old(View()) && sent == old(sent)
              case Some(s) =>
                var r := OnSegment(old(View()), s);
                View() == r.conn && sent == old(sent) + r.replies && ok == r.ok
    {
      var received := Received(configured, cfg.mac, Flow(cfg.ip, localPort, remoteIp, remotePort), frame);
      if received.None? {
        return true;
      }
      ok := HandleSegment(received.value);
    }

    method HandleSegment(s: Segment) returns (ok: bool)
      requires Valid()
      modifies this`sent, this`ipId, this`peerAck, this`recvSeq, this`connected, this`closed, this`failed
      modifies this`rxLock, this`rxTail, this`rxCount, rx
      ensures Valid()
      ensures View() == OnSegment(old(View()), s).conn
      ensures sent == old(sent) + OnSegment(old(View()), s).replies
      ensures ok == OnSegment(old(View()), s).ok
    {
      if s.ack > peerAck {
        peerAck := s.ack;
      }
      if !connected {
        HandleOpening(s);
        return true;
      }
      ok := HandleEstablished(s);
    }

    method HandleOpening(s: Segment)
      requires Valid() && !connected
      modifies this`sent, this`ipId, this`recvSeq, this`connected, this`failed
      ensures Valid()
      ensures View() == OnOpening(old(View()), s).conn
      ensures sent == old(sent) + OnOpening(old(View()), s).replies
    {
      if Has(s.flags, SYN) && Has(s.flags, ACK) && s.ack == sendSeq {
        recvSeq := Wrap32(s.seqno + 1);
        connected := true;
        var _ := SendTcp(ACK, [], sendSeq);
      } else if Has(s.flags, RST) {
        Fail();
      }
    }

    method HandleEstablished(s: Segment) returns (ok: bool)
      requires Valid()
      modifies this`sent, this`ipId, this`recvSeq, this`connected, this`closed, this`failed
      modifies this`rxLock, this`rxTail, this`rxCount, rx
      ensures Valid()
      ensures View() == OnEstablished(old(View()), s).conn
      ensures sent == old(sent) + OnEstablished(old(View()), s).replies
      ensures ok == OnEstablished(old(View()), s).ok
    {
      ok := HandleData(s);
      if !ok {
        return;
      }
      HandleFin(s);
      if Has(s.flags, RST) {
        closed := true;
        connected := false;
      }
    }

    method HandleData(s: Segment) returns (ok: bool)
      requires Valid()
      modifies this`sent, this`ipId, this`recvSeq, this`connected, this`failed
      modifies this`rxLock, this`rxTail, this`rxCount, rx
      ensures Valid()
      ensures View() == OnData(old(View()), s).conn
      ensures sent == old(sent) + OnData(old(View()), s).replies
      ensures ok == OnData(old(View()), s).ok
    {
      if |s.data| == 0 {
        return true;
      }
      if s.seqno == recvSeq {
        var stored := PushRx(s.data);
        if !stored {
          Fail();
          return false;
        }
        recvSeq := Wrap32(recvSeq + |s.data|);
      }
      var _ := SendTcp(ACK, [], sendSeq);
      return true;
    }

    method HandleFin(s: Segment)
      requires Valid()
      modifies this`sent, this`ipId, this`recvSeq, this`connected, this`closed
      ensures Valid()
      ensures View() == OnFin(old(View()), s).conn
      ensures sent == old(sent) + OnFin(old(View()), s).replies
    {
      if Has(s.flags, FIN) {
        if Wrap32(s.seqno + |s.data|) == recvSeq {
          recvSeq := Wrap32(recvSeq + 1);
        }
        var _ := SendTcp(ACK, [], sendSeq);
        closed := true;
        connected := false;
      }
    }

    /** One scheduling point of a blocked caller; `acts` are the segments that `t`'s frames carry to this stream. */
    method Yield(t: Tick) returns (ghost acts: seq<Act>)
      requires Valid()
      modifies this`sent, this`ipId, this`peerAck, this`recvSeq, this`connected, this`closed, this`failed
      modifies this`rxLock, this`rxTail, this`rxCount, rx, this`clock
      ensures Valid() && clock == old(clock) + t.elapsed && sent == old(sent) + Wire(old(View()), acts)
      ensures Listening(acts) && View() == Reached(old(View()), acts) && Caught(old(View()), cfg.mac, [t], acts)
    {
      hide Reached, Heard, Arrivals, Wire;
      clock := clock + t.elapsed;
      acts := [];
      NothingReached(View());
      NothingOut(View());
      NothingHeard(configured, cfg.mac, View().flow);
      for i := 0 to |t.frames|
        invariant Valid() && clock == old(clock) + t.elapsed && sent == old(sent) + Wire(old(View()), acts)
        invariant Listening(acts) && View() == Reached(old(View()), acts)
        invariant View().flow == old(View()).flow && configured == old(configured)
        invariant Arrivals(acts) == Heard(configured, cfg.mac, View().flow, t.frames[..i])
      {
        acts := TakeFrame(t.frames, i, old(View()), old(sent), acts);
      }
      OneTick(t);
    }

    /** One of the frames that arrive while a caller that began to listen at `c` is blocked. */
    method TakeFrame(frames: seq<Bytes>, i: nat, ghost c: Conn, ghost base: seq<Segment>, ghost before: seq<Act>)
      returns (ghost acts: seq<Act>)
      requires Valid() && i < |frames| && Listening(before) && View() == Reached(c, before)
      requires Arrivals(before) == Heard(configured, cfg.mac, View().flow, frames[..i]) && sent == base + Wire(c, before)
      modifies this`sent, this`ipId, this`peerAck, this`recvSeq, this`connected, this`closed, this`failed
      modifies this`rxLock, this`rxTail, this`rxCount, rx
      ensures Valid() && sent == base + Wire(c, acts)
      ensures Listening(acts) && View() == Reached(c, acts)
      ensures View().flow == old(View()).flow && configured == old(configured)
      ensures Arrivals(acts) == Heard(configured, cfg.mac, View().flow, frames[..i + 1])
    {
      hide Reached, OnSegment, Received, Heard, Arrivals, Wire;
      ghost var d := View();
      var _ := OnEthernetFrame(frames[i]);
      ghost var received := Received(d.configured, cfg.mac, d.flow, frames[i]);
      OneHeard(d.configured, cfg.mac, d.flow, frames, i);
      acts := before;
      if received.Some? {
        HandlerEvolves(d, received.value);
        ReachedSnoc(c, before, Arrive(received.value));
        WireSnoc(c, before, Arrive(received.value));
        OneArrival(before, Arrive(received.value));
        assert (base + Wire(c, before)) + OnSegment(d, received.value).replies
            == base + (Wire(c, before) + OnSegment(d, received.value).replies);
        acts := before + [Arrive(received.value)];
      }
    }

    /** One round of Write's waiting loop; `stop` when it is left. */
    method Poll(deadline: Deadline, env: seq<Tick>, from: nat) returns (stop: bool, k: nat, ghost acts: seq<Act>)
      requires Valid() && from + 3 <= |env|
      modifies this`sent, this`ipId, this`peerAck, this`recvSeq, this`connected, this`closed, this`failed
      modifies this`rxLock, this`rxTail, this`rxCount, rx, this`clock
      ensures Valid() && sent == old(sent) + Wire(old(View()), acts) && from < k <= from + 3
      ensures Listening(acts) && View() == Reached(old(View()), acts) && Caught(old(View()), cfg.mac, env[from..k], acts)
      ensures stop ==> deadline.Expired(clock) || peerAck >= sendSeq || failed
    {
      hide Reached, Wire, Caught;
      k := from + 1;
      acts := Yield(env[from]);
      assert env[from..k] == [env[from]];
      if deadline.Expired(clock) {
        return true, k, acts;
      }
      acts := YieldAfter(env, from, k, old(View()), old(sent), acts);
      k := from + 2;
      if peerAck >= sendSeq {
        return true, k, acts;
      }
      acts := YieldAfter(env, from, k, old(View()), old(sent), acts);
      return failed, from + 3, acts;
    }

    /** A further scheduling point of a caller that began to listen at `c`. */
    method YieldAfter(env: seq<Tick>, from: nat, k: nat, ghost c: Conn, ghost base: seq<Segment>, ghost before: seq<Act>)
      returns (ghost acts: seq<Act>)
      requires Valid() && from <= k < |env| && sent == base + Wire(c, before)
      requires Listening(before) && View() == Reached(c, before) && Caught(c, cfg.mac, env[from..k], before)
      modifies this`sent, this`ipId, this`peerAck, this`recvSeq, this`connected, this`closed, this`failed
      modifies this`rxLock, this`rxTail, this`rxCount, rx, this`clock
      ensures Valid() && clock == old(clock) + env[k].elapsed && sent == base + Wire(c, acts)
      ensures Listening(acts) && View() == Reached(c, acts) && Caught(c, cfg.mac, env[from..k + 1], acts)
      ensures Evolves(old(View()), View())
    {
      hide Reached, Wire, Caught, Evolves, Listening;
      ghost var more := Yield(env[k]);
      assert env[k..k + 1] == [env[k]];
      WireOn(base, old(sent), c, before, more);
      ListeningEvolves(old(View()), more);
      ListenOn(c, cfg.mac, env, from, k, k + 1, before, more);
      acts := before + more;
    }

    /** The check behind the waiting loop. */
    method TimedOutUnacked(deadline: Deadline, env: seq<Tick>, from: nat) returns (late: bool, ghost acts: seq<Act>)
      requires Valid() && (deadline.Expired(clock) || peerAck >= sendSeq || failed) && from + 2 <= |env|
      modifies this`sent, this`ipId, this`peerAck, this`recvSeq, this`connected, this`closed, this`failed
      modifies this`rxLock, this`rxTail, this`rxCount, rx, this`clock
      ensures Valid() && sent == old(sent) + Wire(old(View()), acts)
      ensures Listening(acts) && View() == Reached(old(View()), acts)
      ensures Caught(old(View()), cfg.mac, env[from..from + 2], acts)
      ensures if late then deadline.Expired(clock) else peerAck >= sendSeq || failed
    {
      hide Reached, Wire, Caught;
      acts := Yield(env[from]);
      ListeningEvolves(old(View()), acts);
      assert env[from..from + 1] == [env[from]];
      var acked := peerAck >= sendSeq;
      acts := YieldAfter(env, from, from + 1, old(View()), old(sent), acts);
      late := !acked && deadline.Expired(clock);
    }

    method AwaitAck(deadline: Deadline, env: seq<Tick>, from: nat) returns (k: nat, w: Wait, ghost acts: seq<Act>)
      requires Valid() && from <= |env|
      modifies this`sent, this`ipId, this`peerAck, this`recvSeq, this`connected, this`closed, this`failed
      modifies this`rxLock, this`rxTail, this`rxCount, rx, this`clock
      ensures Valid() && sent == old(sent) + Wire(old(View()), acts) && from <= k <= |env|
      ensures Listening(acts) && View() == Reached(old(View()), acts) && Caught(old(View()), cfg.mac, env[from..k], acts)
      ensures match w
              case GoOn => peerAck >= sendSeq || failed
              case TimedOut => deadline.Expired(clock)
              case Unfinished => |env| < k + 3
              case _ => false
    {
      hide Reached, Wire, Caught;
      k, acts := from, [];
      NothingReached(View());
      NothingOut(View());
      NothingCaught(View(), cfg.mac);
      assert env[from..from] == [];
      var stop, j := false, from;
      ghost var more;
      while !stop
        invariant Valid() && sent == old(sent) + Wire(old(View()), acts) && from <= k <= |env|
        invariant Listening(acts) && View() == Reached(old(View()), acts) && Caught(old(View()), cfg.mac, env[from..k], acts)
        invariant stop ==> deadline.Expired(clock) || peerAck >= sendSeq || failed
        decreases |env| - k
      {
        if |env| - k < 3 {
          return k, Unfinished, acts;
        }
        ghost var log := sent;
        stop, j, more := Poll(deadline, env, k);
        WireOn(old(sent), log, old(View()), acts, more);
        ListenOn(old(View()), cfg.mac, env, from, k, j, acts, more);
        k, acts := j, acts + more;
      }
      if |env| - k < 2 {
        return k, Unfinished, acts;
      }
      var late;
      ghost var log := sent;
      late, more := TimedOutUnacked(deadline, env, k);
      WireOn(old(sent), log, old(View()), acts, more);
      ListenOn(old(View()), cfg.mac, env, from, k, k + 2, acts, more);
      return k + 2, if late then TimedOut else GoOn, acts + more;
    }

    /** What Write has done so far, from `c` on, with the frames of `env`. */
    ghost predicate Wrote(c: Conn, base: seq<Segment>, env: seq<Tick>, data: Bytes, acts: seq<Act>)
      reads this, rx
      requires Valid()
    {
      && View() == Reached(c, acts) && sent == base + Wire(c, acts)
      && OnWrite(acts) && StopAndWait(c, data, acts) && Caught(c, cfg.mac, env, acts)
    }

    /** `done` bytes have gone out and are counted, and the next chunk may follow. */
    ghost predicate MayGoOn(data: Bytes, acts: seq<Act>, done: nat)
      reads this`sendSeq, this`failed, this`peerAck
    {
      && done <= |data| && Written(acts) == done && Payload(acts) == data[..done]
      && (done == 0 || failed || peerAck >= sendSeq) && Break !in acts
    }

    /** Frames that arrive while Write is at work. */
    method YieldInWrite(env: seq<Tick>, from: nat, ghost c: Conn, ghost base: seq<Segment>, ghost data: Bytes,
                        ghost before: seq<Act>)
      returns (ghost acts: seq<Act>)
      requires Valid() && from < |env| && Wrote(c, base, env[..from], data, before)
      modifies this`sent, this`ipId, this`peerAck, this`recvSeq, this`connected, this`closed, this`failed
      modifies this`rxLock, this`rxTail, this`rxCount, rx, this`clock
      ensures Valid() && Wrote(c, base, env[..from + 1], data, acts) && Evolves(old(View()), View())
      ensures Written(acts) == Written(before) && Payload(acts) == Payload(before) && (Break in acts <==> Break in before)
    {
      hide Reached, Wire, Caught, StopAndWait, Written, Payload;
      ghost var more := Yield(env[from]);
      WireOn(base, old(sent), c, before, more);
      assert env[from..from + 1] == [env[from]];
      ListenedInWrite(c, cfg.mac, env, from, from + 1, data, before, more);
      acts := before + more;
    }

    /** One chunk of Write: SendTcp, the frames that arrive meanwhile, and the sequence number moved or the stream failed. */
    method SendChunk(p: Bytes, env: seq<Tick>, from: nat, ghost c: Conn, ghost base: seq<Segment>, ghost data: Bytes,
                     ghost before: seq<Act>)
      returns (ok: bool, ghost acts: seq<Act>)
      requires Valid() && from < |env| && Wrote(c, base, env[..from], data, before) && MaySend(c, data, before, p)
      modifies this`sent, this`ipId, this`peerAck, this`recvSeq, this`connected, this`closed, this`failed
      modifies this`rxLock, this`rxTail, this`rxCount, rx, this`clock, this`sendSeq
      ensures Valid() && Wrote(c, base, env[..from + 1], data, acts)
      ensures if ok then Written(acts) == Written(before) + |p| && Payload(acts) == Payload(before) + p else Break in acts
      ensures ok ==> Break !in acts
    {
      hide Reached, Wire, Caught, StopAndWait, Written, Payload;
      ok, acts := PutOut(p, env[..from], c, base, data, before);
      acts := YieldInWrite(env, from, c, base, data, acts);
      ghost var a := if ok then Advance(|p|) else Break;
      StepInWrite(c, cfg.mac, env[..from + 1], data, acts, a);
      WireSnoc(c, acts, a);
      acts := acts + [a];
      if !ok {
        Fail();
        return;
      }
      MoveOn(|p|);
    }

    /** The call of SendTcp. */
    method PutOut(p: Bytes, ghost env: seq<Tick>, ghost c: Conn, ghost base: seq<Segment>, ghost data: Bytes,
                  ghost before: seq<Act>)
      returns (ok: bool, ghost acts: seq<Act>)
      requires Valid() && Wrote(c, base, env, data, before) && MaySend(c, data, before, p)
      modifies this`sent, this`ipId
      ensures Valid() && View() == old(View()) && Wrote(c, base, env, data, acts)
      ensures Written(acts) == Written(before) && Payload(acts) == Payload(before) + p && Break !in acts
    {
      hide Reached, Wire, Caught, StopAndWait, Written, Payload;
      ghost var out := Emit(View(), PSH_ACK, p, sendSeq);
      ok := SendTcp(PSH_ACK, p, sendSeq);
      StepInWrite(c, cfg.mac, env, data, before, Send(p));
      WireSnoc(c, before, Send(p));
      acts := before + [Send(p)];
      assert (base + Wire(c, before)) + out == base + (Wire(c, before) + out);
    }

    method MoveOn(n: nat)
      requires Valid()
      modifies this`sendSeq
      ensures Valid() && View() == old(View()).(sendSeq := Wrap32(old(sendSeq) + n))
    {
      sendSeq := Wrap32(sendSeq + n);
    }

    /** One chunk sent and awaited. */
    method WriteRound(data: Bytes, done: nat, deadline: Deadline, env: seq<Tick>, from: nat,
                      ghost c: Conn, ghost base: seq<Segment>, ghost before: seq<Act>)
      returns (w: Wait, total: nat, k: nat, ghost acts: seq<Act>)
      requires Valid() && done < |data| && from <= |env|
      requires Wrote(c, base, env[..from], data, before) && MayGoOn(data, before, done)
      modifies this`sent, this`ipId, this`peerAck, this`recvSeq, this`connected, this`closed, this`failed
      modifies this`rxLock, this`rxTail, this`rxCount, rx, this`clock, this`sendSeq
      ensures Valid() && from <= k <= |env| && Wrote(c, base, env[..k], data, acts)
      ensures match w
              case GoOn => done < total && MayGoOn(data, acts, total)
              case TooLate => false
              case TimedOut => deadline.Expired(clock)
              case Refused => Break in acts
              case Unfinished => |env| < k + 3
    {
      hide Reached, Wire, Caught, StopAndWait, Written, Payload;
      w, total, k, acts := Unfinished, done, from, before;
      if from == |env| {
        return;
      }
      var chunk := if |data| - done > CHUNK then CHUNK else |data| - done;
      NextChunk(data, done, chunk);
      var ok;
      ok, acts := SendChunk(data[done..done + chunk], env, from, c, base, data, before);
      k := from + 1;
      if !ok {
        w := Refused;
        return;
      }
      total := done + chunk;
      ghost var sentActs, more, log := acts, [], sent;
      k, w, more := AwaitAck(deadline, env, from + 1);
      WireOn(base, log, c, sentActs, more);
      ListenedInWrite(c, cfg.mac, env, from + 1, k, data, sentActs, more);
      acts := sentActs + more;
    }

    /** One turn of Write's loop: the deadline, then a chunk. */
    method WriteTurn(data: Bytes, done: nat, deadline: Deadline, env: seq<Tick>, from: nat,
                     ghost c: Conn, ghost base: seq<Segment>, ghost before: seq<Act>)
      returns (w: Wait, total: nat, k: nat, ghost acts: seq<Act>)
      requires Valid() && done < |data| && from <= |env|
      requires Wrote(c, base, env[..from], data, before) && MayGoOn(data, before, done)
      modifies this`sent, this`ipId, this`peerAck, this`recvSeq, this`connected, this`closed, this`failed
      modifies this`rxLock, this`rxTail, this`rxCount, rx, this`clock, this`sendSeq
      ensures Valid() && from <= k <= |env| && Wrote(c, base, env[..k], data, acts)
      ensures match w
              case GoOn => done < total && MayGoOn(data, acts, total)
              case TooLate => deadline.Expired(clock) && total == done && MayGoOn(data, acts, total)
              case TimedOut => deadline.Expired(clock)
              case Refused => Break in acts
              case Unfinished => |env| < k + 3
    {
      hide Reached, Wire, Caught, StopAndWait, Written, Payload;
      w, total, k, acts := Unfinished, done, from, before;
      if from == |env| {
        return;
      }
      acts := YieldInWrite(env, from, c, base, data, before);
      k := from + 1;
      if deadline.Expired(clock) {
        w := TooLate;
        return;
      }
      w, total, k, acts := WriteRound(data, done, deadline, env, from + 1, c, base, acts);
    }

    /**
     `acts` is what became of the connection during the call, as the runs of
     `InOrderDelivery` and `GuardMeans` see it: the segments in it are those that the
     frames of the first `k` ticks carry, and what went out is what its `Send` steps say.
     */
    method Write(data: Bytes, deadline: Deadline, env: seq<Tick>)
      returns (r: Outcome, ghost k: nat, ghost acts: seq<Act>)
      requires Valid()
      modifies this`sent, this`ipId, this`peerAck, this`recvSeq, this`connected, this`closed, this`failed
      modifies this`rxLock, this`rxTail, this`rxCount, rx, this`clock, this`sendSeq
      ensures Valid() && View() == Reached(old(View()), acts) && OnWrite(acts)
      ensures k <= |env| && Caught(old(View()), cfg.mac, env[..k], acts)
      ensures StopAndWait(old(View()), data, acts) && sent == old(sent) + Wire(old(View()), acts)
      ensures old(View()).rx <= View().rx
      ensures match r
              case Running => |env| < k + 3
              case Returned(v) =>
                if v < 0 then
                  v == -1 && if old(connected) then Break in acts || deadline.Expired(clock) else acts == []
                else
                  && v <= |data| && Break !in acts && Payload(acts) == data[..v] && Written(acts) == v
                  && (v == |data| || deadline.Expired(clock)) && (v == 0 || failed || peerAck >= sendSeq)
    {
      hide Reached, Wire, Caught, StopAndWait, Written, Payload;
      ghost var c, base := View(), sent;
      k, acts := 0, [];
      NothingWritten(c, cfg.mac, data);
      NothingOut(c);
      assert env[..0] == [] && base + [] == base;
      WriteKeeps(c, acts);
      if !connected {
        return Returned(-1), k, acts;
      }
      var done, at, w := 0, 0, GoOn;
      while done < |data|
        invariant Valid() && at <= |env| && Wrote(c, base, env[..at], data, acts) && MayGoOn(data, acts, done)
      {
        w, done, at, acts := WriteTurn(data, done, deadline, env, at, c, base, acts);
        WriteKeeps(c, acts);
        k := at;
        if w == TooLate {
          return Returned(done), k, acts;
        }
        if w != GoOn {
          return if w == Unfinished then Running else Returned(-1), k, acts;
        }
      }
      WriteKeeps(c, acts);
      return Returned(done), at, acts;
    }

    /** One turn of Read's loop: what PopRx takes, as steps of the connection. */
    method ReadTurn(cap: nat, ghost run: Run, ghost env: seq<Tick>, ghost before: seq<Act>)
      returns (data: Bytes, ghost acts: seq<Act>)
      requires Valid() && Exec(run, before).conn == View() && OnRead(before) && Caught(run.conn, cfg.mac, env, before)
      modifies this`rxLock, this`rxHead, this`rxCount
      ensures Valid() && |data| <= cap && OnRead(acts) && View() == old(View()).(rx := View().rx, locked := View().locked)
      ensures Exec(run, acts) == Exec(run, before).(conn := View(), delivered := Exec(run, before).delivered + data)
      ensures Caught(run.conn, cfg.mac, env, acts) && Wire(run.conn, acts) == Wire(run.conn, before)
    {
      hide Exec, Wire, Reached, Do, Caught;
      ghost var r := Exec(run, before);
      data := PopRx(cap);
      acts := before;
      if old(rxLock) || cap == 0 {
        assert r.delivered + data == r.delivered;
      } else {
        acts := (before + [Lock]) + [Take(cap)];
        TurnTaken(run, env, cfg.mac, before, cap, View(), data);
      }
    }

    /** The bytes handed to the caller are what the steps of the call deliver. */
    method Read(cap: nat, deadline: Deadline, env: seq<Tick>) 
      returns (r: Outcome, data: Bytes, ghost k: nat, ghost acts: seq<Act>)
      requires Valid()
      modifies this`sent, this`ipId, this`peerAck, this`recvSeq, this`connected, this`closed, this`failed
      modifies this`rxLock, this`rxHead, this`rxTail, this`rxCount, rx, this`clock
      ensures Valid() && |data| <= cap && sent == old(sent) + Wire(old(View()), acts)
      ensures Exec(Run(old(View()), [], []), acts).conn == View() && Exec(Run(old(View()), [], []), acts).delivered == data
      ensures OnRead(acts) && old(View()).rx <= data + View().rx
      ensures k <= |env| && Caught(old(View()), cfg.mac, env[..k], acts)
      ensures match r
              case Running => data == [] && k == |env|
              case Returned(v) =>
                if v > 0 then v == |data|
                else data == [] && if v == 0 then closed else v == -1 && (cap == 0 || failed || deadline.Expired(clock))
    {
      hide Exec, Wire, Caught;
      data, acts, k := [], [], 0;
      NothingOut(View());
      ghost var run := Run(View(), [], []);
      NothingDone(run);
      NothingCaught(View(), cfg.mac);
      assert env[..0] == [];
      if cap == 0 {
        StreamGrowsOver(run, acts);
        return Returned(-1), data, k, acts;
      }
      for i := 0 to |env|
        invariant Valid() && data == [] && OnRead(acts) && sent == old(sent) + Wire(run.conn, acts) && k == i
        invariant Exec(run, acts).conn == View() && Exec(run, acts).delivered == []
        invariant Caught(old(View()), cfg.mac, env[..i], acts)
        invariant View().flow == old(View()).flow && configured == old(configured)
      {
        if deadline.Expired(clock) {
          StreamGrowsOver(run, acts);
          return Returned(-1), data, k, acts;
        }
        data, acts := ReadTurn(cap, run, env[..i], acts);
        if |data| > 0 {
          StreamGrowsOver(run, acts);
          return Returned(|data|), data, k, acts;
        }
        if failed {
          StreamGrowsOver(run, acts);
          return Returned(-1), data, k, acts;
        }
        if closed {
          StreamGrowsOver(run, acts);
          return Returned(0), data, k, acts;
        }
        acts := YieldInRead(env, i, run, old(sent), acts);
        k := i + 1;
      }
      assert env[..|env|] == env;
      StreamGrowsOver(run, acts);
      return Running, data, k, acts;
    }

    /** Frames that arrive while Read sleeps. */
    method YieldInRead(env: seq<Tick>, from: nat, ghost run: Run, ghost base: seq<Segment>, ghost before: seq<Act>)
      returns (ghost acts: seq<Act>)
      requires Valid() && from < |env| && OnRead(before) && Exec(run, before).conn == View()
      requires sent == base + Wire(run.conn, before)
      requires Caught(run.conn, cfg.mac, env[..from], before)
      requires run.conn.flow == View().flow && run.conn.configured == configured
      modifies this`sent, this`ipId, this`peerAck, this`recvSeq, this`connected, this`closed, this`failed
      modifies this`rxLock, this`rxTail, this`rxCount, rx, this`clock
      ensures Valid() && OnRead(acts) && sent == base + Wire(run.conn, acts)
      ensures Exec(run, acts).conn == View() && Exec(run, acts).delivered == Exec(run, before).delivered
      ensures Caught(run.conn, cfg.mac, env[..from + 1], acts)
      ensures View().flow == old(View()).flow && configured == old(configured)
    {
      hide Exec, Wire, Reached;
      ghost var here := Exec(run, before);
      ghost var more := Yield(env[from]);
      ReachedIs(run, before);
      WireOn(base, old(sent), run.conn, before, more);
      ListeningEvolves(here.conn, more);
      ExecConcat(run, before, more);
      ListeningExec(here, more);
      CaughtMore(run.conn, cfg.mac, env[..from], before, [env[from]], more);
      assert env[..from] + [env[from]] == env[..from + 1];
      acts := before + more;
    }

    method Connect(address: dword, port: word, deadline: Deadline, env: seq<Tick>)
      returns (r: Outcome, ghost k: nat, ghost acts: seq<Act>)
      requires Valid()
      modifies this`sent, this`ipId, this`peerAck, this`recvSeq, this`connected, this`closed, this`failed
      modifies this`rxLock, this`rxTail, this`rxCount, rx, this`clock, this`sendSeq, this`remoteIp, this`remotePort
      ensures Valid() && Listening(acts)
      ensures address == 0 || port == 0 || !old(configured) ==> r == Returned(0) && View() == old(View()) && sent == old(sent)
      ensures address != 0 && port != 0 && old(configured) ==>
        var dialled := Dialled(old(View()), address, port);
        && k <= |env| && Caught(dialled, cfg.mac, env[..k], acts)
        && sent == old(sent) + [Segment(old(localPort), port, old(sendSeq), 0, SYN, [])] + Wire(dialled, acts)
        && ((View() == Reached(dialled, acts) && Evolves(dialled, View()))
            || (r == Returned(0) && acts == [] && View() == dialled.(sendSeq := old(sendSeq))))
      ensures r == Returned(1) ==> connected
      ensures r == Returned(0) && sendSeq != old(sendSeq) ==> deadline.Expired(clock) || failed
      ensures r.Running? ==> k == |env|
    {
      hide Reached, Wire, Dialled, Caught;
      acts, k := [], 0;
      assert env[..0] == [];
      if address == 0 || port == 0 || !configured {
        return Returned(0), k, acts;
      }
      ghost var dialled := Dialled(View(), address, port);
      NothingCaught(dialled, cfg.mac);
      NothingOut(dialled);
      var ok := StartConnect(address, port);
      ghost var base := sent;
      if !ok {
        return Returned(0), k, acts;
      }
      NothingReached(dialled);
      for i := 0 to |env|
        invariant Valid() && Listening(acts) && View() == Reached(dialled, acts) && k == i
        invariant Caught(dialled, cfg.mac, env[..i], acts) && Evolves(dialled, View())
        invariant sent == base + Wire(dialled, acts)
      {
        if deadline.Expired(clock) || failed {
          return Returned(0), k, acts;
        }
        if connected {
          return Returned(1), k, acts;
        }
        assert env[0..i] == env[..i] && env[0..i + 1] == env[..i + 1];
        acts := YieldAfter(env, 0, i, dialled, base, acts);
        k := i + 1;
      }
      assert env[..|env|] == env;
      return Running, k, acts;
    }

    method PrepareDial(address: dword, port: word)
      requires Valid()
      modifies this`peerAck, this`recvSeq, this`connected, this`closed, this`failed, this`remoteIp, this`remotePort
      ensures Valid() && View() == Dialled(old(View()), address, port).(sendSeq := old(sendSeq))
    {
      remoteIp, remotePort := address, port;
      recvSeq, peerAck := 0, 0;
      closed, failed, connected := false, false, false;
    }

    /** The part of Connect up to the SYN. */
    method StartConnect(address: dword, port: word) returns (ok: bool)
      requires Valid() && address != 0 && port != 0
      modifies this`sent, this`ipId, this`peerAck, this`recvSeq, this`connected, this`closed, this`failed
      modifies this`sendSeq, this`remoteIp, this`remotePort
      ensures Valid()
      ensures View() == if ok then Dialled(old(View()), address, port)
                        else Dialled(old(View()), address, port).(sendSeq := old(sendSeq))
      ensures sent == old(sent) + [Segment(old(localPort), port, old(sendSeq), 0, SYN, [])]
    {
      PrepareDial(address, port);
      var syn: dword := sendSeq;
      ok := SendTcp(SYN, [], syn);
      if ok {
        sendSeq := Wrap32(syn + 1);
      }
    }

    method Close()
      requires Valid()
      modifies this`sent, this`ipId, this`connected, this`closed
      ensures Valid() && View() == Do(Run(old(View()), [], []), Shut).conn
      ensures sent == old(sent) + if old(connected) then Emit(old(View()), FIN_ACK, [], sendSeq) else []
    {
      if connected {
        var _ := SendTcp(FIN_ACK, [], sendSeq);
      }
      connected := false;
      closed := true;
    }
  }

  // ----------------------------------------------------- in-order delivery

  /** One atomic action on the connection by either thread. */
  datatype Act =
    | Arrive(segment: Segment)   // the frame handler
    | Lock                       // PopRx takes the ring lock ...
    | Take(cap: nat)             // ... copies bytes out and releases it
    | Dial(ip: dword, port: word)
    | Send(data: Bytes)          // Write hands a chunk to SendTcp ...
    | Advance(n: nat)            // ... and moves the send sequence number over it
    | Break                      // Write fails the stream
    | Shut

  /** `base` is everything received before the connection last opened. */
  datatype Run = Run(conn: Conn, delivered: Bytes, base: Bytes) {
    function Stream(): Bytes {
      delivered + conn.rx
    }
  }

  function Dialled(c: Conn, ip: dword, port: word): Conn {
    c.(flow := c.flow.(peerIp := ip, peerPort := port), recvSeq := 0, peerAck := 0,
       closed := false, failed := false, connected := false, sendSeq := Wrap32(c.sendSeq + 1))
  }

  function Do(r: Run, a: Act): Run {
    var c := r.conn;
    match a
    case Arrive(s) =>
      var n := r.(conn := OnSegment(c, s).conn);
      if IsAccept(c, s) then n.(base := r.Stream()) else n
    case Lock => r.(conn := c.(locked := true))
    case Take(cap) =>
      if !c.locked then r
      else
        var n := if |c.rx| < cap then |c.rx| else cap;
        r.(conn := c.(locked := false, rx := c.rx[n..]), delivered := r.delivered + c.rx[..n])
    case Dial(ip, port) => r.(conn := Dialled(c, ip, port))
    case Send(_) => r
    case Advance(n) => r.(conn := c.(sendSeq := Wrap32(c.sendSeq + n)))
    case Break => r.(conn := Failed(c))
    case Shut => r.(conn := c.(connected := false, closed := true))
  }

  function Exec(r: Run, acts: seq<Act>): Run {
    if acts == [] then r else Do(Exec(r, acts[..|acts| - 1]), acts[|acts| - 1])
  }

  lemma {:induction false} ExecConcat(r: Run, a: seq<Act>, b: seq<Act>)
    ensures Exec(r, a + b) == Exec(Exec(r, a), b)
    decreases |b|
  {
    hide Do;
    if b == [] {
      assert a + b == a;
    } else {
      assert (a + b)[..|a + b| - 1] == a + b[..|b| - 1];
      ExecConcat(r, a, b[..|b| - 1]);
    }
  }

  lemma ExecOne(r: Run, a: Act)
    ensures Exec(r, [a]) == Do(r, a)
  {
    hide Do;
    assert [a][..0] == [];
    NothingDone(r);
  }

  lemma NothingDone(r: Run)
    ensures Exec(r, []) == r
  {
  }

  /** The connection after a run, whatever was delivered before. */
  function Reached(c: Conn, acts: seq<Act>): Conn {
    Exec(Run(c, [], []), acts).conn
  }

  lemma {:induction false} ReachedIs(r: Run, acts: seq<Act>)
    ensures Exec(r, acts).conn == Reached(r.conn, acts)
  {
    if acts != [] {
      ReachedIs(r, acts[..|acts| - 1]);
      SameConn(Exec(r, acts[..|acts| - 1]), Exec(Run(r.conn, [], []), acts[..|acts| - 1]), acts[|acts| - 1]);
    }
  }

  lemma SameConn(r: Run, q: Run, a: Act)
    requires r.conn == q.conn
    ensures Do(r, a).conn == Do(q, a).conn
  {
    hide OnSegment;
  }

  lemma ReachedConcat(c: Conn, a: seq<Act>, b: seq<Act>)
    ensures Reached(c, a + b) == Reached(Reached(c, a), b)
  {
    ExecConcat(Run(c, [], []), a, b);
    ReachedIs(Exec(Run(c, [], []), a), b);
  }

  lemma NothingReached(c: Conn)
    ensures Reached(c, []) == c
  {
  }

  lemma ReachedOne(c: Conn, a: Act)
    ensures Reached(c, [a]) == Do(Run(c, [], []), a).conn
  {
    hide Do, Exec;
    ExecOne(Run(c, [], []), a);
  }

  lemma ReachedSnoc(c: Conn, acts: seq<Act>, a: Act)
    ensures Reached(c, acts + [a]) == Do(Run(Reached(c, acts), [], []), a).conn
  {
    hide Reached, Do;
    ReachedConcat(c, acts, [a]);
    ReachedOne(Reached(c, acts), a);
  }

  lemma ReachedLast(c: Conn, acts: seq<Act>)
    requires acts != []
    ensures Reached(c, acts) == Do(Run(Reached(c, acts[..|acts| - 1]), [], []), acts[|acts| - 1]).conn
  {
    hide Reached, Do;
    var n := |acts| - 1;
    assert acts == acts[..n] + [acts[n]];
    ReachedSnoc(c, acts[..n], acts[n]);
  }

  /** What PopRx does, behind the run `before`. */
  lemma TurnTaken(run: Run, env: seq<Tick>, mac: Mac, before: seq<Act>, cap: nat, after: Conn, data: Bytes)
    requires OnRead(before) && Caught(run.conn, mac, env, before)
    requires Do(Do(Run(Exec(run, before).conn, [], []), Lock), Take(cap)) == Run(after, data, [])
    ensures var acts, r := (before + [Lock]) + [Take(cap)], Exec(run, before);
      && Exec(run, acts) == r.(conn := after, delivered := r.delivered + data) && OnRead(acts)
      && Caught(run.conn, mac, env, acts) && Wire(run.conn, acts) == Wire(run.conn, before)
  {
    hide Exec, Wire, Reached, Do, Out, Caught;
    TakeDelivers(Exec(run, before), cap, after, data);
    ExecSnoc(run, before, Lock);
    ExecSnoc(run, before + [Lock], Take(cap));
    TurnIsQuiet(run.conn, env, mac, before, Lock);
    TurnIsQuiet(run.conn, env, mac, before + [Lock], Take(cap));
  }

  lemma TakeDelivers(r: Run, cap: nat, after: Conn, data: Bytes)
    requires Do(Do(Run(r.conn, [], []), Lock), Take(cap)) == Run(after, data, [])
    ensures Do(Do(r, Lock), Take(cap)) == r.(conn := after, delivered := r.delivered + data)
  {
    hide OnSegment, IsAccept, Dialled;
    assert [] + data == data;
  }

  lemma TurnIsQuiet(c: Conn, env: seq<Tick>, mac: Mac, acts: seq<Act>, a: Act)
    requires (a.Lock? || a.Take?) && Caught(c, mac, env, acts)
    ensures Caught(c, mac, env, acts + [a]) && Wire(c, acts + [a]) == Wire(c, acts)
  {
    hide Wire, Reached, OnSegment, Heard, Arrivals;
    OneArrival(acts, a);
    WireSnoc(c, acts, a);
  }

  /** Only the frame handler acts. */
  predicate Listening(acts: seq<Act>) {
    forall a :: a in acts ==> a.Arrive?
  }

  /** The steps that a call of Write is made of. */
  predicate OnWrite(acts: seq<Act>) {
    forall a :: a in acts ==> a.Arrive? || a.Send? || a.Advance? || a.Break?
  }

  /** The steps that a call of Read is made of. */
  predicate OnRead(acts: seq<Act>) {
    forall a :: a in acts ==> a.Arrive? || a.Lock? || a.Take?
  }

  lemma {:induction false} ListeningEvolves(c: Conn, acts: seq<Act>)
    requires Listening(acts)
    ensures Evolves(c, Reached(c, acts))
  {
    hide OnSegment;
    if acts != [] {
      var before := acts[..|acts| - 1];
      var d := Reached(c, before);
      ListeningEvolves(c, before);
      HandlerEvolves(d, acts[|acts| - 1].segment);
      EvolvesTrans(c, d, Reached(c, acts));
    }
  }

  lemma {:induction false} ListeningExec(r: Run, acts: seq<Act>)
    requires Listening(acts)
    ensures Exec(r, acts).delivered == r.delivered && Exec(r, acts).conn == Reached(r.conn, acts)
  {
    hide OnSegment, Reached;
    ReachedIs(r, acts);
    if acts != [] {
      ListeningExec(r, acts[..|acts| - 1]);
    }
  }

  /** A call of Write only ever adds to what is to be read, and moves the sequence number over what it counts. */
  lemma {:induction false} WriteKeeps(c: Conn, acts: seq<Act>)
    requires OnWrite(acts)
    ensures var d := Reached(c, acts);
      && c.rx <= d.rx && d.flow == c.flow && d.configured == c.configured && d.sendSeq == Wrap32(c.sendSeq + Written(acts))
  {
    hide Do;
    if acts != [] {
      var n := |acts| - 1;
      WriteKeeps(c, acts[..n]);
      WriteStepKeeps(Exec(Run(c, [], []), acts[..n]), acts[n]);
      Wrap32Add(c.sendSeq + Written(acts[..n]), if acts[n].Advance? then acts[n].n else 0);
    }
  }

  lemma WriteStepKeeps(r: Run, a: Act)
    requires a.Arrive? || a.Send? || a.Advance? || a.Break?
    ensures var d := Do(r, a).conn;
      && r.conn.rx <= d.rx && d.flow == r.conn.flow && d.configured == r.conn.configured
      && d.sendSeq == if a.Advance? then Wrap32(r.conn.sendSeq + a.n) else r.conn.sendSeq
  {
    hide OnSegment;
    if a.Arrive? {
      HandlerEvolves(r.conn, a.segment);
    }
  }

  // --------------------------------------------- what a run puts on the wire

  /** The segments that step `a` gives to the sender. */
  function Out(d: Conn, a: Act): seq<Segment> {
    match a
    case Arrive(s) => OnSegment(d, s).replies
    case Send(p) => Emit(d, PSH_ACK, p, d.sendSeq)
    case Dial(ip, port) => Emit(Dialled(d, ip, port), SYN, [], d.sendSeq)
    case Shut => if d.connected then Emit(d, FIN_ACK, [], d.sendSeq) else []
    case _ => []
  }

  /** The segments that a run puts on the wire, in order. */
  function Wire(c: Conn, acts: seq<Act>): seq<Segment> {
    if acts == [] then []
    else
      var n := |acts| - 1;
      Wire(c, acts[..n]) + Out(Reached(c, acts[..n]), acts[n])
  }

  lemma WireSnoc(c: Conn, acts: seq<Act>, a: Act)
    ensures Wire(c, acts + [a]) == Wire(c, acts) + Out(Reached(c, acts), a)
  {
    hide Reached, Out;
    assert (acts + [a])[..|acts|] == acts;
  }

  lemma NothingOut(c: Conn)
    ensures Wire(c, []) == []
  {
  }

  lemma {:induction false} WireConcat(c: Conn, a: seq<Act>, b: seq<Act>)
    ensures Wire(c, a + b) == Wire(c, a) + Wire(Reached(c, a), b)
    decreases |b|
  {
    hide Reached, Out;
    if b == [] {
      assert a + b == a;
    } else {
      var n := |b| - 1;
      assert a + b == (a + b[..n]) + [b[n]] && b == b[..n] + [b[n]];
      WireConcat(c, a, b[..n]);
      WireSnoc(c, a + b[..n], b[n]);
      WireSnoc(Reached(c, a), b[..n], b[n]);
      ReachedConcat(c, a, b[..n]);
    }
  }

  /** The log behind the run goes on with the log of what follows. */
  lemma WireOn(base: seq<Segment>, log: seq<Segment>, c: Conn, acts: seq<Act>, more: seq<Act>)
    requires log == base + Wire(c, acts)
    ensures log + Wire(Reached(c, acts), more) == base + Wire(c, acts + more)
  {
    hide Reached, Wire;
    WireConcat(c, acts, more);
  }

  // --------------------------------------------- the segments a schedule brings

  /** The segments that `frames` carry to a stream with this address, in order. */
  function Heard(configured: bool, mac: Mac, flow: Flow, frames: seq<Bytes>): seq<Segment> {
    if frames == [] then []
    else
      var n := |frames| - 1;
      Heard(configured, mac, flow, frames[..n]) +
      match Received(configured, mac, flow, frames[n])
      case None => []
      case Some(s) => [s]
  }

  function Frames(env: seq<Tick>): seq<Bytes> {
    if env == [] then [] else Frames(env[..|env| - 1]) + env[|env| - 1].frames
  }

  /** The segments that arrive in a run, in order. */
  function Arrivals(acts: seq<Act>): seq<Segment> {
    if acts == [] then []
    else Arrivals(acts[..|acts| - 1]) + if acts[|acts| - 1].Arrive? then [acts[|acts| - 1].segment] else []
  }

  /** What arrives in the run is what the frames of `env` carry to the connection, no more and no less. */
  predicate Caught(c: Conn, mac: Mac, env: seq<Tick>, acts: seq<Act>) {
    Arrivals(acts) == Heard(c.configured, mac, c.flow, Frames(env))
  }

  lemma {:induction false} HeardConcat(configured: bool, mac: Mac, flow: Flow, a: seq<Bytes>, b: seq<Bytes>)
    ensures Heard(configured, mac, flow, a + b) == Heard(configured, mac, flow, a) + Heard(configured, mac, flow, b)
    decreases |b|
  {
    hide Received;
    if b == [] {
      assert a + b == a;
    } else {
      assert (a + b)[..|a + b| - 1] == a + b[..|b| - 1];
      HeardConcat(configured, mac, flow, a, b[..|b| - 1]);
    }
  }

  lemma NothingHeard(configured: bool, mac: Mac, flow: Flow)
    ensures Arrivals([]) == Heard(configured, mac, flow, []) == []
  {
  }

  lemma OneHeard(configured: bool, mac: Mac, flow: Flow, frames: seq<Bytes>, i: nat)
    requires i < |frames|
    ensures Heard(configured, mac, flow, frames[..i + 1])
         == Heard(configured, mac, flow, frames[..i]) +
            match Received(configured, mac, flow, frames[i]) { case None => [] case Some(s) => [s] }
  {
    hide Received;
    assert frames[..i + 1][..i] == frames[..i];
  }

  lemma {:induction false} FramesConcat(a: seq<Tick>, b: seq<Tick>)
    ensures Frames(a + b) == Frames(a) + Frames(b)
    decreases |b|
  {
    if b == [] {
      assert a + b == a;
    } else {
      assert (a + b)[..|a + b| - 1] == a + b[..|b| - 1];
      FramesConcat(a, b[..|b| - 1]);
    }
  }

  lemma OneTick(t: Tick)
    ensures Frames([t]) == t.frames && t.frames[..|t.frames|] == t.frames
  {
    assert [t][..0] == [];
  }

  lemma {:induction false} ArrivalsConcat(a: seq<Act>, b: seq<Act>)
    ensures Arrivals(a + b) == Arrivals(a) + Arrivals(b)
    decreases |b|
  {
    if b == [] {
      assert a + b == a;
    } else {
      assert (a + b)[..|a + b| - 1] == a + b[..|b| - 1];
      ArrivalsConcat(a, b[..|b| - 1]);
    }
  }

  lemma OneArrival(acts: seq<Act>, a: Act)
    ensures Arrivals(acts + [a]) == Arrivals(acts) + if a.Arrive? then [a.segment] else []
  {
    assert (acts + [a])[..|acts|] == acts;
  }

  lemma NothingCaught(c: Conn, mac: Mac)
    ensures Caught(c, mac, [], [])
  {
  }

  lemma CaughtMore(c: Conn, mac: Mac, env: seq<Tick>, acts: seq<Act>, later: seq<Tick>, more: seq<Act>)
    requires Caught(c, mac, env, acts) && Caught(c, mac, later, more)
    ensures Caught(c, mac, env + later, acts + more)
  {
    FramesConcat(env, later);
    HeardConcat(c.configured, mac, c.flow, Frames(env), Frames(later));
    ArrivalsConcat(acts, more);
  }

  /** A caller that listens on: the ticks `from..k` and then `k..j`. */
  lemma ListenOn(c: Conn, mac: Mac, env: seq<Tick>, from: nat, k: nat, j: nat, acts: seq<Act>, more: seq<Act>)
    requires from <= k <= j <= |env| && Listening(acts) && Listening(more)
    requires Caught(c, mac, env[from..k], acts) && Caught(Reached(c, acts), mac, env[k..j], more)
    ensures Listening(acts + more) && Caught(c, mac, env[from..j], acts + more)
    ensures Reached(c, acts + more) == Reached(Reached(c, acts), more)
  {
    hide Reached;
    ListeningEvolves(c, acts);
    ReachedConcat(c, acts, more);
    CaughtMore(c, mac, env[from..k], acts, env[k..j], more);
    assert env[from..k] + env[k..j] == env[from..j];
  }

  /** A connection that opens while the caller waits was opened by a SYN-ACK that acknowledges its SYN. */
  lemma {:induction false} OpenedBySynAck(c: Conn, acts: seq<Act>)
    requires !c.connected && Listening(acts) && Reached(c, acts).connected
    ensures exists k :: 0 <= k < |acts| && IsAccept(Reached(c, acts[..k]), acts[k].segment)
  {
    hide OnSegment, IsAccept;
    assert acts != [];
    var n := |acts| - 1;
    var d := Reached(c, acts[..n]);
    if d.connected {
      OpenedBySynAck(c, acts[..n]);
      var k :| 0 <= k < n && IsAccept(Reached(c, acts[..n][..k]), acts[..n][k].segment);
      assert acts[..n][..k] == acts[..k];
    } else {
      OpensByAccept(d, acts[n].segment);
    }
  }

  lemma OpensByAccept(c: Conn, s: Segment)
    requires !c.connected && OnSegment(c, s).conn.connected
    ensures IsAccept(c, s)
  {
  }

  /** A segment of the peer that sends `x` after initial sequence number `irs`; it may be lost, repeated or late. */
  ghost predicate Honest(s: Segment, x: Bytes, irs: dword) {
    (Has(s.flags, SYN) && Has(s.flags, ACK) ==> s.seqno == irs) &&
    (s.data != [] ==> exists i :: IsPiece(s, x, irs, i))
  }

  /** The segment's data stand at position `i` of the stream, and its sequence number says so. */
  predicate IsPiece(s: Segment, x: Bytes, irs: dword, i: nat) {
    i + |s.data| <= |x| && s.seqno == Wrap32(irs + 1 + i) && s.data == x[i..i + |s.data|]
  }

  ghost predicate AllHonest(acts: seq<Act>, x: Bytes, irs: dword) {
    forall i :: 0 <= i < |acts| && acts[i].Arrive? ==> Honest(acts[i].segment, x, irs)
  }

  /** Since it opened, the stream has received a prefix of `x`, and while connected it expects the next byte. */
  predicate InOrder(r: Run, x: Bytes, irs: dword) {
    r.base <= r.Stream() &&
    var got := r.Stream()[|r.base|..];
    got <= x && (r.conn.connected ==> r.conn.recvSeq == Wrap32(irs + 1 + |got|))
  }

  lemma WrapUnique(a: nat, b: nat, irs: dword)
    requires a < TWO_32 && b < TWO_32 && Wrap32(irs + 1 + a) == Wrap32(irs + 1 + b)
    ensures a == b
  {
  }

  /** Storing the expected segment extends the prefix; anything else leaves it. */
  lemma DataInOrder(c: Conn, s: Segment, x: Bytes, irs: dword, k: nat)
    requires Honest(s, x, irs) && |x| < TWO_32 && k <= |x| && c.recvSeq == Wrap32(irs + 1 + k)
    ensures var d := OnData(c, s).conn;
            c.rx <= d.rx &&
            var n := |d.rx| - |c.rx|;
            k + n <= |x| && d.rx == c.rx + x[k..k + n] && (d.connected ==> d.recvSeq == Wrap32(irs + 1 + k + n))
  {
    if s.data != [] && s.seqno == c.recvSeq {
      var i :| IsPiece(s, x, irs, i);
      WrapUnique(i, k, irs);
      Wrap32Add(irs + 1 + k, |s.data|);
    }
  }

  /** While connected, a segment changes the ring and the expected number only as its data do. */
  lemma OpenArrival(r: Run, s: Segment)
    requires r.conn.connected
    ensures var d := OnData(Acked(r.conn, s), s).conn;
            var n := Do(r, Arrive(s));
            n == r.(conn := n.conn) && n.conn.rx == d.rx && (n.conn.connected ==> n.conn.recvSeq == d.recvSeq && d.connected)
  {
  }

  lemma Grow(base: Bytes, stream: Bytes, x: Bytes, piece: Bytes)
    requires base <= stream && stream[|base|..] <= x
    requires var k := |stream| - |base|; k + |piece| <= |x| && piece == x[k..k + |piece|]
    ensures base <= stream + piece && (stream + piece)[|base|..] <= x
  {
    assert (stream + piece)[|base|..] == stream[|base|..] + piece;
    assert x[..|stream| - |base|] + piece == x[..|stream| - |base| + |piece|];
  }

  lemma GrownInOrder(r: Run, n: Run, x: Bytes, irs: dword, piece: Bytes)
    requires InOrder(r, x, irs)
    requires n == r.(conn := n.conn) && n.conn.rx == r.conn.rx + piece
    requires var k := |r.Stream()| - |r.base|;
             k + |piece| <= |x| && piece == x[k..k + |piece|] &&
             (n.conn.connected ==> n.conn.recvSeq == Wrap32(irs + 1 + k + |piece|))
    ensures InOrder(n, x, irs)
  {
    assert n.Stream() == r.Stream() + piece;
    Grow(r.base, r.Stream(), x, piece);
  }

  lemma OpenArrivalGrows(r: Run, s: Segment, x: Bytes, irs: dword, k: nat) returns (piece: Bytes)
    requires r.conn.connected && Honest(s, x, irs) && |x| < TWO_32
    requires k <= |x| && r.conn.recvSeq == Wrap32(irs + 1 + k)
    ensures var n := Do(r, Arrive(s));
            n == r.(conn := n.conn) && n.conn.rx == r.conn.rx + piece &&
            k + |piece| <= |x| && piece == x[k..k + |piece|] &&
            (n.conn.connected ==> n.conn.recvSeq == Wrap32(irs + 1 + k + |piece|))
  {
    DataInOrder(Acked(r.conn, s), s, x, irs, k);
    OpenArrival(r, s);
    piece := x[k..k + |OnData(Acked(r.conn, s), s).conn.rx| - |r.conn.rx|];
  }

  lemma OpenArrivesInOrder(r: Run, s: Segment, x: Bytes, irs: dword)
    requires InOrder(r, x, irs) && Honest(s, x, irs) && |x| < TWO_32 && r.conn.connected
    ensures InOrder(Do(r, Arrive(s)), x, irs)
  {
    hide Do, Honest;
    var piece := OpenArrivalGrows(r, s, x, irs, |r.Stream()| - |r.base|);
    GrownInOrder(r, Do(r, Arrive(s)), x, irs, piece);
  }

  lemma ClosedArrivesInOrder(r: Run, s: Segment, x: Bytes, irs: dword)
    requires InOrder(r, x, irs) && Honest(s, x, irs) && !r.conn.connected
    ensures InOrder(Do(r, Arrive(s)), x, irs)
  {
    var n := Do(r, Arrive(s));
    assert n.Stream() == r.Stream();
    if IsAccept(r.conn, s) {
      assert n.Stream()[|n.base|..] == [];
    }
  }

  lemma DoInOrder(r: Run, a: Act, x: Bytes, irs: dword)
    requires InOrder(r, x, irs) && |x| < TWO_32 && (a.Arrive? ==> Honest(a.segment, x, irs))
    ensures InOrder(Do(r, a), x, irs)
  {
    if a.Arrive? {
      if r.conn.connected {
        OpenArrivesInOrder(r, a.segment, x, irs);
      } else {
        ClosedArrivesInOrder(r, a.segment, x, irs);
      }
    } else {
      assert Do(r, a).Stream() == r.Stream();
    }
  }

  // ------------------------------------------------------ what a segment does

  /** A bare acknowledgement of this connection. */
  function BareAck(d: Conn, ack: dword): Segment {
    Segment(d.flow.localPort, d.flow.peerPort, d.sendSeq, ack, ACK, [])
  }

  /** How many bytes of the peer's stream have come in since the connection opened. */
  function Got(r: Run): nat
    requires r.base <= r.Stream()
  {
    |r.Stream()| - |r.base|
  }

  /** The sequence number of byte `i` of the peer's stream. */
  function NumberOf(irs: dword, i: nat): dword {
    Wrap32(irs + 1 + i)
  }

  predicate Expected(r: Run, s: Segment, irs: dword)
    requires r.base <= r.Stream()
  {
    s.seqno == NumberOf(irs, Got(r))
  }

  /** The next bytes arrive while the reader holds the lock or the ring has no room for them. */
  predicate Refuses(r: Run, s: Segment, irs: dword)
    requires r.base <= r.Stream()
  {
    s.data != [] && Expected(r, s, irs) && (r.conn.locked || |r.conn.rx| + |s.data| > RING)
  }

  /** What the stream holds after a segment that was not refused: the next bytes are taken, all others dropped. */
  function Taken(r: Run, s: Segment, irs: dword): Bytes
    requires r.base <= r.Stream()
  {
    if Expected(r, s, irs) then r.Stream() + s.data else r.Stream()
  }

  /** The acknowledgements a segment gets when `k` bytes are there behind it: one for its data, and one for
      its FIN, which counts as a byte when it comes in order. */
  function Acknowledgements(d: Conn, s: Segment, irs: dword, k: nat): seq<Segment> {
    (if s.data == [] then [] else [BareAck(d, NumberOf(irs, k))]) +
    (if !Has(s.flags, FIN) then []
     else [BareAck(d, NumberOf(irs, if Wrap32(s.seqno + |s.data|) == NumberOf(irs, k) then k + 1 else k))])
  }

  /** A refused segment fails the stream; any other is taken and acknowledged, and FIN and RST close it. */
  predicate Serves(r: Run, s: Segment, irs: dword)
    requires r.base <= r.Stream()
  {
    var n := Do(r, Arrive(s));
    if Refuses(r, s, irs) then
      n.conn.failed && !n.conn.connected && n.Stream() == r.Stream() && Out(r.conn, Arrive(s)) == []
    else
      && n.base == r.base && n.Stream() == Taken(r, s, irs) && n.conn.failed == r.conn.failed
      && n.conn.connected == !(Has(s.flags, FIN) || Has(s.flags, RST))
      && n.conn.closed == (r.conn.closed || Has(s.flags, FIN) || Has(s.flags, RST))
      && Out(r.conn, Arrive(s)) == Acknowledgements(r.conn, s, irs, |n.Stream()| - |n.base|)
  }

  lemma ServesInOrder(r: Run, s: Segment, x: Bytes, irs: dword)
    requires InOrder(r, x, irs) && r.conn.connected && r.conn.flow.peerIp != 0 && r.conn.flow.peerPort != 0
    ensures r.base <= r.Stream() && Serves(r, s, irs)
  {
    hide Do, Out, OnEstablished, NumberOf, Has, InOrder, Serves, Wrap32;
    ExpectsNext(r, x, irs);
    ArrivesOpen(r, s);
    EstablishedServed(Acked(r.conn, s), s);
    if Refuses(r, s, irs) {
      RefusedServed(r, s, irs, OnEstablished(Acked(r.conn, s), s));
    } else {
      TakenServed(r, s, irs, OnEstablished(Acked(r.conn, s), s));
    }
  }

  lemma RefusedServed(r: Run, s: Segment, irs: dword, e: Reaction)
    requires r.base <= r.Stream() && Refuses(r, s, irs)
    requires Do(r, Arrive(s)) == r.(conn := e.conn) && Out(r.conn, Arrive(s)) == e.replies
    requires e.conn == Failed(Acked(r.conn, s)) && e.replies == []
    ensures Serves(r, s, irs)
  {
    hide Do, Out, NumberOf;
  }

  lemma TakenServed(r: Run, s: Segment, irs: dword, e: Reaction)
    requires r.base <= r.Stream() && !Refuses(r, s, irs) && r.conn.recvSeq == NumberOf(irs, Got(r))
    requires Do(r, Arrive(s)) == r.(conn := e.conn) && Out(r.conn, Arrive(s)) == e.replies
    requires Answered(Acked(r.conn, s), s, e)
    ensures Serves(r, s, irs)
  {
    hide Do, Out, NumberOf, Has, Acknowledgements;
    var k := Got(r);
    AnsweredAcks(Acked(r.conn, s), s, e, irs, k);
    SameAcks(Acked(r.conn, s), r.conn, s, irs, |Taken(r, s, irs)| - |r.base|);
    assert r.delivered + (r.conn.rx + s.data) == r.Stream() + s.data;
    assert Do(r, Arrive(s)).Stream() == Taken(r, s, irs);
  }

  lemma SameAcks(c: Conn, d: Conn, s: Segment, irs: dword, k: nat)
    requires c.flow == d.flow && c.sendSeq == d.sendSeq
    ensures Acknowledgements(c, s, irs, k) == Acknowledgements(d, s, irs, k)
  {
    hide Has, NumberOf, Wrap32;
  }

  lemma AnsweredAcks(c: Conn, s: Segment, o: Reaction, irs: dword, k: nat)
    requires Answered(c, s, o) && c.recvSeq == NumberOf(irs, k)
    ensures o.replies == Acknowledgements(c, s, irs, if s.seqno == NumberOf(irs, k) then k + |s.data| else k)
  {
    hide Has, NumberOf;
    NumberMore(irs, k, |s.data|);
    NumberMore(irs, k, 1);
    NumberMore(irs, k + |s.data|, 1);
  }

  lemma ExpectsNext(r: Run, x: Bytes, irs: dword)
    requires InOrder(r, x, irs) && r.conn.connected
    ensures r.base <= r.Stream() && r.conn.recvSeq == NumberOf(irs, Got(r))
  {
  }

  lemma NumberMore(irs: dword, k: nat, n: nat)
    ensures Wrap32(NumberOf(irs, k) + n) == NumberOf(irs, k + n)
  {
    Wrap32Add(irs + 1 + k, n);
  }

  lemma ArrivesOpen(r: Run, s: Segment)
    requires r.conn.connected
    ensures var e := OnEstablished(Acked(r.conn, s), s);
      Do(r, Arrive(s)) == r.(conn := e.conn) && Out(r.conn, Arrive(s)) == e.replies
  {
    hide OnEstablished;
  }

  /** The reaction of an open connection that does not refuse the segment. */
  predicate Answered(c: Conn, s: Segment, o: Reaction) {
    var next := s.seqno == c.recvSeq;
    var ack := if next then Wrap32(c.recvSeq + |s.data|) else c.recvSeq;
    var fin := if Wrap32(s.seqno + |s.data|) == ack then Wrap32(ack + 1) else ack;
    && o.conn.rx == (if next then c.rx + s.data else c.rx) && o.conn.failed == c.failed
    && o.conn.connected == !(Has(s.flags, FIN) || Has(s.flags, RST))
    && o.conn.closed == (c.closed || Has(s.flags, FIN) || Has(s.flags, RST))
    && o.replies == (if s.data == [] then [] else [BareAck(c, ack)]) + (if Has(s.flags, FIN) then [BareAck(c, fin)] else [])
  }

  lemma EstablishedServed(c: Conn, s: Segment)
    requires c.connected && c.flow.peerIp != 0 && c.flow.peerPort != 0
    ensures var o := OnEstablished(c, s);
      if s.data != [] && s.seqno == c.recvSeq && (c.locked || |c.rx| + |s.data| > RING)
      then o.conn == Failed(c) && o.replies == [] else Answered(c, s, o)
  {
    hide Has, OnData, OnFin, Answered, Wrap32;
    DataServed(c, s);
    if OnData(c, s).ok {
      FinServed(OnData(c, s).conn, s);
      BothServed(c, s, OnData(c, s), OnFin(OnData(c, s).conn, s), OnEstablished(c, s));
    }
  }

  lemma BothServed(c: Conn, s: Segment, d: Reaction, f: Reaction, o: Reaction)
    requires var next := s.seqno == c.recvSeq;
      d.conn == c.(rx := if next then c.rx + s.data else c.rx,
                   recvSeq := if next then Wrap32(c.recvSeq + |s.data|) else c.recvSeq)
      && d.replies == if s.data == [] then [] else [BareAck(c, d.conn.recvSeq)]
    requires if !Has(s.flags, FIN) then f == Reaction(d.conn, [], true)
      else
        var ack := if Wrap32(s.seqno + |s.data|) == d.conn.recvSeq then Wrap32(d.conn.recvSeq + 1) else d.conn.recvSeq;
        f.conn == d.conn.(recvSeq := ack, closed := true, connected := false) && f.replies == [BareAck(d.conn, ack)]
    requires c.connected && o.replies == d.replies + f.replies
    requires o.conn == if Has(s.flags, RST) then f.conn.(closed := true, connected := false) else f.conn
    ensures Answered(c, s, o)
  {
    hide Has, Wrap32;
  }

  lemma DataServed(c: Conn, s: Segment)
    requires c.connected && c.flow.peerIp != 0 && c.flow.peerPort != 0
    ensures var d := OnData(c, s);
      if s.data != [] && s.seqno == c.recvSeq && (c.locked || |c.rx| + |s.data| > RING)
      then !d.ok && d.replies == [] && d.conn == Failed(c)
      else
        var next := s.seqno == c.recvSeq;
        && d.ok && d.conn == c.(rx := if next then c.rx + s.data else c.rx,
                                recvSeq := if next then Wrap32(c.recvSeq + |s.data|) else c.recvSeq)
        && d.replies == if s.data == [] then [] else [BareAck(c, d.conn.recvSeq)]
  {
  }

  lemma FinServed(c: Conn, s: Segment)
    requires c.connected && c.flow.peerIp != 0 && c.flow.peerPort != 0
    ensures var f := OnFin(c, s);
      if !Has(s.flags, FIN) then f == Reaction(c, [], true)
      else
        var ack := if Wrap32(s.seqno + |s.data|) == c.recvSeq then Wrap32(c.recvSeq + 1) else c.recvSeq;
        f.conn == c.(recvSeq := ack, closed := true, connected := false) && f.replies == [BareAck(c, ack)]
  {
    hide Has;
  }

  /**
   In every run of honest segments: the next bytes are stored, unless the reader is in
   the ring or it is full, and what goes back acknowledges, for data and for FIN, exactly
   the bytes that the stream then holds.
   */
  lemma EverySegmentServed(c: Conn, acts: seq<Act>, s: Segment, x: Bytes, irs: dword)
    requires !c.connected && c.rx == [] && |x| < TWO_32 && AllHonest(acts, x, irs)
    requires var r := Exec(Run(c, [], []), acts); r.conn.connected && r.conn.flow.peerIp != 0 && r.conn.flow.peerPort != 0
    ensures var r := Exec(Run(c, [], []), acts); r.base <= r.Stream() && Serves(r, s, irs)
  {
    hide Exec, Serves;
    InOrderDelivery(c, acts, x, irs);
    ServesInOrder(Exec(Run(c, [], []), acts), s, x, irs);
  }

  /** A connection that is not open answers the SYN-ACK that acknowledges its SYN, and nothing else. */
  lemma OnlySynAckAnswered(c: Conn, s: Segment)
    requires !c.connected && c.flow.peerIp != 0 && c.flow.peerPort != 0
    ensures var d := OnSegment(c, s).conn;
      if Has(s.flags, SYN) && Has(s.flags, ACK) && s.ack == c.sendSeq
      then d == Acked(c, s).(connected := true, recvSeq := Wrap32(s.seqno + 1))
           && Out(c, Arrive(s)) == [BareAck(c, Wrap32(s.seqno + 1))]
      else !d.connected && d.rx == c.rx && d.failed == (c.failed || Has(s.flags, RST)) && Out(c, Arrive(s)) == []
  {
    hide Has;
  }

  /** A frame built for any stream is heard by this one exactly when it is addressed to it and comes from its peer. */
  lemma FrameHeardIff(configured: bool, mac: Mac, flow: Flow, to: Mac, from: Mac, id: word, src: dword, dst: dword, s: Segment)
    requires |s.data| <= 1360
    ensures Received(configured, mac, flow, TcpFrame(to, from, id, src, dst, s)) ==
      if configured && (to == mac || to[0] % 2 == 1) && src == flow.peerIp && dst == flow.localIp
         && s.srcPort == flow.peerPort && s.dstPort == flow.localPort then Some(s) else None
  {
    hide Frame, Parse, TcpBytes, ParseTcp;
    TcpVerifies(src, dst, s);
    FrameParses(to, from, id, Packet(src, dst, TCP, TcpBytes(src, dst, s)));
  }

  const SYN_ACK: byte := 0x12

  /** The SYN-ACK with which a peer that chose `irs` answers the segment `syn`. */
  function Answer(syn: Segment, irs: dword): Segment {
    Segment(syn.dstPort, syn.srcPort, irs, Wrap32(syn.seqno + 1), SYN_ACK, [])
  }

  /** The SYN that Connect sends, answered by the peer in a frame, opens the connection, which acknowledges it. */
  lemma SynAnswered(c: Conn, ip: dword, port: word, mac: Mac, from: Mac, id: word, irs: dword)
    requires c.configured && ip != 0 && port != 0
    ensures var d, answer := Dialled(c, ip, port), Answer(Segment(c.flow.localPort, port, c.sendSeq, 0, SYN, []), irs);
      && Heard(d.configured, mac, d.flow, [TcpFrame(mac, from, id, ip, d.flow.localIp, answer)]) == [answer]
      && var o := Reached(d, [Arrive(answer)]);
         && o.connected && !o.failed && !o.closed && o.recvSeq == Wrap32(irs + 1) && o.peerAck == o.sendSeq
         && Wire(d, [Arrive(answer)]) == [Segment(c.flow.localPort, port, Wrap32(c.sendSeq + 1), Wrap32(irs + 1), ACK, [])]
  {
    hide Received, TcpFrame, Exec;
    var d, answer := Dialled(c, ip, port), Answer(Segment(c.flow.localPort, port, c.sendSeq, 0, SYN, []), irs);
    var f := TcpFrame(mac, from, id, ip, d.flow.localIp, answer);
    FrameHeardIff(d.configured, mac, d.flow, mac, from, id, ip, d.flow.localIp, answer);
    var frames, acts: seq<Act> := [f], [Arrive(answer)];
    assert frames[..0] == [] && acts[..0] == [];
    ReachedOne(d, Arrive(answer));
    NothingReached(d);
    OnlySynAckAnswered(d, answer);
  }

  // ----------------------------------------------------- nothing gets lost

  /** The peer's next segments, each taken by the reader before the next one comes. */
  function Transfer(pieces: seq<Bytes>, flow: Flow, irs: dword, from: nat): seq<Act> {
    if pieces == [] then []
    else
      var n := |pieces| - 1;
      var s := Segment(flow.peerPort, flow.localPort, NumberOf(irs, from + |Joined(pieces[..n])|), 0, ACK, pieces[n]);
      Transfer(pieces[..n], flow, irs, from) + [Arrive(s)] + [Lock] + [Take(RING)]
  }

  function Joined(pieces: seq<Bytes>): Bytes {
    if pieces == [] then [] else Joined(pieces[..|pieces| - 1]) + pieces[|pieces| - 1]
  }

  /** An open stream whose bytes have all been read, and which expects byte `k` of the peer. */
  predicate Drained(r: Run, irs: dword, k: nat) {
    r.conn.connected && !r.conn.locked && r.conn.rx == [] && r.conn.recvSeq == NumberOf(irs, k)
  }

  /** A stream that comes in order, in pieces that fit the ring, reaches the reader whole, and stays open. */
  lemma {:induction false} AllArrives(r: Run, pieces: seq<Bytes>, irs: dword, k: nat)
    requires Drained(r, irs, k) && forall i :: 0 <= i < |pieces| ==> 0 < |pieces[i]| <= RING
    ensures Arrived(r, pieces, irs, k)
  {
    hide Do, Exec, Drained, NumberOf, Arrived;
    if pieces == [] {
      NothingArrived(r, irs, k);
    } else {
      var n := |pieces| - 1;
      AllArrives(r, pieces[..n], irs, k);
      OneMoreArrives(r, pieces[..n], pieces[n], irs, k);
      assert pieces[..n] + [pieces[n]] == pieces;
    }
  }

  /** Read in order, the pieces are all there, and the stream is open. */
  predicate Arrived(r: Run, pieces: seq<Bytes>, irs: dword, k: nat) {
    var e := Exec(r, Transfer(pieces, r.conn.flow, irs, k));
    Drained(e, irs, k + |Joined(pieces)|) && e.delivered == r.delivered + Joined(pieces) && e.conn.flow == r.conn.flow
  }

  lemma NothingArrived(r: Run, irs: dword, k: nat)
    requires Drained(r, irs, k)
    ensures Arrived(r, [], irs, k)
  {
    NothingDone(r);
  }

  lemma OneMoreArrives(r: Run, pieces: seq<Bytes>, p: Bytes, irs: dword, k: nat)
    requires Arrived(r, pieces, irs, k) && 0 < |p| <= RING
    ensures Arrived(r, pieces + [p], irs, k)
  {
    hide Do, Exec, Drained, NumberOf;
    var all, flow := pieces + [p], r.conn.flow;
    var so := Joined(pieces);
    var s := Segment(flow.peerPort, flow.localPort, NumberOf(irs, k + |so|), 0, ACK, p);
    assert all[..|pieces|] == pieces;
    ThreeMore(r, Transfer(pieces, flow, irs, k), Arrive(s), Lock, Take(RING));
    PieceArrives(Exec(r, Transfer(pieces, flow, irs, k)), s, irs, k + |so|);
    assert (r.delivered + so) + p == r.delivered + (so + p);
  }

  lemma ThreeMore(r: Run, acts: seq<Act>, a: Act, b: Act, d: Act)
    ensures Exec(r, acts + [a] + [b] + [d]) == Do(Do(Do(Exec(r, acts), a), b), d)
  {
    hide Do;
    assert acts + [a] + [b] + [d] == ((acts + [a]) + [b]) + [d];
    ExecSnoc(r, acts, a);
    ExecSnoc(r, acts + [a], b);
    ExecSnoc(r, (acts + [a]) + [b], d);
  }

  lemma ExecSnoc(r: Run, acts: seq<Act>, a: Act)
    ensures Exec(r, acts + [a]) == Do(Exec(r, acts), a)
  {
    hide Do;
    assert (acts + [a])[..|acts|] == acts;
  }

  lemma PieceArrives(e: Run, s: Segment, irs: dword, k: nat)
    requires Drained(e, irs, k) && 0 < |s.data| <= RING && s.flags == ACK && s.seqno == NumberOf(irs, k)
    ensures var n := Do(Do(Do(e, Arrive(s)), Lock), Take(RING));
      Drained(n, irs, k + |s.data|) && n.delivered == e.delivered + s.data && n.conn.flow == e.conn.flow
  {
    hide EmitAck;
    var c := Acked(e.conn, s);
    Wrap32Add(irs + 1 + k, |s.data|);
    assert c.rx + s.data == s.data && s.data[..|s.data|] == s.data;
    assert OnData(c, s).ok && OnData(c, s).conn == c.(rx := s.data, recvSeq := NumberOf(irs, k + |s.data|));
  }

  /** In every run of both threads, over any loss, repetition and reordering of the peer's segments, failed
      pushes included, the bytes received since the connection opened are a prefix of the peer's stream. */
  lemma {:induction false} InOrderDelivery(c: Conn, acts: seq<Act>, x: Bytes, irs: dword)
    requires !c.connected && c.rx == [] && |x| < TWO_32 && AllHonest(acts, x, irs)
    ensures InOrder(Exec(Run(c, [], []), acts), x, irs)
  {
    if acts != [] {
      InOrderDelivery(c, acts[..|acts| - 1], x, irs);
      DoInOrder(Exec(Run(c, [], []), acts[..|acts| - 1]), acts[|acts| - 1], x, irs);
    }
  }

  /** The connection opens although the stream already holds bytes: event `k` is a SYN-ACK that is accepted too late. */
  predicate ReopensAt(c: Conn, acts: seq<Act>, k: nat) {
    k < |acts| && acts[k].Arrive? &&
    var r := Exec(Run(c, [], []), acts[..k]);
    IsAccept(r.conn, acts[k].segment) && r.Stream() != []
  }

  lemma StreamGrows(r: Run, a: Act)
    ensures r.Stream() <= Do(r, a).Stream()
  {
    if a.Arrive? {
      HandlerEvolves(r.conn, a.segment);
      assert r.delivered + r.conn.rx <= r.delivered + OnSegment(r.conn, a.segment).conn.rx;
    }
  }

  lemma {:induction false} StreamGrowsOver(r: Run, acts: seq<Act>)
    ensures r.Stream() <= Exec(r, acts).Stream()
  {
    hide Do;
    if acts != [] {
      StreamGrowsOver(r, acts[..|acts| - 1]);
      StreamGrows(Exec(r, acts[..|acts| - 1]), acts[|acts| - 1]);
    }
  }

  lemma BaseStep(r: Run, a: Act)
    requires r.base <= r.Stream()
    ensures Do(r, a).base <= Do(r, a).Stream()
    ensures Do(r, a).base == [] <==> r.base == [] && !(a.Arrive? && IsAccept(r.conn, a.segment) && r.Stream() != [])
  {
    StreamGrows(r, a);
  }

  /** The caller has seen nothing from before the connection last opened exactly when it never reopened over bytes. */
  lemma {:induction false} NothingBeforeIff(c: Conn, acts: seq<Act>)
    ensures var r := Exec(Run(c, [], []), acts); r.base <= r.Stream()
    ensures Exec(Run(c, [], []), acts).base == [] <==> forall k: nat :: !ReopensAt(c, acts, k)
  {
    hide Do, IsAccept;
    if acts != [] {
      var n := |acts| - 1;
      var before := acts[..n];
      var r := Exec(Run(c, [], []), before);
      NothingBeforeIff(c, before);
      BaseStep(r, acts[n]);
      forall k: nat ensures ReopensAt(c, acts, k) <==> ReopensAt(c, before, k) || (k == n && ReopensAt(c, acts, n)) {
        if k < n {
          assert before[..k] == acts[..k];
        }
      }
      assert ReopensAt(c, acts, n) <==> acts[n].Arrive? && IsAccept(r.conn, acts[n].segment) && r.Stream() != [];
    }
  }

  /** Then what the caller sees is a prefix of the peer's stream and nothing else. */
  lemma PrefixUnlessReopened(c: Conn, acts: seq<Act>, x: Bytes, irs: dword)
    requires !c.connected && c.rx == [] && |x| < TWO_32 && AllHonest(acts, x, irs)
    requires forall k: nat :: !ReopensAt(c, acts, k)
    ensures Exec(Run(c, [], []), acts).Stream() <= x
  {
    hide Exec, ReopensAt;
    var r := Exec(Run(c, [], []), acts);
    InOrderDelivery(c, acts, x, irs);
    NothingBeforeIff(c, acts);
    assert r.Stream()[0..] == r.Stream();
  }

  /** How many bytes Write has moved the send sequence number over. */
  function Written(acts: seq<Act>): nat {
    if acts == [] then 0
    else Written(acts[..|acts| - 1]) + if acts[|acts| - 1].Advance? then acts[|acts| - 1].n else 0
  }

  // ------------------------------------------------------- what Write puts out

  /** The bytes that Write has handed to SendTcp. */
  function Payload(acts: seq<Act>): Bytes {
    if acts == [] then []
    else Payload(acts[..|acts| - 1]) + if acts[|acts| - 1].Send? then acts[|acts| - 1].data else []
  }

  /** The segments that these calls put on the wire. */
  function Chunks(c: Conn, acts: seq<Act>): seq<Segment> {
    if acts == [] then []
    else
      var n := |acts| - 1;
      Chunks(c, acts[..n]) + ChunkOf(Reached(c, acts[..n]), acts[n])
  }

  function ChunkOf(d: Conn, a: Act): seq<Segment> {
    if a.Send? then Emit(d, PSH_ACK, a.data, d.sendSeq) else []
  }

  /** After `before`, Write may send `p`: the next bytes of the data, all earlier ones counted, and, behind the
      first chunk, the code's comparison of acknowledged and sent passed, or the stream had failed (not in this call). */
  predicate MaySend(c: Conn, data: Bytes, before: seq<Act>, p: Bytes) {
    && 0 < |p| <= CHUNK && Payload(before) + p <= data && Written(before) == |Payload(before)| && Break !in before
    && (Written(before) > 0 ==> var d := Reached(c, before); d.failed || d.peerAck >= d.sendSeq)
  }

  predicate StopAndWait(c: Conn, data: Bytes, acts: seq<Act>) {
    forall k {:trigger acts[..k]} :: 0 <= k < |acts| && acts[k].Send? ==> MaySend(c, data, acts[..k], acts[k].data)
  }

  lemma NothingWritten(c: Conn, mac: Mac, data: Bytes)
    ensures Reached(c, []) == c && OnWrite([]) && StopAndWait(c, data, []) && Caught(c, mac, [], [])
    ensures Written([]) == 0 && Payload([]) == [] && Chunks(c, []) == []
  {
  }

  /** One step of Write. */
  lemma StopAndWaitStep(c: Conn, data: Bytes, acts: seq<Act>, a: Act)
    requires StopAndWait(c, data, acts) && (a.Send? ==> MaySend(c, data, acts, a.data))
    ensures StopAndWait(c, data, acts + [a])
    ensures Written(acts + [a]) == Written(acts) + if a.Advance? then a.n else 0
    ensures Payload(acts + [a]) == Payload(acts) + if a.Send? then a.data else []
    ensures Chunks(c, acts + [a]) == Chunks(c, acts) + ChunkOf(Reached(c, acts), a)
  {
    hide MaySend, Reached, ChunkOf;
    assert (acts + [a])[..|acts|] == acts;
    forall k | 0 <= k < |acts| ensures (acts + [a])[..k] == acts[..k] && (acts + [a])[k] == acts[k] {
    }
  }

  lemma StepInWrite(c: Conn, mac: Mac, env: seq<Tick>, data: Bytes, acts: seq<Act>, a: Act)
    requires OnWrite(acts) && StopAndWait(c, data, acts) && Caught(c, mac, env, acts)
    requires a.Send? || a.Advance? || a.Break?
    requires a.Send? ==> MaySend(c, data, acts, a.data)
    ensures OnWrite(acts + [a]) && StopAndWait(c, data, acts + [a]) && Caught(c, mac, env, acts + [a])
    ensures Reached(c, acts + [a]) == Do(Run(Reached(c, acts), [], []), a).conn
    ensures Written(acts + [a]) == Written(acts) + if a.Advance? then a.n else 0
    ensures Payload(acts + [a]) == Payload(acts) + if a.Send? then a.data else []
    ensures Chunks(c, acts + [a]) == Chunks(c, acts) + ChunkOf(Reached(c, acts), a)
  {
    hide MaySend, Reached, StopAndWait, Written, Payload, Chunks;
    StopAndWaitStep(c, data, acts, a);
    ReachedSnoc(c, acts, a);
    OneArrival(acts, a);
  }

  /** Segments that arrive change none of it. */
  lemma {:induction false} ListenedSame(c: Conn, data: Bytes, acts: seq<Act>, more: seq<Act>)
    requires StopAndWait(c, data, acts) && Listening(more)
    ensures StopAndWait(c, data, acts + more)
    ensures Written(acts + more) == Written(acts) && Payload(acts + more) == Payload(acts)
    ensures Chunks(c, acts + more) == Chunks(c, acts)
    decreases |more|
  {
    hide StopAndWait, Reached, Written, Payload, Chunks;
    if more == [] {
      assert acts + more == acts;
    } else {
      var n := |more| - 1;
      assert more[n] in more && acts + more == (acts + more[..n]) + [more[n]];
      ListenedSame(c, data, acts, more[..n]);
      StopAndWaitStep(c, data, acts + more[..n], more[n]);
    }
  }

  lemma ListenedInWrite(c: Conn, mac: Mac, env: seq<Tick>, from: nat, k: nat, data: Bytes, acts: seq<Act>, more: seq<Act>)
    requires from <= k <= |env| && OnWrite(acts) && StopAndWait(c, data, acts) && Listening(more)
    requires Caught(c, mac, env[..from], acts) && Caught(Reached(c, acts), mac, env[from..k], more)
    ensures OnWrite(acts + more) && StopAndWait(c, data, acts + more) && Caught(c, mac, env[..k], acts + more)
    ensures Reached(c, acts + more) == Reached(Reached(c, acts), more)
    ensures Evolves(Reached(c, acts), Reached(c, acts + more))
    ensures Written(acts + more) == Written(acts) && Payload(acts + more) == Payload(acts)
    ensures Chunks(c, acts + more) == Chunks(c, acts)
  {
    hide StopAndWait, Reached, Written, Payload, Chunks;
    ListenedSame(c, data, acts, more);
    WriteKeeps(c, acts);
    ReachedConcat(c, acts, more);
    ListeningEvolves(Reached(c, acts), more);
    CaughtMore(c, mac, env[..from], acts, env[from..k], more);
    assert env[..from] + env[from..k] == env[..k];
  }

  /** The segments with data that a call of Write puts on the wire are its chunks. */
  lemma {:induction false} ChunksOnWire(c: Conn, acts: seq<Act>)
    requires OnWrite(acts) && forall a :: a in acts && a.Send? ==> a.data != []
    ensures WithData(Wire(c, acts)) == Chunks(c, acts)
  {
    hide Reached;
    if acts != [] {
      var n := |acts| - 1;
      var d := Reached(c, acts[..n]);
      ChunksOnWire(c, acts[..n]);
      WithDataAppend(Wire(c, acts[..n]), Out(d, acts[n]));
      assert acts[n] in acts;
      OutWithData(d, acts[n]);
    }
  }

  lemma OutWithData(d: Conn, a: Act)
    requires a.Arrive? || a.Advance? || a.Break? || (a.Send? && a.data != [])
    ensures WithData(Out(d, a)) == ChunkOf(d, a)
  {
    hide OnSegment;
    if a.Arrive? {
      HandlerEvolves(d, a.segment);
    } else if Out(d, a) != [] {
      assert Out(d, a)[..0] == [];
    }
  }

  lemma NextChunk(data: Bytes, done: nat, n: nat)
    requires done + n <= |data|
    ensures data[..done] + data[done..done + n] == data[..done + n] <= data
  {
  }

  lemma {:induction false} WriteChunks(c: Conn, data: Bytes, acts: seq<Act>)
    requires OnWrite(acts) && StopAndWait(c, data, acts) && c.flow.peerIp != 0 && c.flow.peerPort != 0
    ensures Carried(Chunks(c, acts)) == Payload(acts) <= data
    ensures Consecutive(Chunks(c, acts), c.sendSeq)
  {
    hide Reached, Written, StopAndWait, MaySend, Consecutive, Carried, Emit, Chunks, Payload;
    NothingChunked(c);
    if acts == [] {
      NothingOnWire(c.sendSeq);
    } else {
      var n := |acts| - 1;
      StopAndWaitBefore(c, data, acts, n);
      WriteChunks(c, data, acts[..n]);
      WriteKeeps(c, acts[..n]);
      ChunkStep(c, acts);
      if acts[n].Send? {
        MaySendMeans(c, data, acts[..n], acts[n].data);
        ChunkOnWire(Chunks(c, acts[..n]), Reached(c, acts[..n]), acts[n].data, c.sendSeq);
      }
    }
  }

  lemma NothingChunked(c: Conn)
    ensures Chunks(c, []) == [] && Payload([]) == []
  {
  }

  lemma ChunkStep(c: Conn, acts: seq<Act>)
    requires acts != []
    ensures var n := |acts| - 1;
            var chunks, payload := Chunks(c, acts[..n]), Payload(acts[..n]);
      if acts[n].Send?
      then Chunks(c, acts) == chunks + ChunkOf(Reached(c, acts[..n]), acts[n]) && Payload(acts) == payload + acts[n].data
      else Chunks(c, acts) == chunks && Payload(acts) == payload
  {
    hide Reached, Emit;
  }

  /** What a call of Write puts on the wire beside bare acknowledgements: chunks of the data's prefix, one behind the other. */
  lemma WriteOnWire(c: Conn, data: Bytes, acts: seq<Act>)
    requires OnWrite(acts) && StopAndWait(c, data, acts) && c.flow.peerIp != 0 && c.flow.peerPort != 0
    ensures var out := WithData(Wire(c, acts)); Carried(out) == Payload(acts) <= data && Consecutive(out, c.sendSeq)
  {
    hide Wire, Reached, Written, Payload, Consecutive, Carried, OnWrite, StopAndWait;
    WriteChunks(c, data, acts);
    forall a | a in acts && a.Send? ensures a.data != [] {
      var k :| 0 <= k < |acts| && acts[k] == a;
      StopAndWaitBefore(c, data, acts, k);
    }
    ChunksOnWire(c, acts);
  }

  lemma NothingOnWire(start: dword)
    ensures Carried([]) == [] && Consecutive([], start)
  {
  }

  lemma StopAndWaitBefore(c: Conn, data: Bytes, acts: seq<Act>, n: nat)
    requires n <= |acts| && StopAndWait(c, data, acts)
    ensures StopAndWait(c, data, acts[..n])
    ensures n < |acts| && acts[n].Send? ==> MaySend(c, data, acts[..n], acts[n].data)
  {
    hide MaySend;
    assert n < |acts| ==> acts[..n] == acts[..n];
    forall k | 0 <= k < n ensures acts[..n][..k] == acts[..k] && acts[..n][k] == acts[k] {
    }
  }

  lemma MaySendMeans(c: Conn, data: Bytes, before: seq<Act>, p: Bytes)
    requires MaySend(c, data, before, p)
    ensures 0 < |p| <= CHUNK && Payload(before) + p <= data && Written(before) == |Payload(before)|
  {
  }

  lemma ChunkOnWire(out: seq<Segment>, d: Conn, p: Bytes, start: dword)
    requires 0 < |p| <= CHUNK && d.flow.peerIp != 0 && d.flow.peerPort != 0
    requires Consecutive(out, start) && d.sendSeq == Wrap32(start + |Carried(out)|)
    ensures var next := out + ChunkOf(d, Send(p)); Carried(next) == Carried(out) + p && Consecutive(next, start)
  {
    hide Wrap32;
    var s := Segment(d.flow.localPort, d.flow.peerPort, d.sendSeq, d.recvSeq, PSH_ACK, p);
    assert ChunkOf(d, Send(p)) == [s];
    OneCarried(out, s);
    assert (out + [s])[..|out|] == out;
  }

  // ------------------------------------------------ what Write's comparison means

  /** The bytes that a segment acknowledges of what was sent from `start` on. */
  function AckedBy(s: Segment, start: dword): dword {
    if Has(s.flags, ACK) then Wrap32(s.ack - start) else 0
  }

  function Max(a: nat, b: nat): nat {
    if a < b then b else a
  }

  /** The most that any segment of the run has acknowledged. */
  function AckedBytes(acts: seq<Act>, start: dword): nat {
    if acts == [] then 0
    else
      var a := acts[|acts| - 1];
      Max(AckedBytes(acts[..|acts| - 1], start), if a.Arrive? then AckedBy(a.segment, start) else 0)
  }

  /** How far the bytes reach that Write has handed to SendTcp, counted over or not. */
  function SentUpTo(acts: seq<Act>): nat {
    if acts == [] then 0
    else
      var before, a := acts[..|acts| - 1], acts[|acts| - 1];
      Max(SentUpTo(before), if a.Send? then Written(before) + |a.data| else 0)
  }

  /** Nobody dials again, no segment acknowledges bytes that have not been sent, and one without ACK (a bare RST)
      has number 0. */
  ghost predicate HonestAcks(acts: seq<Act>, start: dword) {
    forall k {:trigger acts[..k]} :: 0 <= k < |acts| ==>
      !acts[k].Dial? && (acts[k].Arrive? ==> HonestAck(acts[k].segment, SentUpTo(acts[..k]), start))
  }

  predicate HonestAck(s: Segment, sent: nat, start: dword) {
    if Has(s.flags, ACK) then AckedBy(s, start) <= sent else s.ack == 0
  }

  lemma AckStep(r: Run, a: Act)
    requires !a.Dial?
    ensures Do(r, a).conn.peerAck == if a.Arrive? then Max(r.conn.peerAck, a.segment.ack) else r.conn.peerAck
  {
    hide OnData, OnFin, EmitAck;
    if a.Arrive? {
      AckKept(Acked(r.conn, a.segment), a.segment);
    }
  }

  lemma AckKept(c: Conn, s: Segment)
    ensures OnData(c, s).conn.peerAck == c.peerAck
    ensures OnFin(OnData(c, s).conn, s).conn.peerAck == c.peerAck
  {
    hide EmitAck, Has;
  }

  /** An honest number acknowledges its bytes from `start` on, or has wrapped below `start`, or is 0. */
  lemma AckNumber(s: Segment, start: dword, sent: nat)
    requires HonestAck(s, sent, start) && sent < TWO_32
    ensures AckedBy(s, start) <= sent
    ensures s.ack == start + AckedBy(s, start) || (s.ack < start && start + sent >= TWO_32) || (s.ack == 0 == AckedBy(s, start))
  {
  }

  /** What one more act does to the three counts. */
  lemma CountStep(acts: seq<Act>, start: dword)
    requires acts != []
    ensures var before, a := acts[..|acts| - 1], acts[|acts| - 1];
      && SentUpTo(before) <= SentUpTo(acts) && (a.Arrive? ==> SentUpTo(acts) == SentUpTo(before))
      && AckedBytes(acts, start) == if a.Arrive? then Max(AckedBytes(before, start), AckedBy(a.segment, start))
                                    else AckedBytes(before, start)
  {
    hide AckedBy;
  }

  /** The highest acknowledgement number, and how many bytes have been acknowledged and sent. */
  predicate Tracks(peerAck: dword, acked: nat, sent: nat, start: dword) {
    && acked <= sent && start <= peerAck <= start + acked
    && (start + sent < TWO_32 ==> peerAck == start + acked)
  }

  lemma TrackArrival(peerAck: dword, acked: nat, sent: nat, s: Segment, start: dword)
    requires Tracks(peerAck, acked, sent, start) && HonestAck(s, sent, start) && sent < TWO_32
    ensures Tracks(Max(peerAck, s.ack), Max(acked, AckedBy(s, start)), sent, start)
  {
    hide AckedBy, HonestAck;
    AckNumber(s, start, sent);
  }

  /** The highest acknowledgement number never runs ahead of the bytes acknowledged, and keeps step with them
      until the numbers wrap. */
  lemma AcksTracked(c: Conn, acts: seq<Act>, start: dword)
    requires c.sendSeq == start && c.peerAck == start && HonestAcks(acts, start) && SentUpTo(acts) < TWO_32
    ensures var d := Reached(c, acts);
      && d.sendSeq == Wrap32(start + Written(acts)) && AckedBytes(acts, start) <= SentUpTo(acts)
      && start <= d.peerAck <= start + AckedBytes(acts, start)
      && (start + SentUpTo(acts) < TWO_32 ==> d.peerAck == start + AckedBytes(acts, start))
  {
    hide Reached, AckedBytes, SentUpTo, Written, HonestAcks;
    NumberFollows(c, acts, start);
    PeerTracked(c, acts, start);
  }

  lemma WrittenStep(acts: seq<Act>)
    requires acts != []
    ensures var a := acts[|acts| - 1]; Written(acts) == Written(acts[..|acts| - 1]) + (if a.Advance? then a.n else 0)
  {
  }

  lemma {:induction false} NumberFollows(c: Conn, acts: seq<Act>, start: dword)
    requires c.sendSeq == start && HonestAcks(acts, start)
    ensures Reached(c, acts).sendSeq == Wrap32(start + Written(acts))
  {
    hide Do, Reached, Written, HonestAck, HonestAcks, Wrap32;
    if acts == [] {
      NothingReached(c);
      NumberStarts(start);
    } else {
      var n := |acts| - 1;
      var before, a := acts[..n], acts[n];
      HonestBefore(acts, n, start);
      WrittenStep(acts);
      NumberFollows(c, before, start);
      ReachedLast(c, acts);
      var d := Reached(c, before);
      SeqStep(Run(d, [], []), a);
      if a.Advance? {
        NumberMoves(d.sendSeq, start, Written(before), a.n);
      } else {
        assert Reached(c, acts).sendSeq == d.sendSeq && Written(acts) == Written(before);
      }
    }
  }

  lemma NumberStarts(start: dword)
    ensures Wrap32(start + Written([])) == start
  {
  }

  lemma NumberMoves(number: dword, start: dword, done: nat, n: nat)
    requires number == Wrap32(start + done)
    ensures Wrap32(number + n) == Wrap32(start + (done + n))
  {
    Wrap32Add(start + done, n);
  }

  lemma {:induction false} PeerTracked(c: Conn, acts: seq<Act>, start: dword)
    requires c.peerAck == start && HonestAcks(acts, start) && SentUpTo(acts) < TWO_32
    ensures Tracks(Reached(c, acts).peerAck, AckedBytes(acts, start), SentUpTo(acts), start)
  {
    if acts == [] {
      NothingReached(c);
    } else {
      hide Do, Reached, AckedBy, AckedBytes, SentUpTo, Max, HonestAck, HonestAcks;
      var n := |acts| - 1;
      var before, a := acts[..n], acts[n];
      HonestBefore(acts, n, start);
      CountStep(acts, start);
      PeerTracked(c, before, start);
      var d := Reached(c, before);
      ReachedLast(c, acts);
      AckStep(Run(d, [], []), a);
      if a.Arrive? {
        TrackArrival(d.peerAck, AckedBytes(before, start), SentUpTo(before), a.segment, start);
      }
    }
  }

  lemma HonestBefore(acts: seq<Act>, n: nat, start: dword)
    requires n <= |acts| && HonestAcks(acts, start)
    ensures HonestAcks(acts[..n], start)
    ensures n < |acts| ==> !acts[n].Dial? && (acts[n].Arrive? ==> HonestAck(acts[n].segment, SentUpTo(acts[..n]), start))
  {
    hide SentUpTo, HonestAck;
    assert n < |acts| ==> acts[..n] == acts[..n];
    forall k | 0 <= k < n ensures acts[..n][..k] == acts[..k] && acts[..n][k] == acts[k] {
    }
  }

  /**
   What the comparison of Write means, over every run since a SYN-ACK opened the
   connection at `start`: when it passes, all bytes written are acknowledged or the
   sequence numbers have wrapped, since the code keeps the numerically highest
   acknowledgement. While no chunk is on its way it passes exactly then.
   */
  lemma GuardMeans(c: Conn, acts: seq<Act>, start: dword)
    requires c.sendSeq == start && c.peerAck == start && HonestAcks(acts, start)
    requires SentUpTo(acts) < TWO_32 && Written(acts) < TWO_32
    ensures var d := Reached(c, acts);
      d.peerAck >= d.sendSeq ==> AckedBytes(acts, start) >= Written(acts) || start + Written(acts) >= TWO_32
    ensures var d := Reached(c, acts); SentUpTo(acts) <= Written(acts) ==>
      (d.peerAck >= d.sendSeq <==> AckedBytes(acts, start) == Written(acts) || start + Written(acts) >= TWO_32)
  {
    hide Reached;
    AcksTracked(c, acts, start);
    WrapOnce(start + Written(acts));
  }

  lemma WrapOnce(n: nat)
    requires n < 2 * TWO_32
    ensures Wrap32(n) == if n < TWO_32 then n else n - TWO_32
  {
  }

  /** The acknowledgement of `done` bytes. */
  function AckOf(start: dword, done: nat): Segment {
    Segment(443, 50000, 1, Wrap32(start + done), ACK, [])
  }

  /** A full chunk goes out and is counted. */
  function FullChunk(): seq<Act> {
    [Send(seq(CHUNK, _ => 0))] + [Advance(CHUNK)]
  }

  /** `k` full chunks, each acknowledged before the next one. */
  function Exchange(start: dword, k: nat): seq<Act> {
    if k == 0 then [] else (Exchange(start, k - 1) + FullChunk()) + [Arrive(AckOf(start, CHUNK * k))]
  }

  lemma OneMoreAct(acts: seq<Act>, a: Act, start: dword)
    requires HonestAcks(acts, start) && !a.Dial? && (a.Arrive? ==> HonestAck(a.segment, SentUpTo(acts), start))
    ensures HonestAcks(acts + [a], start)
    ensures Written(acts + [a]) == Written(acts) + if a.Advance? then a.n else 0
    ensures SentUpTo(acts + [a]) == Max(SentUpTo(acts), if a.Send? then Written(acts) + |a.data| else 0)
    ensures AckedBytes(acts + [a], start) == Max(AckedBytes(acts, start), if a.Arrive? then AckedBy(a.segment, start) else 0)
  {
    hide AckedBy, Max, HonestAck;
    assert (acts + [a])[..|acts|] == acts;
    forall k | 0 <= k < |acts| ensures (acts + [a])[..k] == acts[..k] && (acts + [a])[k] == acts[k] {
    }
  }

  lemma OneMoreChunk(acts: seq<Act>, start: dword)
    requires HonestAcks(acts, start) && SentUpTo(acts) == Written(acts)
    ensures var next := acts + FullChunk();
      && HonestAcks(next, start) && SentUpTo(next) == Written(next) == Written(acts) + CHUNK
      && AckedBytes(next, start) == AckedBytes(acts, start)
  {
    hide HonestAcks, Written, SentUpTo, AckedBytes;
    var out := Send(seq(CHUNK, _ => 0));
    assert acts + FullChunk() == (acts + [out]) + [Advance(CHUNK)];
    OneMoreAct(acts, out, start);
    OneMoreAct(acts + [out], Advance(CHUNK), start);
  }

  lemma AckOfBytes(start: dword, done: nat)
    requires done < TWO_32
    ensures AckedBy(AckOf(start, done), start) == done && HonestAck(AckOf(start, done), done, start)
  {
    var first: int := start;
    Wrap32Add(start + done, 0 - first);
  }

  lemma {:induction false} ExchangeAcked(start: dword, k: nat)
    requires CHUNK * k < TWO_32
    ensures var acts := Exchange(start, k);
      HonestAcks(acts, start) && SentUpTo(acts) == Written(acts) == CHUNK * k == AckedBytes(acts, start)
  {
    hide HonestAcks, HonestAck, AckedBy, AckOf, Written, SentUpTo, AckedBytes, FullChunk;
    if k == 0 {
      NothingAcked(start);
    } else {
      ExchangeAcked(start, k - 1);
      var acts := Exchange(start, k - 1);
      AckOfBytes(start, CHUNK * k);
      OneMoreChunk(acts, start);
      OneMoreAct(acts + FullChunk(), Arrive(AckOf(start, CHUNK * k)), start);
    }
  }

  lemma NothingAcked(start: dword)
    ensures HonestAcks([], start) && SentUpTo([]) == Written([]) == 0 == AckedBytes([], start)
  {
  }

  /** The chunks that fit before the numbers wrap. */
  function BeforeWrap(start: dword): nat {
    (TWO_32 - start - 1) / CHUNK
  }

  /**
   The wrap is reached from every ordinary start: after a connection on which each chunk
   was acknowledged before the next one, the comparison passes for the chunk that
   wraps, although none of it has been acknowledged.
   */
  lemma WrapPassesUnacked(c: Conn, start: dword)
    requires c.sendSeq == start && c.peerAck == start && start >= CHUNK
    ensures var acts := Exchange(start, BeforeWrap(start)) + FullChunk();
      && HonestAcks(acts, start) && AckedBytes(acts, start) + CHUNK == Written(acts)
      && Reached(c, acts).peerAck >= Reached(c, acts).sendSeq
  {
    hide HonestAcks, AckedBytes, Written, SentUpTo, Reached, Exchange, FullChunk;
    var k := BeforeWrap(start);
    ExchangeAcked(start, k);
    OneMoreChunk(Exchange(start, k), start);
    GuardMeans(c, Exchange(start, k) + FullChunk(), start);
  }

  /** The SYN-ACK of a dialled connection leaves such a start. */
  lemma SynAckStarts(c: Conn, ip: dword, port: word, s: Segment)
    requires IsAccept(Dialled(c, ip, port), s)
    ensures var d := OnSegment(Dialled(c, ip, port), s).conn; d.connected && d.sendSeq == d.peerAck == s.ack
  {
  }

  /** All bytes written are acknowledged, unless the numbers have wrapped. */
  predicate AllAcked(run: seq<Act>, start: dword) {
    AckedBytes(run, start) >= Written(run) || start + Written(run) >= TWO_32
  }

  /**
   A call of Write (its `acts`, after what became of the connection `before`): behind
   its first chunk a new one goes out only when all bytes written on the connection are
   acknowledged, the sequence numbers have wrapped, or the stream has failed.
   */
  lemma NewChunkMeans(c: Conn, before: seq<Act>, data: Bytes, acts: seq<Act>, k: nat, start: dword)
    requires c.sendSeq == start && c.peerAck == start && HonestAcks(before + acts, start)
    requires SentUpTo(before + acts) < TWO_32 && Written(before + acts) < TWO_32
    requires StopAndWait(Reached(c, before), data, acts) && k < |acts| && acts[k].Send? && Written(acts[..k]) > 0
    ensures Reached(c, before + acts[..k]).failed || AllAcked(before + acts[..k], start)
  {
    hide Reached, Written, SentUpTo, Payload, AckedBytes, HonestAcks, StopAndWait;
    var n := |before| + k;
    assert (before + acts)[..n] == before + acts[..k];
    StopAndWaitBefore(Reached(c, before), data, acts, k);
    HonestBefore(before + acts, n, start);
    WrittenGrows(before + acts, n);
    WriteMeans(c, before, acts[..k], start);
  }

  /** The same when Write returns a positive count. */
  lemma WriteMeans(c: Conn, before: seq<Act>, acts: seq<Act>, start: dword)
    requires c.sendSeq == start && c.peerAck == start && HonestAcks(before + acts, start)
    requires SentUpTo(before + acts) < TWO_32 && Written(before + acts) < TWO_32
    requires var d := Reached(Reached(c, before), acts); d.failed || d.peerAck >= d.sendSeq
    ensures Reached(c, before + acts).failed || AllAcked(before + acts, start)
  {
    hide Reached, Written, SentUpTo, AckedBytes, HonestAcks;
    ReachedConcat(c, before, acts);
    if !Reached(c, before + acts).failed {
      GuardMeans(c, before + acts, start);
    }
  }

  /**
   Nobody dials again. Segments with SYN acknowledge the SYN numbered `iss`, and none comes
   between the sending of the first chunk and the counting of it. Data arrive only once
   Write has sent something.
   */
  ghost predicate AsksFirst(acts: seq<Act>, iss: dword) {
    forall k {:trigger acts[..k]} :: 0 <= k < |acts| ==>
      && !acts[k].Dial?
      && (acts[k].Arrive? && Has(acts[k].segment.flags, SYN) ==>
            acts[k].segment.ack == Wrap32(iss + 1) && (SentUpTo(acts[..k]) == 0 || Written(acts[..k]) > 0))
      && (acts[k].Arrive? && acts[k].segment.data != [] ==> SentUpTo(acts[..k]) > 0)
  }

  lemma SeqStep(r: Run, a: Act)
    requires !a.Dial?
    ensures Do(r, a).conn.sendSeq == if a.Advance? then Wrap32(r.conn.sendSeq + a.n) else r.conn.sendSeq
  {
    if a.Arrive? {
      HandlerEvolves(r.conn, a.segment);
    }
  }

  lemma NoDataNoBytes(r: Run, a: Act)
    requires r.Stream() == [] && (a.Arrive? ==> a.segment.data == [])
    ensures Do(r, a).Stream() == []
  {
    hide OnSegment;
    if a.Arrive? {
      BareSegment(r.conn, a.segment);
    }
  }

  lemma BareSegment(c: Conn, s: Segment)
    requires s.data == []
    ensures OnSegment(c, s).conn.rx == c.rx
  {
    hide OnData, OnFin, EmitAck;
    BareSteps(Acked(c, s), s);
  }

  lemma BareSteps(c: Conn, s: Segment)
    requires s.data == []
    ensures OnData(c, s) == Reaction(c, [], true) && OnFin(c, s).conn.rx == c.rx
  {
    hide EmitAck;
  }

  /** The send sequence number follows Write, and before it has sent anything no byte has come in. */
  lemma {:induction false} AsksFirstState(c: Conn, acts: seq<Act>, iss: dword)
    requires c.rx == [] && c.sendSeq == Wrap32(iss + 1) && AsksFirst(acts, iss)
    ensures var r := Exec(Run(c, [], []), acts);
      r.conn.sendSeq == Wrap32(iss + 1 + Written(acts)) && (SentUpTo(acts) == 0 ==> r.Stream() == [])
  {
    if acts != [] {
      hide Do;
      var n := |acts| - 1;
      var r := Exec(Run(c, [], []), acts[..n]);
      AsksFirstBefore(acts, n, iss);
      AsksFirstState(c, acts[..n], iss);
      assert acts[..n] == acts[..n];
      SeqStep(r, acts[n]);
      Wrap32Add(iss + 1 + Written(acts[..n]), if acts[n].Advance? then acts[n].n else 0);
      if SentUpTo(acts) == 0 {
        NoDataNoBytes(r, acts[n]);
      }
    }
  }

  lemma AsksFirstBefore(acts: seq<Act>, n: nat, iss: dword)
    requires n <= |acts| && AsksFirst(acts, iss)
    ensures AsksFirst(acts[..n], iss)
  {
    hide Written, SentUpTo;
    forall k | 0 <= k < n ensures acts[..n][..k] == acts[..k] && acts[..n][k] == acts[k] {
    }
  }

  /**
   With a peer that answers and never speaks first, a SYN-ACK is not accepted again
   once Write has moved the sequence number: the caller sees a prefix and nothing else.
   */
  lemma PrefixWhenAskedFirst(c: Conn, acts: seq<Act>, x: Bytes, irs: dword, iss: dword)
    requires !c.connected && c.rx == [] && |x| < TWO_32 && AllHonest(acts, x, irs)
    requires c.sendSeq == Wrap32(iss + 1) && AsksFirst(acts, iss) && Written(acts) < TWO_32
    ensures Exec(Run(c, [], []), acts).base == [] && Exec(Run(c, [], []), acts).Stream() <= x
  {
    hide Exec, IsAccept, AllHonest, AsksFirst;
    forall k: nat ensures !ReopensAt(c, acts, k) {
      if k < |acts| && acts[k].Arrive? {
        NotAcceptedAgain(c, acts, k, iss);
      }
    }
    PrefixUnlessReopened(c, acts, x, irs);
    NothingBeforeIff(c, acts);
  }

  lemma NotAcceptedAgain(c: Conn, acts: seq<Act>, k: nat, iss: dword)
    requires c.rx == [] && c.sendSeq == Wrap32(iss + 1) && AsksFirst(acts, iss) && Written(acts) < TWO_32
    requires k < |acts| && acts[k].Arrive?
    ensures !ReopensAt(c, acts, k)
  {
    hide Exec, Written, SentUpTo;
    AsksFirstBefore(acts, k, iss);
    AsksFirstState(c, acts[..k], iss);
    WrittenGrows(acts, k);
    assert Has(acts[k].segment.flags, SYN) ==>
      acts[k].segment.ack == Wrap32(iss + 1) && (SentUpTo(acts[..k]) == 0 || Written(acts[..k]) > 0) by {
      assert acts[..k] == acts[..k];
    }
    if Wrap32(iss + 1) == Wrap32(iss + 1 + Written(acts[..k])) {
      WrapUnique(0, Written(acts[..k]), iss);
    }
  }

  lemma {:induction false} WrittenGrows(acts: seq<Act>, k: nat)
    requires k <= |acts|
    ensures Written(acts[..k]) <= Written(acts) && SentUpTo(acts[..k]) <= SentUpTo(acts)
  {
    if k < |acts| {
      WrittenGrows(acts[..|acts| - 1], k);
      assert acts[..|acts| - 1][..k] == acts[..k];
    } else {
      assert acts[..k] == acts;
    }
  }

  // After a FIN the same SYN-ACK opens the stream again and the peer's bytes are delivered twice.

  function SynAck(mix: dword): Segment {
    Segment(443, 50000 + mix % 0x1000, 0, 0x3600_0001 + mix % 0x100_0000, 0x12, [])
  }

  function SevenSent(mix: dword): Segment {
    Segment(443, 50000 + mix % 0x1000, 1, 0x3600_0001 + mix % 0x100_0000, ACK, [7])
  }

  function Finished(mix: dword): Segment {
    Segment(443, 50000 + mix % 0x1000, 2, 0x3600_0001 + mix % 0x100_0000, FIN_ACK, [])
  }

  function Reopening(mix: dword): seq<Act> {
    [Dial(2, 443), Arrive(SynAck(mix)), Arrive(SevenSent(mix)), Arrive(Finished(mix)),
     Arrive(SynAck(mix)), Arrive(SevenSent(mix))]
  }

  lemma ExecPrefix(r: Run, acts: seq<Act>, n: nat)
    requires n < |acts|
    ensures Exec(r, acts[..n + 1]) == Do(Exec(r, acts[..n]), acts[n])
  {
    assert acts[..n + 1][..n] == acts[..n];
  }

  lemma ReopeningHonest(mix: dword)
    ensures AllHonest(Reopening(mix), [7], 0)
  {
    assert IsPiece(SevenSent(mix), [7], 0, 0);
    assert Honest(SynAck(mix), [7], 0) && Honest(SevenSent(mix), [7], 0) && Honest(Finished(mix), [7], 0);
    assert forall i :: 1 <= i < 6 ==> Reopening(mix)[i].segment in {SynAck(mix), SevenSent(mix), Finished(mix)};
  }

  lemma FirstOpening(d: Conn, mix: dword)
    requires d == Dialled(Configured(1, mix), 2, 443)
    ensures Do(Do(Do(Run(d, [], []), Arrive(SynAck(mix))), Arrive(SevenSent(mix))), Arrive(Finished(mix)))
         == Run(d.(peerAck := d.sendSeq, recvSeq := 3, rx := [7], closed := true), [], [])
  {
    var up := d.(peerAck := d.sendSeq, recvSeq := 1, connected := true);
    assert Do(Run(d, [], []), Arrive(SynAck(mix))) == Run(up, [], []);
    assert Do(Run(up, [], []), Arrive(SevenSent(mix))) == Run(up.(rx := [7], recvSeq := 2), [], []);
  }

  lemma SecondOpening(d: Conn, r: Run, mix: dword)
    requires d == Dialled(Configured(1, mix), 2, 443)
    requires r == Run(d.(peerAck := d.sendSeq, recvSeq := 3, rx := [7], closed := true), [], [])
    ensures IsAccept(r.conn, SynAck(mix)) && r.Stream() == [7]
    ensures Do(Do(r, Arrive(SynAck(mix))), Arrive(SevenSent(mix))).Stream() == [7, 7]
  {
    var up := r.conn.(recvSeq := 1, connected := true);
    assert Do(r, Arrive(SynAck(mix))) == Run(up, [], [7]);
    assert OnData(up, SevenSent(mix)).conn.rx == [7, 7];
  }

  /** From any configured stream on: an honest run that reopens and yields [7, 7] for the peer's stream [7]. */
  lemma ReopenRepeats(mix: dword)
    ensures AllHonest(Reopening(mix), [7], 0)
    ensures ReopensAt(Configured(1, mix), Reopening(mix), 4)
    ensures Exec(Run(Configured(1, mix), [], []), Reopening(mix)).Stream() == [7, 7]
  {
    hide Do, SynAck, SevenSent, Finished, Configured, Dialled, IsAccept, AllHonest;
    ReopeningHonest(mix);
    var c, acts := Configured(1, mix), Reopening(mix);
    var r0, d := Run(c, [], []), Dialled(c, 2, 443);
    assert acts[..0] == [] && acts[..6] == acts;
    assert Do(r0, acts[0]) == Run(d, [], []) by { DialStep(c); }
    ExecPrefix(r0, acts, 0);
    ExecPrefix(r0, acts, 1);
    ExecPrefix(r0, acts, 2);
    ExecPrefix(r0, acts, 3);
    FirstOpening(d, mix);
    ExecPrefix(r0, acts, 4);
    ExecPrefix(r0, acts, 5);
    SecondOpening(d, Exec(r0, acts[..4]), mix);
  }

  lemma DialStep(c: Conn)
    ensures Do(Run(c, [], []), Dial(2, 443)) == Run(Dialled(c, 2, 443), [], [])
  {
  }
}
