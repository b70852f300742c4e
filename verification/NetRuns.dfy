/**
 Properties of whole runs of the standalone stack: the order of its events, the
 lease clock (section 4.4.5 of RFC 2131) and the checksums of all it sends.
 */
module NetRuns {
  import opened Bytes
  import opened Checksum
  import opened Ipv4
  import opened NetWire
  import opened NetStack

  datatype Input = Tick(link: Link) | Receive(frame: Bytes, link: Link)

  function Next(n: Net, i: Input): Net {
    match i
    case Tick(link) => Ticked(n, link)
    case Receive(frame, link) => OnFrame(n, frame, link).0
  }

  function After(n: Net, run: seq<Input>): Net {
    if run == [] then n else Next(After(n, run[..|run| - 1]), run[|run| - 1])
  }

  // --------------------------------------------------------------- event causality

  predicate HasBound(es: seq<NetEvent>) {
    exists i :: 0 <= i < |es| && es[i].DhcpBound?
  }

  predicate HasGateway(es: seq<NetEvent>) {
    exists i :: 0 <= i < |es| && es[i].GatewayResolved?
  }

  predicate HasDns(es: seq<NetEvent>) {
    exists i :: 0 <= i < |es| && es[i].DnsResolved?
  }

  predicate HasConnected(es: seq<NetEvent>) {
    exists i :: 0 <= i < |es| && es[i].TcpConnected?
  }

  predicate HasResponse(es: seq<NetEvent>) {
    exists i :: 0 <= i < |es| && es[i].HttpResponse?
  }

  /** What must and what must not have been announced before an event. */
  predicate Justified(before: seq<NetEvent>, e: NetEvent) {
    && (e.GatewayResolved? ==> HasBound(before))
    && (e.TcpConnected? ==> HasDns(before) && HasGateway(before) && !HasConnected(before))
    && (e.HttpResponse? ==> HasConnected(before) && !HasResponse(before))
  }

  predicate Causal(es: seq<NetEvent>) {
    forall i :: 0 <= i < |es| ==> Justified(es[..i], es[i])
  }

  /** The part of the state that events depend on. */
  datatype Core = Core(gatewayKnown: bool, configured: bool, synSent: bool, established: bool, internetOk: bool,
                       events: seq<NetEvent>)

  function CoreOf(n: Net): Core {
    Core(n.gatewayKnown, n.configured, n.synSent, n.established, n.internetOk, n.events)
  }

  predicate Consistent(c: Core) {
    && Causal(c.events)
    && (c.gatewayKnown ==> HasGateway(c.events))
    && (c.configured ==> HasBound(c.events))
    && (c.synSent ==> HasGateway(c.events) && HasDns(c.events))
    && (c.established ==> c.synSent)
    && (c.established <==> HasConnected(c.events))
    && (c.internetOk ==> c.established)
    && (c.internetOk <==> HasResponse(c.events))
  }

  function Plus(c: Core, e: NetEvent): Core {
    c.(events := c.events + [e])
  }

  lemma HasMore(es: seq<NetEvent>, e: NetEvent)
    ensures HasBound(es + [e]) <==> HasBound(es) || e.DhcpBound?
    ensures HasGateway(es + [e]) <==> HasGateway(es) || e.GatewayResolved?
    ensures HasDns(es + [e]) <==> HasDns(es) || e.DnsResolved?
    ensures HasConnected(es + [e]) <==> HasConnected(es) || e.TcpConnected?
    ensures HasResponse(es + [e]) <==> HasResponse(es) || e.HttpResponse?
  {
    var t := es + [e];
    assert t[|es|] == e;
    assert forall i :: 0 <= i < |es| ==> t[i] == es[i];
  }

  lemma CausalMore(es: seq<NetEvent>, e: NetEvent)
    requires Causal(es) && Justified(es, e)
    ensures Causal(es + [e])
  {
    hide Justified;
    var t := es + [e];
    forall i | 0 <= i < |t| ensures Justified(t[..i], t[i]) {
      if i < |es| {
        assert t[..i] == es[..i];
      } else {
        assert t[..i] == es;
      }
    }
  }

  // ------------------------------------------------------- sending changes no core

  lemma RawKeepsCore(n: Net, dst: dword, proto: byte, payload: Bytes, to: Mac, link: Link)
    ensures CoreOf(SendRaw(n, dst, proto, payload, to, link).0) == CoreOf(n)
  {
    hide Frame;
  }

  lemma UdpKeepsCore(n: Net, dst: dword, srcPort: word, dstPort: word, payload: Bytes, to: Mac, link: Link)
    ensures CoreOf(SendUdp(n, dst, srcPort, dstPort, payload, to, link).0) == CoreOf(n)
  {
    hide CoreOf, SendRaw, UdpBytes;
    if |payload| <= 1400 {
      RawKeepsCore(n, dst, UDP, UdpBytes(Source(n), dst, srcPort, dstPort, payload), to, link);
    }
  }

  lemma TcpKeepsCore(n: Net, flags: byte, payload: Bytes, link: Link)
    ensures CoreOf(SendTcp(n, flags, payload, link).0) == CoreOf(n)
  {
    hide CoreOf, SendRaw, TcpBytes;
    if n.resolvedIp != 0 && n.gatewayKnown && |payload| <= 1400 {
      var segment := Segment(n.port, 80, n.seqno, n.ack, flags, payload);
      RawKeepsCore(n, n.resolvedIp, TCP, TcpBytes(n.lease.ip, n.resolvedIp, segment), n.gatewayMac, link);
    }
  }

  lemma DiscoverCore(n: Net, link: Link)
    ensures CoreOf(SendDiscover(n, link).0) == Plus(CoreOf(n), DhcpDiscover(n.xid))
  {
    hide SendUdp, Discover;
    var q := Announce(n.(requested := false, renewing := false, waited := 0), DhcpDiscover(n.xid));
    UdpKeepsCore(q, 0xFFFF_FFFF, 68, 67, Discover(n.xid, n.mac), BROADCAST, link);
  }

  lemma RequestCore(n: Net, link: Link)
    ensures CoreOf(SendRequest(n, link).0) == CoreOf(n)
  {
    hide SendUdp, Request;
    if n.offeredIp != 0 && n.offerServer != 0 {
      var q := n.(requested := true, renewing := false, waited := 0);
      UdpKeepsCore(q, 0xFFFF_FFFF, 68, 67, Request(n.xid, n.mac, n.offeredIp, n.offerServer), BROADCAST, link);
    }
  }

  lemma RenewCore(n: Net, link: Link)
    ensures CoreOf(SendRenew(n, link).0) == CoreOf(n)
  {
    hide SendUdp, Renew, Xor;
    if n.configured && n.gatewayKnown && n.lease.server != 0 {
      var q := n.(xid := Xor(Xor(n.xid, n.age), 0x5245_4E45), renewing := true, waited := 0);
      UdpKeepsCore(q, n.lease.server, 68, 67, Renew(q.xid, n.mac, n.lease.ip), n.gatewayMac, link);
    }
  }

  lemma PingCore(n: Net, destination: dword, id: word, sequence: word, link: Link)
    ensures CoreOf(SendPing(n, destination, id, sequence, link).0) == CoreOf(n)
  {
    hide CoreOf, SendRaw, Echo;
    if n.configured && n.gatewayKnown {
      RawKeepsCore(n, destination, 1, Echo(id, sequence, n.seed, destination), n.gatewayMac, link);
    }
  }

  lemma QueryCore(n: Net, link: Link)
    ensures CoreOf(SendQuery(n, link).0) == CoreOf(n)
  {
    hide CoreOf, SendUdp, Query;
    if n.configured && n.gatewayKnown {
      UdpKeepsCore(n, n.lease.dns, DnsPort(n), 53, Query(n.dnsId), n.gatewayMac, link);
    }
  }

  // ------------------------------------------------------------- one input at a time

  /** An event that needs nothing before it. */
  lemma PlainEvent(c: Core, e: NetEvent)
    requires Consistent(c)
    requires e.DhcpDiscover? || e.DhcpOffer? || e.DhcpBound? || e.IcmpReply? || e.DnsResolved? || e.Failure?
    ensures Consistent(Plus(c, e))
    ensures e.DhcpBound? ==> Consistent(Plus(c, e).(configured := true))
    ensures e.DnsResolved? && c.gatewayKnown ==> Consistent(Plus(c, e).(synSent := true))
  {
    hide HasBound, HasGateway, HasDns, HasConnected, HasResponse;
    HasMore(c.events, e);
    CausalMore(c.events, e);
  }

  lemma GatewayEvent(c: Core, e: NetEvent)
    requires Consistent(c) && c.configured && e.GatewayResolved?
    ensures Consistent(Plus(c, e).(gatewayKnown := true))
  {
    hide HasBound, HasGateway, HasDns, HasConnected, HasResponse;
    HasMore(c.events, e);
    CausalMore(c.events, e);
  }

  lemma ConnectedEvent(c: Core, e: NetEvent)
    requires Consistent(c) && c.synSent && !c.established && e.TcpConnected?
    ensures Consistent(Plus(c, e).(established := true))
  {
    hide HasBound, HasGateway, HasDns, HasConnected, HasResponse;
    HasMore(c.events, e);
    CausalMore(c.events, e);
  }

  lemma ResponseEvent(c: Core, e: NetEvent)
    requires Consistent(c) && c.established && !c.internetOk && e.HttpResponse?
    ensures Consistent(Plus(c, e).(internetOk := true))
  {
    hide HasBound, HasGateway, HasDns, HasConnected, HasResponse;
    HasMore(c.events, e);
    CausalMore(c.events, e);
  }

  lemma Unconfigured(c: Core)
    requires Consistent(c)
    ensures Consistent(c.(configured := false)) && Consistent(c.(configured := false, gatewayKnown := false))
  {
    hide HasBound, HasGateway, HasDns, HasConnected, HasResponse, Causal;
  }

  lemma TickConsistent(n: Net, link: Link)
    requires Consistent(CoreOf(n))
    ensures Consistent(CoreOf(Ticked(n, link)))
  {
    hide Consistent, SendRequest, SendDiscover, SendRenew;
    if n.sending && !n.configured {
      RequestCore(n.(waited := 0), link);
      DiscoverCore(n.(waited := 0), link);
      PlainEvent(CoreOf(n), DhcpDiscover(n.xid));
    } else if n.sending && n.lease.seconds != 0 {
      AgingConsistent(n, link);
    }
  }

  lemma AgingConsistent(n: Net, link: Link)
    requires Consistent(CoreOf(n))
    ensures Consistent(CoreOf(Aging(n, link)))
  {
    hide Consistent, SendDiscover, SendRenew;
    var a := n.(age := Wrap32(n.age + 1));
    var renewed := a.(renewals := a.renewals + [a.age]);
    RenewCore(renewed, link);
    var r := Aged(n, link);
    assert CoreOf(r) == CoreOf(n);
    DiscoverCore(Expired(r), link);
    Unconfigured(CoreOf(r));
    PlainEvent(CoreOf(Expired(r)), DhcpDiscover(r.xid));
  }

  lemma GatewayConsistent(n: Net, a: Arp, link: Link)
    requires Consistent(CoreOf(n)) && n.configured
    ensures Consistent(CoreOf(OnGateway(n, a, link).0))
  {
    hide Consistent, SendPing, SendQuery, Xor;
    var q := Announce(n.(gatewayMac := a.senderMac, gatewayKnown := true), GatewayResolved(a.senderIp));
    var id := Xor(n.dnsId, 0x1111) % 0x1_0000;
    GatewayEvent(CoreOf(n), GatewayResolved(a.senderIp));
    PingCore(q, n.lease.gateway, id, 1, link);
    QueryCore(SendPing(q, n.lease.gateway, id, 1, link).0, link);
  }

  lemma TransmitCore(n: Net, frame: Bytes, link: Link)
    ensures CoreOf(Transmit(n, frame, link).0) == CoreOf(n)
  {
  }

  lemma ArpConsistent(n: Net, p: Bytes, link: Link)
    requires Consistent(CoreOf(n))
    ensures Consistent(CoreOf(OnArp(n, p, link).0))
  {
    hide Consistent, CoreOf, OnGateway, ParseArp, ArpFrame, Transmit;
    if ParseArp(p).Some? && n.configured {
      var a := ParseArp(p).value;
      GatewayConsistent(n, a, link);
      TransmitCore(n, ArpFrame(a.senderMac, n.mac, 2, n.lease.ip, a.senderMac, a.senderIp), link);
    }
  }

  lemma OfferConsistent(n: Net, yiaddr: dword, server: dword, o: Options, link: Link)
    requires Consistent(CoreOf(n))
    ensures Consistent(CoreOf(OnOffer(n, yiaddr, server, o, link).0))
  {
    hide Consistent, SendRequest;
    var l := n.lease.(subnet := o.subnet, gateway := o.router, dns := o.dns, seconds := o.lease);
    var q := Announce(n.(waited := 0, offeredIp := yiaddr, offerServer := server, lease := l), DhcpOffer(yiaddr));
    PlainEvent(CoreOf(n), DhcpOffer(yiaddr));
    RequestCore(q, link);
  }

  lemma AckIs(n: Net, yiaddr: dword, o: Options, link: Link)
    ensures var ip := Assigned(n, yiaddr);
            var q := Bound(n, Acknowledged(n, ip, o));
      OnAck(n, yiaddr, o, link).0 ==
        if ip == 0 then n
        else if !q.configured then Announce(q, Failure(0x4448_4350))
        else SendArp(Announce(q, DhcpBound(q.lease.ip)), q.lease.gateway, link).0
  {
    hide SendArp, Acknowledged, Assigned, Bound, Announce;
  }

  lemma BoundCore(n: Net, l: Lease)
    ensures CoreOf(Bound(n, l)) == CoreOf(n).(configured := l.ip != 0 && l.gateway != 0 && l.dns != 0)
  {
  }

  lemma AnnounceCore(n: Net, e: NetEvent)
    ensures CoreOf(Announce(n, e)) == Plus(CoreOf(n), e)
  {
  }

  lemma ArpCore(n: Net, target: dword, link: Link)
    ensures CoreOf(SendArp(n, target, link).0) == CoreOf(n)
  {
    hide ArpFrame;
  }

  lemma AckConsistent(n: Net, yiaddr: dword, o: Options, link: Link)
    requires Consistent(CoreOf(n))
    ensures Consistent(CoreOf(OnAck(n, yiaddr, o, link).0))
  {
    hide Consistent, OnAck, CoreOf, Acknowledged, Assigned, Bound, Announce, SendArp;
    var ip := Assigned(n, yiaddr);
    var q := Bound(n, Acknowledged(n, ip, o));
    AckIs(n, yiaddr, o, link);
    BoundCore(n, Acknowledged(n, ip, o));
    BoundConfigured(q);
    if ip != 0 && !q.configured {
      Unconfigured(CoreOf(n));
      AnnounceCore(q, Failure(0x4448_4350));
      PlainEvent(CoreOf(q), Failure(0x4448_4350));
    } else if ip != 0 {
      AnnounceCore(q, DhcpBound(q.lease.ip));
      ArpCore(Announce(q, DhcpBound(q.lease.ip)), q.lease.gateway, link);
      PlainEvent(CoreOf(n), DhcpBound(q.lease.ip));
    }
  }

  lemma BoundConfigured(n: Net)
    ensures CoreOf(n).configured == n.configured
  {
  }

  lemma DhcpConsistent(n: Net, p: Bytes, link: Link)
    requires Consistent(CoreOf(n))
    ensures Consistent(CoreOf(OnDhcp(n, p, link).0))
  {
    hide Consistent, OnOffer, OnAck, Walk;
    if IsReply(p, n.xid) {
      var o, yiaddr := Walk(p, 240, NO_OPTIONS), Read32(p, 16);
      OfferConsistent(n, yiaddr, Or(o.server, Read32(p, 20)), o, link);
      AckConsistent(n, yiaddr, o, link);
      PlainEvent(CoreOf(n), Failure(0x4E41_4B00));
    }
  }

  lemma SynCore(n: Net, link: Link)
    ensures CoreOf(SendSyn(n, link).0)
         == if n.resolvedIp != 0 && n.gatewayKnown then CoreOf(n).(synSent := true) else CoreOf(n)
  {
    hide SendTcp;
    TcpKeepsCore(n.(synSent := true), SYN, [], link);
  }

  lemma ResolvedConsistent(n: Net, ip: dword, link: Link)
    requires Consistent(CoreOf(n))
    ensures Consistent(CoreOf(SendSyn(Announce(n.(resolvedIp := ip), DnsResolved(ip)), link).0))
  {
    hide Consistent, SendSyn;
    PlainEvent(CoreOf(n), DnsResolved(ip));
    SynCore(Announce(n.(resolvedIp := ip), DnsResolved(ip)), link);
  }

  lemma DnsConsistent(n: Net, p: Bytes, link: Link)
    requires Consistent(CoreOf(n))
    ensures Consistent(CoreOf(OnDns(n, p, link).0))
  {
    hide Consistent, SendSyn, Resolved;
    if |p| >= 12 {
      PlainEvent(CoreOf(n), Failure(0x444E_5300));
      if Resolved(p).Address? {
        ResolvedConsistent(n, Resolved(p).ip, link);
      }
    }
  }

  lemma AcceptConsistent(n: Net, src: dword, s: Segment, link: Link)
    requires Consistent(CoreOf(n)) && Accepts(n, s)
    ensures Consistent(CoreOf(OnAccept(n, src, s, link).0))
  {
    hide Consistent, SendTcp, HttpGet;
    var q := Announce(n.(ack := Wrap32(s.seqno + 1), established := true), TcpConnected(src));
    ConnectedEvent(CoreOf(n), TcpConnected(src));
    TcpKeepsCore(q, ACK, [], link);
    TcpKeepsCore(SendTcp(q, ACK, [], link).0, PSH_ACK, HttpGet(), link);
  }

  lemma EstablishedConsistent(n: Net, src: dword, s: Segment, link: Link)
    requires Consistent(CoreOf(n)) && n.established
    ensures Consistent(CoreOf(OnEstablished(n, src, s, link)))
  {
    hide Consistent, CoreOf, SendTcp, OnFin, OnData;
    var d := OnData(n, src, s);
    DataConsistent(n, src, s);
    FinCore(d, s);
    TcpKeepsCore(OnFin(d, s), ACK, [], link);
  }

  lemma DataCore(n: Net, src: dword, s: Segment)
    ensures CoreOf(OnData(n, src, s)) ==
      if s.data != [] && s.seqno == n.ack && HasHttp(s.data) && !n.internetOk
      then Plus(CoreOf(n), HttpResponse(src)).(internetOk := true)
      else CoreOf(n)
  {
    hide HasHttp;
  }

  lemma DataConsistent(n: Net, src: dword, s: Segment)
    requires Consistent(CoreOf(n)) && n.established
    ensures Consistent(CoreOf(OnData(n, src, s)))
  {
    hide Consistent, OnData;
    DataCore(n, src, s);
    if !n.internetOk {
      ResponseEvent(CoreOf(n), HttpResponse(src));
    }
  }

  lemma FinCore(n: Net, s: Segment)
    ensures CoreOf(OnFin(n, s)) == CoreOf(n)
  {
  }

  lemma TcpConsistent(n: Net, src: dword, p: Bytes, link: Link)
    requires Consistent(CoreOf(n))
    ensures Consistent(CoreOf(OnTcp(n, src, p, link).0))
  {
    hide Consistent, OnAccept, OnEstablished, ParseTcp;
    if ParseTcp(p).Some? {
      var s := ParseTcp(p).value;
      if Accepts(n, s) {
        AcceptConsistent(n, src, s, link);
      } else if n.established {
        EstablishedConsistent(n, src, s, link);
      }
    }
  }

  lemma UdpConsistent(n: Net, p: Bytes, link: Link)
    requires Consistent(CoreOf(n))
    ensures Consistent(CoreOf(OnUdp(n, p, link).0))
  {
    hide Consistent, OnDhcp, OnDns, ParseUdp;
    if ParseUdp(p).Some? {
      DhcpConsistent(n, ParseUdp(p).value.data, link);
      DnsConsistent(n, ParseUdp(p).value.data, link);
    }
  }

  lemma FrameConsistent(n: Net, frame: Bytes, link: Link)
    requires Consistent(CoreOf(n))
    ensures Consistent(CoreOf(OnFrame(n, frame, link).0))
  {
    hide Consistent, OnArp, OnUdp, OnTcp, Delivered;
    if |frame| >= 14 {
      ArpConsistent(n, frame[14..], link);
      var d := Delivered(n, frame[14..]);
      if d.Some? {
        UdpConsistent(n, d.value.body, link);
        TcpConsistent(n, d.value.src, d.value.body, link);
        PlainEvent(CoreOf(n), IcmpReply(d.value.src));
      }
    }
  }

  lemma StartConsistent(mac: Mac, hasSend: bool, seed: dword, link: Link)
    ensures Consistent(CoreOf(Started(mac, hasSend, seed, link).0))
  {
    hide SendDiscover, Xor;
    var n := Seeded(mac, seed);
    DiscoverCore(n, link);
    PlainEvent(CoreOf(n), DhcpDiscover(n.xid));
  }

  lemma {:induction false} AlwaysConsistent(n: Net, run: seq<Input>)
    requires Consistent(CoreOf(n))
    ensures Consistent(CoreOf(After(n, run)))
    decreases |run|
  {
    hide Consistent, CoreOf, Ticked, OnFrame;
    if run != [] {
      var before, i := After(n, run[..|run| - 1]), run[|run| - 1];
      AlwaysConsistent(n, run[..|run| - 1]);
      match i {
        case Tick(link) => TickConsistent(before, link);
        case Receive(frame, link) => FrameConsistent(before, frame, link);
      }
    }
  }

  /**
   In every run since the start: one connection at most, after a name and the
   gateway were resolved; one response at most, after the connection; and the
   gateway only after a lease.
   */
  lemma EventCausality(mac: Mac, hasSend: bool, seed: dword, link: Link, run: seq<Input>)
    ensures Causal(After(Started(mac, hasSend, seed, link).0, run).events)
  {
    hide Started, After, Causal;
    StartConsistent(mac, hasSend, seed, link);
    AlwaysConsistent(Started(mac, hasSend, seed, link).0, run);
  }

  // -------------------------------------------------------------------- lease clock

  function Discovers(es: seq<NetEvent>): nat {
    if es == [] then 0 else Discovers(es[..|es| - 1]) + (if es[|es| - 1].DhcpDiscover? then 1 else 0)
  }

  lemma DiscoversMore(es: seq<NetEvent>, e: NetEvent)
    ensures Discovers(es + [e]) == Discovers(es) + if e.DhcpDiscover? then 1 else 0
  {
    assert (es + [e])[..|es|] == es;
  }

  /** What the clock reads and moves. */
  datatype Clock = Clock(lease: Lease, sending: bool, configured: bool, age: dword, requested: bool, offeredIp: dword,
                         waited: nat, discovers: nat, renewals: seq<dword>)

  function ClockOf(n: Net): Clock {
    Clock(n.lease, n.sending, n.configured, n.age, n.requested, n.offeredIp, n.waited, Discovers(n.events), n.renewals)
  }

  predicate DhcpDatagram(n: Net, d: Option<Datagram>) {
    d.Some? && d.value.srcPort == 67 && d.value.dstPort == 68 && IsReply(d.value.data, n.xid)
  }

  predicate DhcpPacket(n: Net, p: Option<Packet>) {
    p.Some? && p.value.proto == UDP && DhcpDatagram(n, ParseUdp(p.value.body))
  }

  /** The frame carries a DHCP message that the stack takes as a reply to its own. */
  predicate IsDhcp(n: Net, frame: Bytes) {
    && |frame| >= 14 && ForUs(n, frame) && Read16(frame, 12) == ETHERTYPE
    && DhcpPacket(n, Delivered(n, frame[14..]))
  }

  lemma TransmitClock(n: Net, frame: Bytes, link: Link)
    ensures ClockOf(Transmit(n, frame, link).0) == ClockOf(n)
  {
    hide Discovers;
  }

  lemma RawClock(n: Net, dst: dword, proto: byte, payload: Bytes, to: Mac, link: Link)
    ensures ClockOf(SendRaw(n, dst, proto, payload, to, link).0) == ClockOf(n)
  {
    hide Frame, Discovers, Transmit, Source;
    if |payload| <= MAX_PAYLOAD {
      TransmitClock(n.(ipId := Wrap16(n.ipId + 1)),
                    Frame(to, n.mac, n.ipId, Packet(Source(n), dst, proto, payload)), link);
    }
  }

  lemma UdpClock(n: Net, dst: dword, srcPort: word, dstPort: word, payload: Bytes, to: Mac, link: Link)
    ensures ClockOf(SendUdp(n, dst, srcPort, dstPort, payload, to, link).0) == ClockOf(n)
  {
    hide ClockOf, SendRaw, UdpBytes;
    if |payload| <= 1400 {
      RawClock(n, dst, UDP, UdpBytes(Source(n), dst, srcPort, dstPort, payload), to, link);
    }
  }

  lemma TcpClock(n: Net, flags: byte, payload: Bytes, link: Link)
    ensures ClockOf(SendTcp(n, flags, payload, link).0) == ClockOf(n)
  {
    hide ClockOf, SendRaw, TcpBytes;
    if n.resolvedIp != 0 && n.gatewayKnown && |payload| <= 1400 {
      var segment := Segment(n.port, 80, n.seqno, n.ack, flags, payload);
      RawClock(n, n.resolvedIp, TCP, TcpBytes(n.lease.ip, n.resolvedIp, segment), n.gatewayMac, link);
    }
  }

  lemma DiscoverClock(n: Net, link: Link)
    ensures ClockOf(SendDiscover(n, link).0)
         == ClockOf(n).(requested := false, waited := 0, discovers := Discovers(n.events) + 1)
  {
    hide SendUdp, Discover, Discovers;
    var q := Announce(n.(requested := false, renewing := false, waited := 0), DhcpDiscover(n.xid));
    DiscoversMore(n.events, DhcpDiscover(n.xid));
    UdpClock(q, 0xFFFF_FFFF, 68, 67, Discover(n.xid, n.mac), BROADCAST, link);
  }

  lemma RenewClock(n: Net, link: Link)
    ensures ClockOf(SendRenew(n, link).0).(waited := 0) == ClockOf(n).(waited := 0)
  {
    hide SendUdp, Renew, Xor, Discovers;
    if n.configured && n.gatewayKnown && n.lease.server != 0 {
      var q := n.(xid := Xor(Xor(n.xid, n.age), 0x5245_4E45), renewing := true, waited := 0);
      UdpClock(q, n.lease.server, 68, 67, Renew(q.xid, n.mac, n.lease.ip), n.gatewayMac, link);
    }
  }

  lemma PlainClock(n: Net, e: NetEvent)
    requires !e.DhcpDiscover?
    ensures ClockOf(Announce(n, e)) == ClockOf(n)
  {
    hide Discovers;
    DiscoversMore(n.events, e);
  }

  lemma PingClock(n: Net, destination: dword, id: word, sequence: word, link: Link)
    ensures ClockOf(SendPing(n, destination, id, sequence, link).0) == ClockOf(n)
  {
    hide ClockOf, SendRaw, Echo;
    if n.configured && n.gatewayKnown {
      RawClock(n, destination, 1, Echo(id, sequence, n.seed, destination), n.gatewayMac, link);
    }
  }

  lemma QueryClock(n: Net, link: Link)
    ensures ClockOf(SendQuery(n, link).0) == ClockOf(n)
  {
    hide ClockOf, SendUdp, Query;
    if n.configured && n.gatewayKnown {
      UdpClock(n, n.lease.dns, DnsPort(n), 53, Query(n.dnsId), n.gatewayMac, link);
    }
  }

  lemma ArpClock(n: Net, p: Bytes, link: Link)
    ensures ClockOf(OnArp(n, p, link).0) == ClockOf(n)
  {
    hide ClockOf, OnGateway, ParseArp, ArpFrame, Transmit;
    if ParseArp(p).Some? {
      var a := ParseArp(p).value;
      GatewayClock(n, a, link);
      TransmitClock(n, ArpFrame(a.senderMac, n.mac, 2, n.lease.ip, a.senderMac, a.senderIp), link);
    }
  }

  lemma GatewayClock(n: Net, a: Arp, link: Link)
    ensures ClockOf(OnGateway(n, a, link).0) == ClockOf(n)
  {
    hide SendPing, SendQuery, Xor, Discovers, Announce;
    var k := n.(gatewayMac := a.senderMac, gatewayKnown := true);
    var q := Announce(k, GatewayResolved(a.senderIp));
    var id := Xor(n.dnsId, 0x1111) % 0x1_0000;
    PlainClock(k, GatewayResolved(a.senderIp));
    PingClock(q, n.lease.gateway, id, 1, link);
    QueryClock(SendPing(q, n.lease.gateway, id, 1, link).0, link);
  }

  lemma SynClock(n: Net, link: Link)
    ensures ClockOf(SendSyn(n, link).0) == ClockOf(n)
  {
    hide SendTcp, Discovers;
    TcpClock(n.(synSent := true), SYN, [], link);
  }

  lemma DnsClock(n: Net, p: Bytes, link: Link)
    ensures ClockOf(OnDns(n, p, link).0) == ClockOf(n)
  {
    hide SendSyn, Resolved, Discovers, Announce;
    if |p| >= 12 {
      PlainClock(n, Failure(0x444E_5300));
      if Resolved(p).Address? {
        var q := n.(resolvedIp := Resolved(p).ip);
        PlainClock(q, DnsResolved(Resolved(p).ip));
        SynClock(Announce(q, DnsResolved(Resolved(p).ip)), link);
      }
    }
  }

  lemma AcceptClock(n: Net, src: dword, s: Segment, link: Link)
    ensures ClockOf(OnAccept(n, src, s, link).0) == ClockOf(n)
  {
    hide SendTcp, HttpGet, Discovers, Announce;
    var k := n.(ack := Wrap32(s.seqno + 1), established := true);
    var q := Announce(k, TcpConnected(src));
    PlainClock(k, TcpConnected(src));
    TcpClock(q, ACK, [], link);
    TcpClock(SendTcp(q, ACK, [], link).0, PSH_ACK, HttpGet(), link);
  }

  lemma FinClock(n: Net, s: Segment)
    ensures ClockOf(OnFin(n, s)) == ClockOf(n)
  {
    hide Discovers;
  }

  lemma DataClock(n: Net, src: dword, s: Segment)
    ensures ClockOf(OnData(n, src, s)) == ClockOf(n)
  {
    hide HasHttp, Discovers, Announce;
    PlainClock(n.(ack := Wrap32(n.ack + |s.data|), internetOk := true), HttpResponse(src));
  }

  lemma EstablishedClock(n: Net, src: dword, s: Segment, link: Link)
    ensures ClockOf(OnEstablished(n, src, s, link)) == ClockOf(n)
  {
    hide ClockOf, SendTcp, OnFin, OnData;
    var d := OnData(n, src, s);
    DataClock(n, src, s);
    FinClock(d, s);
    TcpClock(OnFin(d, s), ACK, [], link);
  }

  lemma OnTcpClock(n: Net, src: dword, p: Bytes, link: Link)
    ensures ClockOf(OnTcp(n, src, p, link).0) == ClockOf(n)
  {
    hide ClockOf, OnAccept, OnEstablished, ParseTcp;
    if ParseTcp(p).Some? {
      AcceptClock(n, src, ParseTcp(p).value, link);
      EstablishedClock(n, src, ParseTcp(p).value, link);
    }
  }

  lemma OnUdpClock(n: Net, p: Bytes, link: Link)
    requires !DhcpDatagram(n, ParseUdp(p))
    ensures ClockOf(OnUdp(n, p, link).0) == ClockOf(n)
  {
    hide ClockOf, OnOffer, OnAck, OnDns, ParseUdp, Walk, IsReply;
    if ParseUdp(p).Some? {
      DnsClock(n, ParseUdp(p).value.data, link);
    }
  }

  /** No frame but a DHCP reply of its own moves the clock. */
  lemma FrameKeepsClock(n: Net, frame: Bytes, link: Link)
    requires !IsDhcp(n, frame)
    ensures ClockOf(OnFrame(n, frame, link).0) == ClockOf(n)
  {
    hide ClockOf, OnArp, OnUdp, OnTcp, Delivered, ParseUdp, IsReply;
    if |frame| >= 14 && ForUs(n, frame) {
      ArpClock(n, frame[14..], link);
      var d := Delivered(n, frame[14..]);
      if d.Some? {
        OnTcpClock(n, d.value.src, d.value.body, link);
        PlainClock(n, IcmpReply(d.value.src));
        if d.value.proto == UDP && Read16(frame, 12) == ETHERTYPE {
          OnUdpClock(n, d.value.body, link);
        }
      }
    }
  }

  lemma WaitingClock(n: Net, link: Link)
    requires n.sending && !n.configured && (!n.requested || n.offeredIp == 0)
    ensures ClockOf(Ticked(n, link)) ==
      if n.waited + 1 < 4 then ClockOf(n).(waited := n.waited + 1)
      else ClockOf(n).(waited := 0, requested := false, discovers := Discovers(n.events) + 1)
  {
    hide SendDiscover, SendRequest, Discovers;
    DiscoverClock(n.(waited := 0), link);
  }

  function RenewalsAt(n: Net, age: dword): seq<dword> {
    n.renewals + if age == RenewAt(n.lease.seconds) then [age] else []
  }

  lemma AgedClock(n: Net, link: Link)
    requires n.age < 0xFFFF_FFFF
    ensures ClockOf(Aged(n, link)).(waited := 0)
         == ClockOf(n).(age := n.age + 1, renewals := RenewalsAt(n, n.age + 1), waited := 0)
  {
    hide SendRenew, Discovers, RenewAt;
    var a := n.(age := n.age + 1);
    assert n.renewals + [] == n.renewals && Wrap32(n.age + 1) == n.age + 1;
    RenewClock(a.(renewals := a.renewals + [a.age]), link);
  }

  lemma AgingClock(n: Net, link: Link)
    requires n.sending && n.configured && n.lease.seconds != 0 && n.age < n.lease.seconds
    ensures var age: dword := n.age + 1;
            var c := ClockOf(Ticked(n, link)).(waited := 0);
      c == if age < n.lease.seconds then ClockOf(n).(age := age, renewals := RenewalsAt(n, age), waited := 0)
           else Clock(NO_LEASE, true, false, age, false, 0, 0, Discovers(n.events) + 1, RenewalsAt(n, age))
    ensures n.age + 1 >= n.lease.seconds ==> Ticked(n, link).waited == 0
  {
    hide Aged, SendDiscover, Discovers, RenewalsAt;
    AgedClock(n, link);
    var r := Aged(n, link);
    DiscoverClock(Expired(r), link);
    ExpiredEvents(r);
  }

  lemma ExpiredEvents(n: Net)
    ensures ClockOf(Expired(n)) == ClockOf(n).(configured := false, offeredIp := 0, lease := NO_LEASE)
  {
  }

  /** No input of the run is a DHCP reply that the stack takes up. */
  ghost predicate Quiet(n: Net, run: seq<Input>) {
    forall k {:trigger run[..k]} :: 0 <= k < |run| && run[k].Receive? ==> !IsDhcp(After(n, run[..k]), run[k].frame)
  }

  function Ticks(run: seq<Input>): nat {
    if run == [] then 0 else Ticks(run[..|run| - 1]) + (if run[|run| - 1].Tick? then 1 else 0)
  }

  /** The clock `k` ticks after a lease of `l.seconds` was taken. */
  function ClockAfter(c: Clock, k: nat): Clock
    requires c.lease.seconds > 0
  {
    var seconds := c.lease.seconds;
    var t1 := RenewAt(seconds);
    var renewals := c.renewals + if k >= t1 then [t1] else [];
    if k < seconds then c.(age := k, renewals := renewals)
    else Clock(NO_LEASE, true, false, seconds, false, 0, (k - seconds) % 4,
               c.discovers + 1 + (k - seconds) / 4, renewals)
  }

  lemma NextWait(k: nat)
    ensures (k + 1) % 4 == if k % 4 + 1 < 4 then k % 4 + 1 else 0
    ensures (k + 1) / 4 == if k % 4 + 1 < 4 then k / 4 else k / 4 + 1
  {
  }

  predicate Leased(n: Net) {
    n.sending && n.configured && n.lease.seconds > 0 && n.age == 0
  }

  /** The waiting counter only matters once the lease is gone. */
  predicate Agree(c: Clock, d: Clock) {
    c.(waited := 0) == d.(waited := 0) && (!c.configured ==> c.waited == d.waited)
  }

  lemma ClockTick(n: Net, c: Clock, k: nat, link: Link)
    requires c.lease.seconds > 0 && c.sending && c.configured && c.age == 0
    requires Agree(ClockOf(n), ClockAfter(c, k))
    ensures Agree(ClockOf(Ticked(n, link)), ClockAfter(c, k + 1))
  {
    hide Ticked, Discovers;
    var seconds := c.lease.seconds;
    if k < seconds {
      AgingClock(n, link);
      assert n.renewals + [] == n.renewals && c.renewals + [] == c.renewals;
    } else {
      WaitingClock(n, link);
      NextWait(k - seconds);
    }
  }

  /**
   With no further DHCP reply the clock is a function of the ticks: the lease stands
   with age k until its last second, renewal is attempted once, half way, at the end
   the whole lease is gone and a Discover is sent, and then one every four ticks.
   */
  lemma {:induction false} LeaseClock(n: Net, run: seq<Input>)
    requires Leased(n) && Quiet(n, run)
    ensures Agree(ClockOf(After(n, run)), ClockAfter(ClockOf(n), Ticks(run)))
    decreases |run|
  {
    hide ClockOf, Ticked, OnFrame, ClockAfter, IsDhcp;
    if run == [] {
      ClockStarts(n);
    } else {
      var last := |run| - 1;
      var before := run[..last];
      assert forall k :: 0 <= k < last ==> before[..k] == run[..k] && before[k] == run[k];
      LeaseClock(n, before);
      match run[last] {
        case Tick(link) =>
          LeasedClock(n);
          ClockTick(After(n, before), ClockOf(n), Ticks(before), link);
        case Receive(frame, link) =>
          assert !IsDhcp(After(n, run[..last]), run[last].frame);
          FrameKeepsClock(After(n, before), frame, link);
      }
    }
  }

  lemma ClockStarts(n: Net)
    requires Leased(n)
    ensures Agree(ClockOf(n), ClockAfter(ClockOf(n), 0))
  {
    hide Discovers;
    assert n.renewals + [] == n.renewals;
  }

  lemma LeasedClock(n: Net)
    requires Leased(n)
    ensures var c := ClockOf(n); c.lease.seconds > 0 && c.sending && c.configured && c.age == 0
  {
  }

  lemma TransmitLease(n: Net, frame: Bytes, link: Link)
    ensures Leased(Transmit(n, frame, link).0) == Leased(n)
  {
  }

  /** An acknowledgement that is taken up and leaves a lease starts the clock. */
  lemma AckStartsClock(n: Net, yiaddr: dword, o: Options, link: Link)
    requires n.sending && Assigned(n, yiaddr) != 0
    ensures var q := OnAck(n, yiaddr, o, link).0;
      q.configured && q.lease.seconds > 0 ==> Leased(q)
  {
    hide OnAck, Acknowledged, Assigned, ArpFrame, Transmit;
    AckIs(n, yiaddr, o, link);
    var q := Bound(n, Acknowledged(n, Assigned(n, yiaddr), o));
    var b := Announce(q, DhcpBound(q.lease.ip));
    TransmitLease(b, ArpFrame(BROADCAST, b.mac, 1, b.lease.ip, ZERO_MAC, q.lease.gateway), link);
    TransmitClock(b, ArpFrame(BROADCAST, b.mac, 1, b.lease.ip, ZERO_MAC, q.lease.gateway), link);
  }
}
