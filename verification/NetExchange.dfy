/**
 The standalone stack (src/net_stack.cpp) doing what it is for. From every start on,
 with any lease, any gateway and any site: offer and acknowledgement, the gateway's ARP
 reply, the answer to the query, the SYN-ACK and the response are each answered with
 exactly the frames described here, and the events come in that order.
 */
module NetExchange {
  import opened Bytes
  import opened Ipv4
  import opened NetWire
  import opened NetStack
  import opened NetRuns
  import opened NetConditions
  import opened NetLease
  import D = NetAnswers

  // ------------------------------------------------------------------- frames to the stack

  /** An IPv4 frame for a configured stack. */
  function ToStack(n: Net, from: Mac, id: word, src: dword, proto: byte, body: Bytes): Bytes
    requires |body| <= MAX_PAYLOAD
  {
    Frame(n.mac, from, id, Packet(src, n.lease.ip, proto, body))
  }

  lemma ToStackHeard(n: Net, from: Mac, id: word, src: dword, proto: byte, body: Bytes, link: Link)
    requires n.configured && |body| <= MAX_PAYLOAD
    ensures var r := OnFrame(n, ToStack(n, from, id, src, proto, body), link);
      && (proto == UDP ==> r == OnUdp(n, body, link)) && (proto == TCP ==> r == OnTcp(n, src, body, link))
  {
    hide OnArp, OnUdp, OnTcp, OnIcmp, Frame, Parse;
    var p := Packet(src, n.lease.ip, proto, body);
    FrameParses(n.mac, from, id, p);
    Unfragmented(n.mac, from, id, p);
  }

  // ------------------------------------------------------------------------- the gateway

  /** The gateway's answer to the ARP request. */
  function GatewayReply(n: Net, g: Mac): Bytes {
    ArpFrame(n.mac, g, 2, n.lease.gateway, n.mac, n.lease.ip)
  }

  function QueryPacket(n: Net): (p: Packet)
    ensures |p.body| <= MAX_PAYLOAD
  {
    Packet(n.lease.ip, n.lease.dns, UDP, UdpBytes(n.lease.ip, n.lease.dns, DnsPort(n), 53, Query(n.dnsId)))
  }

  function PingPacket(n: Net): (p: Packet)
    ensures |p.body| <= MAX_PAYLOAD
  {
    Packet(n.lease.ip, n.lease.gateway, 1, Echo(Xor(n.dnsId, 0x1111) % 0x1_0000, 1, n.seed, n.lease.gateway))
  }

  /** The gateway's address is known; it is pinged, and the name server of the lease is asked through it. */
  function Routed(n: Net, g: Mac): Net {
    var q := n.(gatewayMac := g, gatewayKnown := true, events := n.events + [GatewayResolved(n.lease.gateway)]);
    PutIp(PutIp(q, g, PingPacket(n)), g, QueryPacket(n))
  }

  lemma GatewayHeard(n: Net, g: Mac, link: Link)
    requires n.configured
    ensures OnFrame(n, GatewayReply(n, g), link) == OnGateway(n, Arp(2, g, n.lease.gateway, n.lease.ip), link)
  {
    hide OnGateway, OnIpv4, ArpFrame, ParseArp, Transmit;
    ArpReads(n.mac, g, 2, n.lease.gateway, n.mac, n.lease.ip);
  }

  lemma PingPut(n: Net, link: Link)
    requires n.sending && n.configured && n.gatewayKnown
    ensures SendPing(n, n.lease.gateway, Xor(n.dnsId, 0x1111) % 0x1_0000, 1, link).0 == PutIp(n, n.gatewayMac, PingPacket(n))
  {
    hide SendRaw, PutIp, Echo, Xor;
    RawPut(n, n.lease.gateway, 1, Echo(Xor(n.dnsId, 0x1111) % 0x1_0000, 1, n.seed, n.lease.gateway), n.gatewayMac, link);
  }

  lemma QueryPut(n: Net, link: Link)
    requires n.sending && n.configured && n.gatewayKnown
    ensures SendQuery(n, link).0 == PutIp(n, n.gatewayMac, QueryPacket(n))
  {
    hide SendUdp, PutIp, Query, UdpBytes, DnsPort;
    UdpPut(n, n.lease.dns, DnsPort(n), 53, Query(n.dnsId), n.gatewayMac, link);
  }

  lemma PutFields(n: Net, to: Mac, p: Packet)
    requires |p.body| <= MAX_PAYLOAD
    ensures PutIp(n, to, p) == n.(sent := PutIp(n, to, p).sent, ipId := Wrap16(n.ipId + 1))
  {
    hide Frame;
  }

  lemma GatewayAnswered(n: Net, g: Mac, link: Link)
    requires n.configured && n.sending
    ensures Next(n, Receive(GatewayReply(n, g), link)) == Routed(n, g)
  {
    hide OnFrame, SendPing, SendQuery, PutIp, Xor, PingPacket, QueryPacket, Ticked;
    GatewayHeard(n, g, link);
    var q := n.(gatewayMac := g, gatewayKnown := true, events := n.events + [GatewayResolved(n.lease.gateway)]);
    PingPut(q, link);
    PutFields(q, g, PingPacket(q));
    QueryPut(PutIp(q, g, PingPacket(q)), link);
    SamePackets(n, q, PutIp(q, g, PingPacket(q)));
  }

  lemma SamePackets(n: Net, q: Net, r: Net)
    requires q.lease == n.lease == r.lease && q.dnsId == n.dnsId == r.dnsId && q.seed == n.seed
    ensures PingPacket(q) == PingPacket(n) && QueryPacket(r) == QueryPacket(n)
  {
    hide Echo, UdpBytes, Xor;
  }

  // ----------------------------------------------------------------------------- the name

  /** The name server's answer to the query. */
  function NameReply(n: Net, from: Mac, id: word, p: Bytes): Bytes
    requires |p| <= 1400
  {
    ToStack(n, from, id, n.lease.dns, UDP, UdpBytes(n.lease.dns, n.lease.ip, 53, DnsPort(n), p))
  }

  /** A segment of the connection that the stack sends to port 80 of the site. */
  function TcpPacket(n: Net, flags: byte, data: Bytes): (p: Packet)
    requires |data| <= 1400
    ensures |p.body| <= MAX_PAYLOAD
  {
    Packet(n.lease.ip, n.resolvedIp, TCP, TcpBytes(n.lease.ip, n.resolvedIp, Segment(n.port, 80, n.seqno, n.ack, flags, data)))
  }

  /** The name is resolved and its site dialled. */
  function Dialled(n: Net, site: dword): Net {
    var q := n.(resolvedIp := site, synSent := true, events := n.events + [DnsResolved(site)]);
    PutIp(q, n.gatewayMac, TcpPacket(q, SYN, [])).(seqno := Wrap32(n.seqno + 1))
  }

  lemma TcpPut(n: Net, flags: byte, data: Bytes, link: Link)
    requires n.sending && n.configured && n.gatewayKnown && n.resolvedIp != 0 && |data| <= 1400
    ensures SendTcp(n, flags, data, link).0 == PutIp(n, n.gatewayMac, TcpPacket(n, flags, data))
    ensures (forall f :: link(f)) ==> SendTcp(n, flags, data, link).1
  {
    hide SendRaw, PutIp, TcpBytes;
    RawPut(n, n.resolvedIp, TCP, TcpBytes(n.lease.ip, n.resolvedIp, Segment(n.port, 80, n.seqno, n.ack, flags, data)),
           n.gatewayMac, link);
  }

  lemma NameHeard(n: Net, from: Mac, id: word, p: Bytes, link: Link)
    requires n.configured && 12 <= |p| <= 1400 && Read16(p, 0) == n.dnsId && Read16(p, 2) >= 0x8000 && Resolved(p).Address?
    ensures OnFrame(n, NameReply(n, from, id, p), link)
         == SendSyn(Announce(n.(resolvedIp := Resolved(p).ip), DnsResolved(Resolved(p).ip)), link)
  {
    hide OnFrame, SendSyn, OnDhcp, Resolved, UdpBytes, ToStack, DnsPort;
    var u := UdpBytes(n.lease.dns, n.lease.ip, 53, DnsPort(n), p);
    ToStackHeard(n, from, id, n.lease.dns, UDP, u, link);
    UdpVerifies(n.lease.dns, n.lease.ip, 53, DnsPort(n), p);
    assert u[8..|u|] == u[8..];
  }

  lemma NameAnswered(n: Net, from: Mac, id: word, p: Bytes, site: dword, link: Link)
    requires n.configured && n.sending && n.gatewayKnown && 12 <= |p| <= 1400 && site != 0 && forall f :: link(f)
    requires Read16(p, 0) == n.dnsId && Read16(p, 2) >= 0x8000 && Resolved(p) == Address(site)
    ensures Next(n, Receive(NameReply(n, from, id, p), link)) == Dialled(n, site)
  {
    hide OnFrame, SendTcp, Resolved, PutIp, NameReply, Ticked, TcpPacket;
    NameHeard(n, from, id, p, link);
    var q := n.(resolvedIp := site, synSent := true, events := n.events + [DnsResolved(site)]);
    TcpPut(q, SYN, [], link);
    PutFields(q, q.gatewayMac, TcpPacket(q, SYN, []));
  }

  // ----------------------------------------------------------------------- the connection

  /** A segment of the site. */
  function SiteSegment(n: Net, from: Mac, id: word, s: Segment): Bytes
    requires |s.data| <= 1400
  {
    ToStack(n, from, id, n.resolvedIp, TCP, TcpBytes(n.resolvedIp, n.lease.ip, s))
  }

  lemma SegmentHeard(n: Net, from: Mac, id: word, s: Segment, link: Link)
    requires n.configured && |s.data| <= 1400 && s.srcPort == 80 && s.dstPort == n.port
    ensures var r := OnFrame(n, SiteSegment(n, from, id, s), link);
      && (Accepts(n, s) ==> r == OnAccept(n, n.resolvedIp, s, link))
      && (!Accepts(n, s) && n.established ==> r == (OnEstablished(n, n.resolvedIp, s, link), true))
  {
    hide OnFrame, OnAccept, OnEstablished, TcpBytes, ParseTcp, ToStack;
    ToStackHeard(n, from, id, n.resolvedIp, TCP, TcpBytes(n.resolvedIp, n.lease.ip, s), link);
    TcpVerifies(n.resolvedIp, n.lease.ip, s);
  }

  lemma GetFits()
    ensures |HttpGet()| <= 1400
  {
  }

  /** The connection is open: the SYN-ACK is acknowledged and the request sent. */
  function Opened(n: Net, irs: dword): Net {
    GetFits();
    var q := n.(ack := Wrap32(irs + 1), established := true, events := n.events + [TcpConnected(n.resolvedIp)]);
    var r := PutIp(PutIp(q, n.gatewayMac, TcpPacket(q, ACK, [])), n.gatewayMac, TcpPacket(q, PSH_ACK, HttpGet()));
    r.(seqno := Wrap32(n.seqno + |HttpGet()|), httpSent := true)
  }

  lemma SamePacket(n: Net, q: Net, flags: byte, data: Bytes)
    requires |data| <= 1400 && q.lease == n.lease && q.resolvedIp == n.resolvedIp
    requires q.port == n.port && q.seqno == n.seqno && q.ack == n.ack
    ensures TcpPacket(q, flags, data) == TcpPacket(n, flags, data)
  {
    hide TcpBytes;
  }

  lemma SynAckAnswered(n: Net, from: Mac, id: word, irs: dword, link: Link)
    requires n.configured && n.sending && n.gatewayKnown && n.resolvedIp != 0 && n.synSent && !n.established
    requires forall f :: link(f)
    ensures Next(n, Receive(SiteSegment(n, from, id, Segment(80, n.port, irs, n.seqno, 0x12, [])), link)) == Opened(n, irs)
  {
    hide OnFrame, SendTcp, PutIp, SiteSegment, Ticked, TcpPacket, HttpGet;
    var s := Segment(80, n.port, irs, n.seqno, 0x12, []);
    SegmentHeard(n, from, id, s, link);
    GetFits();
    var q := n.(ack := Wrap32(irs + 1), established := true, events := n.events + [TcpConnected(n.resolvedIp)]);
    TcpPut(q, ACK, [], link);
    PutFields(q, q.gatewayMac, TcpPacket(q, ACK, []));
    var r := PutIp(q, q.gatewayMac, TcpPacket(q, ACK, []));
    TcpPut(r, PSH_ACK, HttpGet(), link);
    SamePacket(q, r, PSH_ACK, HttpGet());
    PutFields(r, q.gatewayMac, TcpPacket(r, PSH_ACK, HttpGet()));
  }

  /** The number the stack expects next: behind new data, and one further behind a FIN that comes in order. */
  function Expects(ack: dword, s: Segment): dword {
    var a := if s.seqno == ack then Wrap32(ack + |s.data|) else ack;
    if Has(s.flags, FIN) && Wrap32(s.seqno + |s.data|) == a then Wrap32(a + 1) else a
  }

  predicate FirstResponse(n: Net, s: Segment) {
    s.data != [] && s.seqno == n.ack && HasHttp(s.data) && !n.internetOk
  }

  /** What an open connection keeps of a segment: the number it expects, and whether a response has come. */
  function Noted(n: Net, s: Segment): Net {
    var q := n.(ack := Expects(n.ack, s));
    if FirstResponse(n, s) then q.(internetOk := true, events := n.events + [HttpResponse(n.resolvedIp)]) else q
  }

  /** An open connection takes the next bytes, reports the first response, and acknowledges data and FIN. */
  function Taken(n: Net, s: Segment): Net {
    var q := Noted(n, s);
    if s.data == [] && !Has(s.flags, FIN) then q else PutIp(q, n.gatewayMac, TcpPacket(q, ACK, []))
  }

  lemma NotedIs(n: Net, s: Segment)
    ensures OnFin(OnData(n, n.resolvedIp, s), s) == Noted(n, s)
  {
    hide OnFin, OnData, Noted;
    if s.data == [] || s.seqno != n.ack {
      OtherNoted(n, s);
      FinOther(n, s);
    } else {
      NextNoted(n, s);
      FinNext(n, s);
    }
  }

  lemma FinOther(n: Net, s: Segment)
    requires s.data == [] || s.seqno != n.ack
    ensures OnFin(n, s) == Noted(n, s)
  {
    hide HasHttp, Has, Wrap32;
    WrapSame(n.ack);
  }

  lemma FinNext(n: Net, s: Segment)
    requires s.data != [] && s.seqno == n.ack
    ensures var q := n.(ack := Wrap32(n.ack + |s.data|));
      OnFin(if HasHttp(s.data) && !n.internetOk
            then q.(internetOk := true, events := n.events + [HttpResponse(n.resolvedIp)]) else q, s) == Noted(n, s)
  {
    hide HasHttp, Has, Wrap32;
  }

  lemma OtherNoted(n: Net, s: Segment)
    requires s.data == [] || s.seqno != n.ack
    ensures OnData(n, n.resolvedIp, s) == n
  {
  }

  lemma NextNoted(n: Net, s: Segment)
    requires s.data != [] && s.seqno == n.ack
    ensures OnData(n, n.resolvedIp, s) ==
      if HasHttp(s.data) && !n.internetOk
      then n.(ack := Wrap32(n.ack + |s.data|), internetOk := true, events := n.events + [HttpResponse(n.resolvedIp)])
      else n.(ack := Wrap32(n.ack + |s.data|))
  {
    hide HasHttp, Wrap32;
  }

  lemma WrapSame(a: dword)
    ensures Wrap32(a + 0) == a
  {
  }

  lemma SegmentAnswered(n: Net, from: Mac, id: word, s: Segment, link: Link)
    requires n.configured && n.sending && n.gatewayKnown && n.resolvedIp != 0 && n.established
    requires |s.data| <= 1400 && s.srcPort == 80 && s.dstPort == n.port
    ensures Next(n, Receive(SiteSegment(n, from, id, s), link)) == Taken(n, s)
  {
    hide OnFrame, SendTcp, PutIp, SiteSegment, Ticked, TcpPacket, OnFin, OnData, Expects, Has, HasHttp;
    SegmentHeard(n, from, id, s, link);
    NotedIs(n, s);
    TcpPut(Noted(n, s), ACK, [], link);
  }

  // ------------------------------------------------------------------ the whole exchange

  /** What the server, the gateway, the name server and the site say. */
  datatype World = World(from: Mac, server: dword, siaddr: dword, ip: dword, offer: seq<Item>, ack: seq<Item>,
                         gateway: Mac, flags: word, questions: seq<D.Question>, records: seq<D.Record>, tail: Bytes,
                         site: dword, irs: dword, response: Bytes)

  /** The name server's reply to the query with this id. */
  function ReplyOf(w: World, dnsId: word): Bytes
    requires D.AsksOk(w.questions) && D.AllOk(w.records) && |w.questions| < 0x1_0000 && |w.records| < 0x1_0000
  {
    D.Message(dnsId, w.flags, w.questions, w.records, 0, w.tail)
  }

  /** An offer and an acknowledgement from a server, a reply whose first address is the site's, and an HTTP response. */
  predicate Works(w: World, dnsId: word) {
    && w.ip != 0 && Sendable(w.offer) && Sendable(w.ack) && TypeGiven(w.offer, 0) == 2 && TypeGiven(w.ack, 0) == 5
    && Or(Given(w.offer, 54, 0), w.siaddr) != 0
    && D.AsksOk(w.questions) && D.AllOk(w.records) && |w.questions| < 0x1_0000 && |w.records| < 0x1_0000
    && |ReplyOf(w, dnsId)| <= 1400 && w.flags >= 0x8000 && D.FirstOf(w.records) == Address(w.site) && w.site != 0
    && |w.response| <= 1400 && HasHttp(w.response)
  }

  /** The stack with the lease that the server describes. */
  function WithLease(n: Net, w: World): Net {
    var server, o := Or(Given(w.offer, 54, 0), w.siaddr), Said(w.offer, NO_OPTIONS);
    Granted(Asked(n, w.ip, server, o), LeaseOf(w.ip, server, o, Said(w.ack, NO_OPTIONS)))
  }

  function Response(n: Net, w: World): Segment {
    Segment(80, n.port, n.ack, n.seqno, PSH_ACK, w.response)
  }

  /** What stays from the start to the dialled connection, and what is set on the way. */
  predicate Ready(n: Net, q: Net) {
    && q.configured && q.sending && q.dnsId == n.dnsId && q.port == n.port && q.internetOk == n.internetOk
    && q.established == n.established
  }

  lemma LeaseReady(n: Net, w: World)
    requires n.sending && Works(w, n.dnsId)
    ensures Ready(n, WithLease(n, w)) && WithLease(n, w).events == n.events + [DhcpOffer(w.ip)] + [DhcpBound(w.ip)]
    ensures |WithLease(n, w).sent| == |n.sent| + 2
  {
    hide Frame, ArpFrame, RequestPacket, Works;
  }

  lemma RoutedReady(n: Net, q: Net, g: Mac)
    requires Ready(n, q)
    ensures Ready(n, Routed(q, g)) && Routed(q, g).gatewayKnown
    ensures Routed(q, g).events == q.events + [GatewayResolved(q.lease.gateway)] && |Routed(q, g).sent| == |q.sent| + 2
  {
    hide Frame, PingPacket, QueryPacket;
  }

  lemma DialledReady(n: Net, q: Net, site: dword)
    requires Ready(n, q)
    ensures var d := Dialled(q, site);
      && Ready(n, d) && d.gatewayKnown == q.gatewayKnown && d.resolvedIp == site && d.synSent
      && d.events == q.events + [DnsResolved(site)] && |d.sent| == |q.sent| + 1
  {
    hide Frame, TcpPacket;
  }

  lemma OpenedReady(q: Net, irs: dword)
    ensures var d := Opened(q, irs);
      && d.configured == q.configured && d.sending == q.sending && d.gatewayKnown == q.gatewayKnown && d.established
      && d.resolvedIp == q.resolvedIp && d.port == q.port && d.internetOk == q.internetOk && d.httpSent
      && d.events == q.events + [TcpConnected(q.resolvedIp)] && |d.sent| == |q.sent| + 2
  {
    hide Frame, TcpPacket, HttpGet;
    GetFits();
  }

  lemma ResponseTaken(q: Net, w: World)
    requires |w.response| <= 1400 && HasHttp(w.response) && !q.internetOk
    ensures var e := Taken(q, Response(q, w));
      && e.internetOk && e.events == q.events + [HttpResponse(q.resolvedIp)] && |e.sent| == |q.sent| + 1
      && e.ack == Wrap32(q.ack + |w.response|) && e.established == q.established && e.httpSent == q.httpSent
  {
    hide Frame, TcpPacket;
  }

  lemma StartsQuiet(mac: Mac, seed: dword, link: Link)
    requires mac != ZERO_MAC
    ensures var n := Started(mac, true, seed, link).0;
      !n.established && !n.internetOk && n.events == [DhcpDiscover(n.xid)] && |n.sent| == 1
  {
    hide Xor, UdpBytes, Frame, Discover;
  }

  /**
   The exchange the stack is for, from every start on: six frames later the site has
   answered, each name and number the one that was given, the events in their order, and
   nine frames have been sent, which `Asked`, `Granted`, `Routed`, `Dialled`, `Opened` and
   `Taken` spell out.
   */
  lemma WholeExchange(mac: Mac, seed: dword, link: Link, w: World)
    requires mac != ZERO_MAC && forall f :: link(f)
    requires Works(w, Started(mac, true, seed, link).0.dnsId)
    ensures var n := Started(mac, true, seed, link).0;
            var a := WithLease(n, w);
            var b := Routed(a, w.gateway);
            var c := Dialled(b, w.site);
            var d := Opened(c, w.irs);
            var run := [] + [Receive(FromServer(w.from, w.server, n.xid, w.ip, w.siaddr, w.offer), link)]
                       + [Receive(FromServer(w.from, w.server, n.xid, w.ip, w.siaddr, w.ack), link)]
                       + [Receive(GatewayReply(a, w.gateway), link)]
                       + [Receive(NameReply(b, w.gateway, 1, ReplyOf(w, n.dnsId)), link)]
                       + [Receive(SiteSegment(c, w.gateway, 2, Segment(80, c.port, w.irs, c.seqno, 0x12, [])), link)]
                       + [Receive(SiteSegment(d, w.gateway, 3, Response(d, w)), link)];
            var q := After(n, run);
      && q == Taken(d, Response(d, w)) && q.established && q.httpSent && q.internetOk && |q.sent| == 9
      && q.events == [DhcpDiscover(n.xid), DhcpOffer(w.ip), DhcpBound(w.ip), GatewayResolved(a.lease.gateway),
                      DnsResolved(w.site), TcpConnected(w.site), HttpResponse(w.site)]
  {
    hide Started, After, FromServer, GatewayReply, NameReply, SiteSegment, WithLease, Routed, Dialled, Opened, Taken, Next,
         ReplyOf, Resolved, HasHttp, Said, Given, TypeGiven, Sendable, Asked, Granted, LeaseOf;
    var n := Started(mac, true, seed, link).0;
    var a := WithLease(n, w);
    var b := Routed(a, w.gateway);
    var c := Dialled(b, w.site);
    var d := Opened(c, w.irs);
    StartsBare(mac, true, seed, link);
    StartsQuiet(mac, seed, link);
    LeaseIsTaken(mac, seed, link, w);
    LeaseReady(n, w);
    RoutedReady(n, a, w.gateway);
    DialledReady(n, b, w.site);
    OpenedReady(c, w.irs);
    ResponseTaken(d, w);
    var r2 := [] + [Receive(FromServer(w.from, w.server, n.xid, w.ip, w.siaddr, w.offer), link)]
              + [Receive(FromServer(w.from, w.server, n.xid, w.ip, w.siaddr, w.ack), link)];
    var i3 := Receive(GatewayReply(a, w.gateway), link);
    var i4 := Receive(NameReply(b, w.gateway, 1, ReplyOf(w, n.dnsId)), link);
    var i5 := Receive(SiteSegment(c, w.gateway, 2, Segment(80, c.port, w.irs, c.seqno, 0x12, [])), link);
    var i6 := Receive(SiteSegment(d, w.gateway, 3, Response(d, w)), link);
    AfterOne(n, r2, i3);
    AfterOne(n, r2 + [i3], i4);
    AfterOne(n, r2 + [i3] + [i4], i5);
    AfterOne(n, r2 + [i3] + [i4] + [i5], i6);
    GatewayAnswered(a, w.gateway, link);
    ReplyRead(w, n.dnsId);
    NameAnswered(b, w.gateway, 1, ReplyOf(w, n.dnsId), w.site, link);
    SynAckAnswered(c, w.gateway, 2, w.irs, link);
    SegmentAnswered(d, w.gateway, 3, Response(d, w), link);
  }

  lemma ReplyRead(w: World, dnsId: word)
    requires Works(w, dnsId)
    ensures var p := ReplyOf(w, dnsId);
      12 <= |p| <= 1400 && Read16(p, 0) == dnsId && Read16(p, 2) >= 0x8000 && Resolved(p) == Address(w.site)
  {
    hide Resolved, D.Message, Said, Sendable, TypeGiven, Given, HasHttp;
    D.AnswerFound(dnsId, w.flags, w.questions, w.records, 0, w.tail);
  }

  lemma LeaseIsTaken(mac: Mac, seed: dword, link: Link, w: World)
    requires mac != ZERO_MAC && Works(w, Started(mac, true, seed, link).0.dnsId)
    ensures var n := Started(mac, true, seed, link).0;
            var run := [] + [Receive(FromServer(w.from, w.server, n.xid, w.ip, w.siaddr, w.offer), link)]
                       + [Receive(FromServer(w.from, w.server, n.xid, w.ip, w.siaddr, w.ack), link)];
      After(n, run) == WithLease(n, w)
  {
    hide Started, After, FromServer, ReplyOf, Resolved, HasHttp, Said, Given, TypeGiven, Sendable, Asked, Granted, LeaseOf;
    LeaseTaken(mac, seed, link, w.from, w.server, w.ip, w.siaddr, w.offer, w.ack);
  }

  /** 192.168.1.2 with the router 192.168.1.1, the name server 8.8.8.8 and a day's lease; an alias before the address. */
  function Ordinary(): World {
    World([2, 0, 0, 0, 0, 1], 0xC0A8_0101, 0, 0xC0A8_0102, Said53(2), Said53(5), [2, 0, 0, 0, 0, 1], 0x8180,
          [D.Question(D.Name([[101], [99]], None), 1, 1)],
          [D.Record(D.Name([], Some(0xC00C)), 5, 1, 60, [1, 102, 0]), D.Record(D.Name([], Some(0xC023)), 1, 1, 60, [93, 184, 216, 34])],
          [], 0x5DB8_D822, 1000, HTTP + [49])
  }

  function Said53(kind: byte): seq<Item> {
    [Option(53, [kind])] + [Option(54, [192, 168, 1, 1])] + [Option(1, [255, 255, 255, 0])] + [Option(3, [192, 168, 1, 1])]
    + [Option(6, [8, 8, 8, 8])] + [Option(51, [0, 1, 0x51, 0x80])]
  }

  lemma OneSaid(items: seq<Item>, i: Item, code: byte)
    ensures Given(items + [i], code, 0) == if Gives(i, code, 4) then Read32(i.value, 0) else Given(items, code, 0)
    ensures TypeGiven(items + [i], 0) == if Gives(i, 53, 1) then i.value[0] else TypeGiven(items, 0)
    ensures AllOk(items) && ItemOk(i) ==>
      AllOk(items + [i]) && |ItemsBytes(items + [i])| == |ItemsBytes(items)| + |ItemBytes(i)|
  {
    assert (items + [i])[..|items|] == items;
  }

  lemma SaidIs(kind: byte)
    ensures Sendable(Said53(kind)) && TypeGiven(Said53(kind), 0) == kind && Given(Said53(kind), 54, 0) == 0xC0A8_0101
    ensures Given(Said53(kind), 3, 0) == 0xC0A8_0101 && Given(Said53(kind), 6, 0) == 0x0808_0808
  {
    hide Given, TypeGiven, AllOk, ItemsBytes;
    var s0, s1 := [Option(53, [kind])], [Option(53, [kind])] + [Option(54, [192, 168, 1, 1])];
    var s2 := s1 + [Option(1, [255, 255, 255, 0])];
    var s3 := s2 + [Option(3, [192, 168, 1, 1])];
    var s4 := s3 + [Option(6, [8, 8, 8, 8])];
    assert [] + s0 == s0;
    NothingSaid();
    forall code: byte | code in {3, 6, 54} ensures
      && Given(s1, code, 0) == (if code == 54 then 0xC0A8_0101 else Given([], code, 0))
      && Given(Said53(kind), code, 0) == if code == 6 then 0x0808_0808 else 0xC0A8_0101
    {
      OneSaid([], Option(53, [kind]), code);
      OneSaid(s0, Option(54, [192, 168, 1, 1]), code);
      OneSaid(s1, Option(1, [255, 255, 255, 0]), code);
      OneSaid(s2, Option(3, [192, 168, 1, 1]), code);
      OneSaid(s3, Option(6, [8, 8, 8, 8]), code);
      OneSaid(s4, Option(51, [0, 1, 0x51, 0x80]), code);
    }
    OneSaid([], Option(53, [kind]), 1);
    OneSaid(s0, Option(54, [192, 168, 1, 1]), 1);
    OneSaid(s1, Option(1, [255, 255, 255, 0]), 1);
    OneSaid(s2, Option(3, [192, 168, 1, 1]), 1);
    OneSaid(s3, Option(6, [8, 8, 8, 8]), 1);
    OneSaid(s4, Option(51, [0, 1, 0x51, 0x80]), 1);
  }

  lemma NothingSaid()
    ensures AllOk([]) && ItemsBytes([]) == []
  {
  }

  /** Such a world exists, whatever id the query has. */
  lemma OrdinaryWorks(dnsId: word)
    ensures Works(Ordinary(), dnsId)
  {
    hide Said53, Given, TypeGiven, Sendable, D.NameBytes;
    var w := Ordinary();
    SaidIs(2);
    SaidIs(5);
    OrdinaryReply(w, dnsId);
    assert HttpAt(w.response, 0);
  }

  lemma OrdinaryReply(w: World, dnsId: word)
    requires w == Ordinary()
    ensures D.AsksOk(w.questions) && D.AllOk(w.records)
    ensures |ReplyOf(w, dnsId)| <= 1400 && D.FirstOf(w.records) == Address(w.site)
  {
    hide Said53;
    assert w.records[1..] == [w.records[1]] && w.records[1..][1..] == [];
    assert w.questions[1..] == [];
    var labels: seq<Bytes> := w.questions[0].name.labels;
    assert |labels[1..]| == 1 && labels[1..][0] == [99] && |labels[1..][1..]| == 0;
  }

  // ------------------------------------------------------------- requests and renewals

  /** A request for the stack's own address is answered to the one who asked, with the stack's hardware address. */
  lemma ArpAnswered(n: Net, from: Mac, ip: dword, link: Link)
    requires n.configured && n.sending
    ensures var reply := ArpFrame(from, n.mac, 2, n.lease.ip, from, ip);
      && Next(n, Receive(ArpFrame(BROADCAST, from, 1, ip, ZERO_MAC, n.lease.ip), link)) == Put(n, reply)
      && reply[..6] == from && ParseArp(reply[14..]) == Some(Arp(2, n.mac, n.lease.ip, ip))
  {
    hide OnGateway, OnIpv4, ArpFrame, ParseArp, Ticked;
    ArpReads(BROADCAST, from, 1, ip, ZERO_MAC, n.lease.ip);
    ArpReads(from, n.mac, 2, n.lease.ip, from, ip);
  }

  /** The transaction id of the renewal that falls due at this age. */
  function RenewXid(n: Net): dword {
    Xor(Xor(n.xid, n.age), 0x5245_4E45)
  }

  /** One second later the lease is half over, and its server is asked to renew it. */
  function Renewing(n: Net): Net {
    var q := n.(age := Wrap32(n.age + 1), renewals := n.renewals + [Wrap32(n.age + 1)]);
    var r := q.(xid := RenewXid(q), renewing := true, waited := 0);
    PutIp(r, n.gatewayMac, Packet(n.lease.ip, n.lease.server, UDP,
                                  UdpBytes(n.lease.ip, n.lease.server, 68, 67, Renew(r.xid, n.mac, n.lease.ip))))
  }

  lemma RenewalAsked(n: Net, link: Link)
    requires n.sending && n.configured && n.gatewayKnown && n.lease.server != 0 && n.lease.seconds >= 2
    requires Wrap32(n.age + 1) == n.lease.seconds / 2
    ensures Next(n, Tick(link)) == Renewing(n)
  {
    hide SendUdp, PutIp, UdpBytes, Renew, Xor, OnFrame, SendDiscover;
    var q := n.(age := Wrap32(n.age + 1), renewals := n.renewals + [Wrap32(n.age + 1)]);
    var r := q.(xid := RenewXid(q), renewing := true, waited := 0);
    UdpPut(r, n.lease.server, 68, 67, Renew(r.xid, n.mac, n.lease.ip), n.gatewayMac, link);
    PutFields(r, n.gatewayMac, Packet(n.lease.ip, n.lease.server, UDP,
                                      UdpBytes(n.lease.ip, n.lease.server, 68, 67, Renew(r.xid, n.mac, n.lease.ip))));
  }

  /** An acknowledgement of a renewal that says nothing new keeps the lease and starts its time afresh. */
  lemma RenewalTaken(n: Net, from: Mac, src: dword, ack: seq<Item>, link: Link)
    requires n.sending && n.configured && n.renewing && Sendable(ack) && TypeGiven(ack, 0) == 5
    requires n.lease.ip != 0 && n.lease.subnet != 0 && n.lease.gateway != 0 && n.lease.dns != 0 && n.offerServer == n.lease.server
    requires forall code: byte | code in {1, 3, 6, 51, 54} :: Given(ack, code, 0) == 0
    ensures Next(n, Receive(FromServer(from, src, n.xid, n.lease.ip, 0, ack), link)) == Granted(n, n.lease)
  {
    hide OnFrame, FromServer, Sendable, Given, TypeGiven, ArpFrame, Ticked;
    ServerHeard(n, from, src, n.lease.ip, 0, ack, link);
    assert Said(ack, NO_OPTIONS) == Options(5, 0, 0, 0, 0, 0);
  }
}
