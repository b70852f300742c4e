/**
 A TCP segment of the standalone stack (src/net_stack.cpp) can leave with source
 address 0 and the checksum of the lease address: a run from any start on. An offer
 without a server and its acknowledgement take the configuration of a bound stack
 away but leave it the gateway's hardware address, and a name reply then dials.
 */
module NetZeroSource {
  import opened Bytes
  import opened Checksum
  import opened Ipv4
  import opened NetWire
  import opened NetStack
  import opened NetRuns
  import opened NetConditions
  import opened NetChecksums

  // ------------------------------------------------------- the gateway is resolved

  /** The gateway's answer to the ARP request. */
  function Announcement(from: Mac, gateway: dword, mac: Mac, ip: dword, link: Link): Input {
    Receive(ArpFrame(BROADCAST, from, 2, gateway, mac, ip), link)
  }

  lemma PingRest(n: Net, destination: dword, id: word, sequence: word, link: Link)
    ensures var r := SendPing(n, destination, id, sequence, link).0; r == n.(sent := r.sent, ipId := r.ipId)
  {
    hide SendRaw, Echo;
    if n.configured && n.gatewayKnown {
      RawRest(n, destination, 1, Echo(id, sequence, n.seed, destination), n.gatewayMac, link);
    }
  }

  lemma QueryRest(n: Net, link: Link)
    ensures var r := SendQuery(n, link).0; r == n.(sent := r.sent, ipId := r.ipId)
  {
    hide SendUdp, Query;
    if n.configured && n.gatewayKnown {
      UdpRest(n, n.lease.dns, DnsPort(n), 53, Query(n.dnsId), n.gatewayMac, link);
    }
  }

  lemma GatewayRest(n: Net, a: Arp, link: Link)
    ensures var q := OnGateway(n, a, link).0;
      && q.gatewayKnown && q.configured == n.configured && q.lease == n.lease && q.sending == n.sending
      && q.renewing == n.renewing
  {
    hide SendPing, SendQuery, Xor;
    var q := Announce(n.(gatewayMac := a.senderMac, gatewayKnown := true), GatewayResolved(a.senderIp));
    var id := Xor(n.dnsId, 0x1111) % 0x1_0000;
    PingRest(q, n.lease.gateway, id, 1, link);
    QueryRest(SendPing(q, n.lease.gateway, id, 1, link).0, link);
  }

  lemma GatewayStep(n: Net, from: Mac, mac: Mac, ip: dword, link: Link)
    requires n.configured
    ensures var q := Next(n, Announcement(from, n.lease.gateway, mac, ip, link));
      && q.gatewayKnown && q.configured && q.lease == n.lease && q.sending == n.sending && q.renewing == n.renewing
  {
    hide OnGateway, ArpFrame, ParseArp, Transmit;
    var f := ArpFrame(BROADCAST, from, 2, n.lease.gateway, mac, ip);
    ArpReads(BROADCAST, from, 2, n.lease.gateway, mac, ip);
    assert |f| == 42 && ForUs(n, f);
    GatewayRest(n, ParseArp(f[14..]).value, link);
  }

  // ---------------------------------------------------- the configuration is taken away

  lemma SilentOfferTaken(n: Net, ip: dword, link: Link)
    requires ip != 0
    ensures OnDhcp(n, Message(n.xid, 2, ip, 0), link) == OnOffer(n, ip, 0, Options(2, 0, 0, 0, 0, 0), link)
  {
    hide OnOffer, OnAck, Walk, IsReply, Message;
    MessageHead(n.xid, 2, ip, 0);
    MessageOptions(n.xid, 2, ip, 0);
    MessageServer(Message(n.xid, 2, ip, 0), n.xid, 2, ip, 0);
  }

  lemma SilentOfferStep(n: Net, from: Mac, ip: dword, link: Link)
    requires ip != 0
    ensures var q := Next(n, Offer(from, n.xid, ip, 0, link));
      && q.lease == n.lease.(subnet := 0, gateway := 0, dns := 0, seconds := 0) && q.offeredIp == ip && q.offerServer == 0
      && q.gatewayKnown == n.gatewayKnown && q.sending == n.sending && (q.renewing ==> n.renewing)
  {
    hide OnFrame, OnDhcp, OnOffer, Message, Datagrammed, OfferOf;
    DhcpFrameTaken(n, from, n.xid, 2, ip, 0, link);
    SilentOfferTaken(n, ip, link);
    OfferRouter(n, ip, 0, Options(2, 0, 0, 0, 0, 0), link);
  }

  lemma Unbound(n: Net, ip: dword)
    requires ip != 0 && !n.renewing && n.offeredIp == ip && n.offerServer == 0 && n.lease.gateway == 0 && n.lease.dns == 0
    ensures Assigned(n, ip) == ip
    ensures var l := Acknowledged(n, ip, Options(5, 0, 0, 0, 0, 0)); l.ip == ip && l.gateway == 0
  {
  }

  lemma SilentGrantStep(n: Net, from: Mac, ip: dword, link: Link)
    requires ip != 0 && !n.renewing && n.offeredIp == ip && n.offerServer == 0 && n.lease.gateway == 0 && n.lease.dns == 0
    ensures var q := Next(n, Grant(from, n.xid, ip, 0, link));
      && !q.configured && q.lease.ip == ip && q.gatewayKnown == n.gatewayKnown && q.sending == n.sending
  {
    hide OnFrame, OnDhcp, OnAck, Message, Datagrammed, OfferOf, Acknowledged, Assigned;
    DhcpFrameTaken(n, from, n.xid, 5, ip, 0, link);
    AckTaken(n, ip, 0, link);
    Unbound(n, ip);
    AckRest(n, ip, Options(5, 0, 0, 0, 0, 0), link);
  }

  // ------------------------------------------------------------------ the dialling

  lemma NameTaken(n: Net, from: Mac, src: dword, ip: dword, link: Link)
    ensures Next(n, Named(n, from, src, ip, link)) == OnDns(n, Reply(n.dnsId, ip), link).0
  {
    hide OnArp, OnDhcp, OnDns, OnTcp, OnIcmp, Delivered, ParseUdp, ForUs, Datagrammed, Reply, DnsPort;
    DnsPortRange(n);
    DatagramReads(n, from, src, 53, DnsPort(n), Reply(n.dnsId, ip));
  }

  lemma DnsPortRange(n: Net)
    ensures DnsPort(n) != 68
  {
  }

  /** The SYN of an unconfigured stack that knows its gateway. */
  predicate SentBare(s: Sent, ip: dword, to: dword) {
    && s.configured == false && s.ip == ip && |s.frame| >= 34 && Read16(s.frame, 12) == ETHERTYPE
    && var p := Parse(s.frame[14..]);
       && p.Some? && p.value.proto == TCP && p.value.src == 0 && p.value.dst == to && |p.value.body| <= MAX_PAYLOAD
       && (Verifies(SegmentSum(0, to, TCP, p.value.body)) <==> WordSum(Be32(ip)) % 0xFFFF == 0)
  }

  lemma SynBare(n: Net, link: Link)
    requires n.resolvedIp != 0 && n.gatewayKnown && !n.configured && n.sending
    ensures var q := SendSyn(n, link).0;
      |q.sent| == |n.sent| + 1 && SentBare(q.sent[|n.sent|], n.lease.ip, n.resolvedIp)
  {
    hide TcpBytes, Frame, Parse, Verifies, SegmentSum, WordSum;
    var s := Segment(n.port, 80, n.seqno, n.ack, SYN, []);
    var p := Packet(0, n.resolvedIp, TCP, TcpBytes(n.lease.ip, n.resolvedIp, s));
    FrameParses(n.gatewayMac, n.mac, n.ipId, p);
    SentFromZero(n.lease.ip, n.resolvedIp, s);
  }

  lemma NamedStep(n: Net, from: Mac, src: dword, to: dword, link: Link)
    requires to != 0 && n.gatewayKnown && !n.configured && n.sending
    ensures var q := Next(n, Named(n, from, src, to, link));
      |q.sent| == |n.sent| + 1 && SentBare(q.sent[|n.sent|], n.lease.ip, to)
  {
    hide Next, Named, Reply, SendSyn, Resolved, SentBare;
    NameTaken(n, from, src, to, link);
    ReplyResolves(n.dnsId, to);
    SynBare(Announce(n.(resolvedIp := to), DnsResolved(to)), link);
  }

  // ----------------------------------------------------------------------- the run

  /** The six frames, each made for the state it finds. */
  function Frames(n: Net, from: Mac, ip: dword, server: dword, to: dword, link: Link): seq<Input> {
    var offer := Offer(from, n.xid, ip, server, link);
    var asked := Next(n, offer);
    var grant := Grant(from, asked.xid, ip, server, link);
    var bound := Next(asked, grant);
    var arp := Announcement(from, bound.lease.gateway, bound.mac, ip, link);
    var known := Next(bound, arp);
    var silent := Offer(from, known.xid, ip, 0, link);
    var lost := Next(known, silent);
    var revoke := Grant(from, lost.xid, ip, 0, link);
    var off := Next(lost, revoke);
    [] + [offer] + [grant] + [arp] + [silent] + [revoke] + [Named(off, from, server, to, link)]
  }

  /**
   From every start on and for every lease address: the last segment sent has source
   address 0, and verifies only if the words of the lease address sum to 0.
   */
  lemma SentFromZeroReached(mac: Mac, seed: dword, link: Link, from: Mac, ip: dword, server: dword, to: dword)
    requires mac != ZERO_MAC && ip != 0 && server != 0 && to != 0
    ensures var n := Started(mac, true, seed, link).0;
            var q := After(n, Frames(n, from, ip, server, to, link));
      q.sent != [] && SentBare(q.sent[|q.sent| - 1], ip, to)
  {
    hide Started, Next, After, Offer, Grant, Announcement, Named, SentBare, LosesRouter;
    var n := Started(mac, true, seed, link).0;
    StartsBare(mac, true, seed, link);
    Unmoved(n);
    var offer := Offer(from, n.xid, ip, server, link);
    OfferStep(n, from, ip, server, link);
    AfterOne(n, [], offer);
    var asked, run := Next(n, offer), [] + [offer];
    var grant := Grant(from, asked.xid, ip, server, link);
    GrantStep(asked, from, ip, server, link);
    AfterOne(n, run, grant);
    run := run + [grant];
    var bound := Next(asked, grant);
    var arp := Announcement(from, bound.lease.gateway, bound.mac, ip, link);
    GatewayStep(bound, from, bound.mac, ip, link);
    AfterOne(n, run, arp);
    run := run + [arp];
    var known := Next(bound, arp);
    var silent := Offer(from, known.xid, ip, 0, link);
    SilentOfferStep(known, from, ip, link);
    AfterOne(n, run, silent);
    run := run + [silent];
    var lost := Next(known, silent);
    var revoke := Grant(from, lost.xid, ip, 0, link);
    SilentGrantStep(lost, from, ip, link);
    AfterOne(n, run, revoke);
    run := run + [revoke];
    var off := Next(lost, revoke);
    NamedStep(off, from, server, to, link);
    AfterOne(n, run, Named(off, from, server, to, link));
  }

  const ORDINARY: dword := 0xC0A8_0102  // 192.168.1.2

  lemma OrdinaryLease()
    ensures WordSum(Be32(ORDINARY)) % 0xFFFF != 0
  {
    hide WordSum;
    FourBytes(Be32(ORDINARY));
  }

  /** So from every start on, an ordinary lease leads to a TCP segment that no receiver accepts. */
  lemma UnverifiableSegmentSent(mac: Mac, seed: dword, link: Link, from: Mac, server: dword, to: dword)
    requires mac != ZERO_MAC && server != 0 && to != 0
    ensures var n := Started(mac, true, seed, link).0;
            var q := After(n, Frames(n, from, ORDINARY, server, to, link));
      q.sent != [] &&
      var f := q.sent[|q.sent| - 1].frame;
      && |f| >= 34 && Parse(f[14..]).Some? && Parse(f[14..]).value.proto == TCP
      && var p := Parse(f[14..]).value; |p.body| <= MAX_PAYLOAD && !Verifies(SegmentSum(p.src, p.dst, TCP, p.body))
  {
    hide Started, Next, After, Frames, Parse, SegmentSum, Verifies, WordSum;
    SentFromZeroReached(mac, seed, link, from, ORDINARY, server, to);
    OrdinaryLease();
  }
}
