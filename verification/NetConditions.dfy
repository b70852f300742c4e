/**
 Two things one would expect of the standalone stack (src/net_stack.cpp) and that
 hold only under a condition: a configured stack has a gateway, and a name is
 resolved only after a query for it. For each the exact condition over all runs, and
 a run from the start on that breaks it.
 */
module NetConditions {
  import opened Bytes
  import opened Checksum
  import opened Ipv4
  import opened NetWire
  import opened NetStack
  import opened NetRuns

  // ----------------------------------------------------- what sending leaves alone

  lemma RawRest(n: Net, dst: dword, proto: byte, payload: Bytes, to: Mac, link: Link)
    ensures var r := SendRaw(n, dst, proto, payload, to, link).0; r == n.(sent := r.sent, ipId := r.ipId)
  {
    hide Frame;
  }

  lemma UdpRest(n: Net, dst: dword, srcPort: word, dstPort: word, payload: Bytes, to: Mac, link: Link)
    ensures var r := SendUdp(n, dst, srcPort, dstPort, payload, to, link).0; r == n.(sent := r.sent, ipId := r.ipId)
  {
    hide SendRaw, UdpBytes;
    if |payload| <= 1400 {
      RawRest(n, dst, UDP, UdpBytes(Source(n), dst, srcPort, dstPort, payload), to, link);
    }
  }

  lemma RequestRest(n: Net, link: Link)
    ensures var r := SendRequest(n, link).0;
      r == n.(requested := r.requested, renewing := r.renewing, waited := r.waited, sent := r.sent, ipId := r.ipId)
      && (r.renewing ==> n.renewing)
  {
    hide SendUdp, Request;
    if n.offeredIp != 0 && n.offerServer != 0 {
      var q := n.(requested := true, renewing := false, waited := 0);
      UdpRest(q, 0xFFFF_FFFF, 68, 67, Request(n.xid, n.mac, n.offeredIp, n.offerServer), BROADCAST, link);
    }
  }

  lemma DiscoverRest(n: Net, link: Link)
    ensures var r := SendDiscover(n, link).0;
      r == n.(requested := false, renewing := false, waited := 0, events := r.events, sent := r.sent, ipId := r.ipId)
  {
    hide SendUdp, Discover;
    var q := Announce(n.(requested := false, renewing := false, waited := 0), DhcpDiscover(n.xid));
    UdpRest(q, 0xFFFF_FFFF, 68, 67, Discover(n.xid, n.mac), BROADCAST, link);
  }

  // -------------------------------------------------------- the gateway of a lease

  predicate HasRouter(n: Net) {
    n.configured ==> n.lease.gateway != 0
  }

  function DhcpData(n: Net, frame: Bytes): Bytes
    requires IsDhcp(n, frame)
  {
    ParseUdp(Delivered(n, frame[14..]).value.body).value.data
  }

  /** The options of the offer that a frame brings the stack, if it does. */
  function OfferOf(n: Net, frame: Bytes): Option<Options> {
    if !IsDhcp(n, frame) then None
    else
      var p := DhcpData(n, frame);
      var o := Walk(p, 240, NO_OPTIONS);
      if o.msg == 2 && Read32(p, 16) != 0 then Some(o) else None
  }

  /** An offer without a router reaches a configured stack. */
  predicate LosesRouter(n: Net, i: Input) {
    i.Receive? && n.configured && OfferOf(n, i.frame).Some? && OfferOf(n, i.frame).value.router == 0
  }

  lemma OfferRouter(n: Net, yiaddr: dword, server: dword, o: Options, link: Link)
    ensures var q := OnOffer(n, yiaddr, server, o, link).0;
      q.configured == n.configured && q.lease == n.lease.(subnet := o.subnet, gateway := o.router, dns := o.dns, seconds := o.lease)
      && q.offeredIp == yiaddr && q.offerServer == server && q.xid == n.xid && (q.renewing ==> n.renewing)
      && q.gatewayKnown == n.gatewayKnown && q.sending == n.sending
  {
    hide SendRequest;
    var l := n.lease.(subnet := o.subnet, gateway := o.router, dns := o.dns, seconds := o.lease);
    RequestRest(Announce(n.(waited := 0, offeredIp := yiaddr, offerServer := server, lease := l), DhcpOffer(yiaddr)), link);
  }

  lemma ArpRest(n: Net, target: dword, link: Link)
    ensures var r := SendArp(n, target, link).0; r == n.(sent := r.sent)
  {
    hide ArpFrame;
  }

  lemma AckRest(n: Net, yiaddr: dword, o: Options, link: Link)
    ensures var ip := Assigned(n, yiaddr);
            var l := Acknowledged(n, ip, o);
            var q := OnAck(n, yiaddr, o, link).0;
      if ip == 0 then q == n
      else q.lease == l && q.xid == n.xid && (q.configured <==> l.ip != 0 && l.gateway != 0 && l.dns != 0)
           && !q.renewing && q.gatewayKnown == n.gatewayKnown && q.sending == n.sending
  {
    hide OnAck, SendArp, Acknowledged, Assigned;
    AckIs(n, yiaddr, o, link);
    var q := Bound(n, Acknowledged(n, Assigned(n, yiaddr), o));
    ArpRest(Announce(q, DhcpBound(q.lease.ip)), q.lease.gateway, link);
  }

  lemma TickRouter(n: Net, link: Link)
    requires HasRouter(n)
    ensures HasRouter(Ticked(n, link))
  {
    hide SendRequest, SendDiscover, Aged;
    if n.sending && !n.configured {
      RequestRest(n.(waited := 0), link);
      DiscoverRest(n.(waited := 0), link);
    } else if n.sending && n.lease.seconds != 0 {
      AgedRest(n, link);
      DiscoverRest(Expired(Aged(n, link)), link);
    }
  }

  lemma AgedRest(n: Net, link: Link)
    ensures Aged(n, link).configured == n.configured && Aged(n, link).lease == n.lease
    ensures Names(Aged(n, link).events) == Names(n.events)
  {
    hide SendUdp, Renew, Xor;
    var a := n.(age := Wrap32(n.age + 1));
    var b := a.(renewals := a.renewals + [a.age]);
    var q := b.(xid := Xor(Xor(b.xid, b.age), 0x5245_4E45), renewing := true, waited := 0);
    UdpRest(q, b.lease.server, 68, 67, Renew(q.xid, b.mac, b.lease.ip), b.gatewayMac, link);
  }

  lemma DhcpRouter(n: Net, p: Bytes, link: Link)
    requires HasRouter(n) && IsReply(p, n.xid)
    ensures var o := Walk(p, 240, NO_OPTIONS);
      HasRouter(OnDhcp(n, p, link).0) <==> !(n.configured && o.msg == 2 && Read32(p, 16) != 0 && o.router == 0)
  {
    hide OnOffer, OnAck, Walk, Acknowledged, Assigned;
    var o, yiaddr := Walk(p, 240, NO_OPTIONS), Read32(p, 16);
    OfferRouter(n, yiaddr, Or(o.server, Read32(p, 20)), o, link);
    AckRest(n, yiaddr, o, link);
  }

  lemma FrameRouter(n: Net, frame: Bytes, link: Link)
    requires HasRouter(n)
    ensures HasRouter(OnFrame(n, frame, link).0) <==> !LosesRouter(n, Receive(frame, link))
  {
    hide HasRouter, OnFrame, IsReply, OnDhcp, Walk, ParseUdp, Delivered;
    if IsDhcp(n, frame) {
      DhcpTaken(n, frame, link);
      DhcpRouter(n, DhcpData(n, frame), link);
    } else {
      FrameKeepsClock(n, frame, link);
      SameRouter(n, OnFrame(n, frame, link).0);
    }
  }

  lemma DhcpTaken(n: Net, frame: Bytes, link: Link)
    requires IsDhcp(n, frame)
    ensures OnFrame(n, frame, link) == OnDhcp(n, DhcpData(n, frame), link) && IsReply(DhcpData(n, frame), n.xid)
  {
    hide OnArp, OnDhcp, OnDns, OnTcp, OnIcmp, IsReply, Delivered, ParseUdp;
  }

  lemma SameRouter(n: Net, q: Net)
    requires ClockOf(q) == ClockOf(n)
    ensures HasRouter(q) == HasRouter(n)
  {
    hide Discovers;
  }

  /** One second or one frame leaves a configured stack without a gateway only as an offer without a router. */
  lemma RouterStep(n: Net, i: Input)
    requires HasRouter(n)
    ensures HasRouter(Next(n, i)) <==> !LosesRouter(n, i)
  {
    hide HasRouter, OfferOf, Ticked, OnFrame;
    match i {
      case Tick(link) => TickRouter(n, link);
      case Receive(frame, link) => FrameRouter(n, frame, link);
    }
  }

  lemma AfterNext(n: Net, run: seq<Input>, k: nat)
    requires k < |run|
    ensures After(n, run[..k + 1]) == Next(After(n, run[..k]), run[k])
  {
    hide Next;
    assert run[..k + 1][..k] == run[..k];
  }

  ghost predicate RouterThroughout(n: Net, run: seq<Input>) {
    forall k {:trigger run[..k]} :: 0 <= k <= |run| ==> HasRouter(After(n, run[..k]))
  }

  ghost predicate NeverLosesRouter(n: Net, run: seq<Input>) {
    forall k {:trigger run[..k]} :: 0 <= k < |run| ==> !LosesRouter(After(n, run[..k]), run[k])
  }

  lemma {:induction false} RouterUpTo(n: Net, run: seq<Input>, k: nat)
    requires HasRouter(n) && NeverLosesRouter(n, run) && k <= |run|
    ensures HasRouter(After(n, run[..k]))
  {
    hide Next, HasRouter, LosesRouter;
    if k > 0 {
      RouterUpTo(n, run, k - 1);
      AfterNext(n, run, k - 1);
      RouterStep(After(n, run[..k - 1]), run[k - 1]);
    }
  }

  /**
   In every run since the start: at every moment a configured stack has a gateway,
   exactly when no offer without a router reached it while it was configured.
   */
  lemma {:induction false} RouterIff(mac: Mac, hasSend: bool, seed: dword, link: Link, run: seq<Input>)
    ensures var n := Started(mac, hasSend, seed, link).0; RouterThroughout(n, run) <==> NeverLosesRouter(n, run)
  {
    hide Next, LosesRouter, Started, HasRouter, After;
    var n := Started(mac, hasSend, seed, link).0;
    StartsBare(mac, hasSend, seed, link);
    Unrouted(n);
    if NeverLosesRouter(n, run) {
      forall k | 0 <= k <= |run| ensures HasRouter(After(n, run[..k])) {
        RouterUpTo(n, run, k);
      }
    } else {
      var k :| 0 <= k < |run| && LosesRouter(After(n, run[..k]), run[k]);
      AfterNext(n, run, k);
      if HasRouter(After(n, run[..k])) {
        RouterStep(After(n, run[..k]), run[k]);
        assert !HasRouter(After(n, run[..k + 1]));
      }
    }
  }

  lemma Unrouted(n: Net)
    ensures !n.configured ==> HasRouter(n)
  {
  }

  lemma StartsBare(mac: Mac, hasSend: bool, seed: dword, link: Link)
    ensures var n := Started(mac, hasSend, seed, link).0;
      !n.configured && n.lease == NO_LEASE && !n.renewing && n.offeredIp == 0
      && (mac != ZERO_MAC && hasSend ==> n.sending)
  {
    hide SendDiscover, Xor;
    DiscoverRest(Seeded(mac, seed), link);
  }

  // ----------------------------------------------------------- a run that loses it

  /** A DHCP reply that carries the message type and the server. */
  function Message(xid: dword, msg: byte, yiaddr: dword, server: dword): (r: Bytes)
    ensures |r| == 250
  {
    [2, 1, 6, 0] + Be32(xid) + Zeros(8) + Be32(yiaddr) + Zeros(216) + COOKIE + [53, 1, msg, 54, 4] + Be32(server) + [255]
  }

  lemma MessageHead(xid: dword, msg: byte, yiaddr: dword, server: dword)
    ensures var p := Message(xid, msg, yiaddr, server);
      IsReply(p, xid) && Read32(p, 16) == yiaddr
  {
    hide Be32;
    var p := Message(xid, msg, yiaddr, server);
    var a, b := [2, 1, 6, 0] + Be32(xid), Be32(yiaddr);
    assert p[4..8] == Be32(xid) && p[16..20] == b && p[236..240] == COOKIE;
    ReadSlice(p, 4);
    ReadSlice(p, 16);
  }

  /** No message of these names a server in its fixed part. */
  lemma MessageServer(p: Bytes, xid: dword, msg: byte, yiaddr: dword, server: dword)
    requires p == Message(xid, msg, yiaddr, server)
    ensures Read32(p, 20) == 0
  {
    hide Be32, Read32;
    assert forall k :: 20 <= k < 24 ==> p[k] == 0;
    ZeroWord(p, 20);
  }

  lemma ZeroWord(p: Bytes, o: nat)
    requires o + 4 <= |p| && forall k :: o <= k < o + 4 ==> p[k] == 0
    ensures Read32(p, o) == 0
  {
  }

  lemma ReadSlice(p: Bytes, o: nat)
    requires o + 4 <= |p|
    ensures Read32(p, o) == Read32(p[o..o + 4], 0)
  {
  }

  lemma MessageOptions(xid: dword, msg: byte, yiaddr: dword, server: dword)
    ensures Walk(Message(xid, msg, yiaddr, server), 240, NO_OPTIONS) == Options(msg, 0, 0, 0, server, 0)
  {
    hide Be32, Walk;
    var p := Message(xid, msg, yiaddr, server);
    assert p[240..] == [53, 1, msg, 54, 4] + Be32(server) + [255];
    assert forall i :: 240 <= i < 250 ==> p[i] == p[240..][i - 240];
    assert p[245..249] == Be32(server);
    ReadSlice(p, 245);
    WalkOne(p, 240, NO_OPTIONS);
    WalkOne(p, 243, NO_OPTIONS.(msg := msg));
    WalkOne(p, 249, Options(msg, 0, 0, 0, server, 0));
  }

  lemma WalkOne(p: Bytes, o: nat, acc: Options)
    requires o < |p|
    ensures Walk(p, o, acc) ==
      if p[o] == 255 then acc
      else if p[o] == 0 then Walk(p, o + 1, acc)
      else if o + 1 >= |p| || o + 2 + p[o + 1] > |p| then acc
      else Walk(p, o + 2 + p[o + 1], WithOption(acc, p, p[o], o + 2, p[o + 1]))
  {
  }

  /** A broadcast frame with a datagram. */
  function Datagrammed(from: Mac, src: dword, srcPort: word, dstPort: word, data: Bytes): Bytes
    requires |data| <= 1400
  {
    Frame(BROADCAST, from, 1, DatagramPacket(src, srcPort, dstPort, data))
  }

  function DatagramPacket(src: dword, srcPort: word, dstPort: word, data: Bytes): (p: Packet)
    requires |data| <= 1400
    ensures |p.body| == 8 + |data|
  {
    Packet(src, 0xFFFF_FFFF, UDP, UdpBytes(src, 0xFFFF_FFFF, srcPort, dstPort, data))
  }

  lemma DatagramReads(n: Net, from: Mac, src: dword, srcPort: word, dstPort: word, data: Bytes)
    requires |data| <= 1400
    ensures var f := Datagrammed(from, src, srcPort, dstPort, data);
      && |f| >= 34 && ForUs(n, f) && Read16(f, 12) == ETHERTYPE
      && Delivered(n, f[14..]) == Some(Packet(src, 0xFFFF_FFFF, UDP, UdpBytes(src, 0xFFFF_FFFF, srcPort, dstPort, data)))
      && ParseUdp(UdpBytes(src, 0xFFFF_FFFF, srcPort, dstPort, data)) == Some(Datagram(srcPort, dstPort, data))
  {
    hide UdpBytes, Frame, Parse;
    var u := UdpBytes(src, 0xFFFF_FFFF, srcPort, dstPort, data);
    FrameParses(BROADCAST, from, 1, Packet(src, 0xFFFF_FFFF, UDP, u));
    UdpVerifies(src, 0xFFFF_FFFF, srcPort, dstPort, data);
    assert u[8..|u|] == u[8..];
    Unfragmented(BROADCAST, from, 1, Packet(src, 0xFFFF_FFFF, UDP, u));
  }

  lemma Unfragmented(to: Mac, from: Mac, id: word, p: Packet)
    requires |p.body| <= MAX_PAYLOAD
    ensures Read16(Frame(to, from, id, p)[14..], 6) == 0x4000
  {
    hide Header;
    var h := Header(id, 20 + |p.body|, p.proto, p.src, p.dst);
    HeaderFields(id, 20 + |p.body|, p.proto, p.src, p.dst);
    assert Frame(to, from, id, p)[14..] == h + p.body;
    ReadAppend(h, p.body, 6);
  }

  lemma DhcpFrameTaken(n: Net, from: Mac, xid: dword, msg: byte, yiaddr: dword, server: dword, link: Link)
    requires xid == n.xid
    ensures var f := Datagrammed(from, server, 67, 68, Message(xid, msg, yiaddr, server));
      && OnFrame(n, f, link) == OnDhcp(n, Message(xid, msg, yiaddr, server), link)
      && OfferOf(n, f) == if msg == 2 && yiaddr != 0 then Some(Options(msg, 0, 0, 0, server, 0)) else None
  {
    hide OnFrame, OnDhcp, Walk, IsReply, Message, Delivered, ParseUdp, ForUs, Datagrammed;
    var p := Message(xid, msg, yiaddr, server);
    var f := Datagrammed(from, server, 67, 68, p);
    MessageHead(xid, msg, yiaddr, server);
    MessageOptions(xid, msg, yiaddr, server);
    DatagramReads(n, from, server, 67, 68, p);
    DhcpTaken(n, f, link);
  }

  lemma OfferTaken(n: Net, ip: dword, server: dword, link: Link)
    requires ip != 0 && server != 0
    ensures OnDhcp(n, Message(n.xid, 2, ip, server), link)
         == OnOffer(n, ip, server, Options(2, 0, 0, 0, server, 0), link)
  {
    hide OnOffer, OnAck, Walk, IsReply, Message;
    MessageHead(n.xid, 2, ip, server);
    MessageOptions(n.xid, 2, ip, server);
  }

  lemma AckTaken(n: Net, ip: dword, server: dword, link: Link)
    ensures OnDhcp(n, Message(n.xid, 5, ip, server), link)
         == OnAck(n, ip, Options(5, 0, 0, 0, server, 0), link)
  {
    hide OnOffer, OnAck, Walk, IsReply, Message;
    MessageHead(n.xid, 5, ip, server);
    MessageOptions(n.xid, 5, ip, server);
  }

  lemma BoundByServer(n: Net, ip: dword, server: dword)
    requires ip != 0 && server != 0 && !n.renewing && n.offeredIp == ip
    requires n.lease.subnet == n.lease.gateway == n.lease.dns == n.lease.seconds == 0
    ensures Assigned(n, ip) == ip
    ensures Acknowledged(n, ip, Options(5, 0, 0, 0, server, 0)) == Lease(ip, 0xFFFF_FF00, server, server, server, 0)
  {
  }

  function Offer(from: Mac, xid: dword, ip: dword, server: dword, link: Link): Input {
    Receive(Datagrammed(from, server, 67, 68, Message(xid, 2, ip, server)), link)
  }

  function Grant(from: Mac, xid: dword, ip: dword, server: dword, link: Link): Input {
    Receive(Datagrammed(from, server, 67, 68, Message(xid, 5, ip, server)), link)
  }

  lemma OfferStep(n: Net, from: Mac, ip: dword, server: dword, link: Link)
    requires ip != 0 && server != 0
    ensures var q := Next(n, Offer(from, n.xid, ip, server, link));
      && q.configured == n.configured && q.lease == n.lease.(subnet := 0, gateway := 0, dns := 0, seconds := 0)
      && q.offeredIp == ip && q.xid == n.xid && (q.renewing ==> n.renewing)
      && q.gatewayKnown == n.gatewayKnown && q.sending == n.sending
    ensures LosesRouter(n, Offer(from, n.xid, ip, server, link)) <==> n.configured
  {
    hide OnFrame, OnDhcp, OnOffer, Message, Datagrammed, OfferOf;
    DhcpFrameTaken(n, from, n.xid, 2, ip, server, link);
    OfferTaken(n, ip, server, link);
    OfferRouter(n, ip, server, Options(2, 0, 0, 0, server, 0), link);
  }

  lemma GrantStep(n: Net, from: Mac, ip: dword, server: dword, link: Link)
    requires ip != 0 && server != 0 && !n.renewing && n.offeredIp == ip
    requires n.lease.subnet == n.lease.gateway == n.lease.dns == n.lease.seconds == 0
    ensures var q := Next(n, Grant(from, n.xid, ip, server, link));
      q.configured && q.lease == Lease(ip, 0xFFFF_FF00, server, server, server, 0) && q.xid == n.xid
      && !q.renewing && q.gatewayKnown == n.gatewayKnown && q.sending == n.sending
  {
    hide OnFrame, OnDhcp, OnAck, Message, Datagrammed, OfferOf, Acknowledged, Assigned;
    DhcpFrameTaken(n, from, n.xid, 5, ip, server, link);
    AckTaken(n, ip, server, link);
    BoundByServer(n, ip, server);
    AckRest(n, ip, Options(5, 0, 0, 0, server, 0), link);
  }

  lemma AfterOne(n: Net, run: seq<Input>, i: Input)
    ensures After(n, run + [i]) == Next(After(n, run), i)
  {
    hide Next;
    assert (run + [i])[..|run|] == run;
  }

  /**
   From any start on: an offer, its acknowledgement, and the same offer once more
   leave the stack configured, with no gateway, no name server and no lease time.
   */
  lemma LateOfferOverwrites(mac: Mac, seed: dword, link: Link, from: Mac, ip: dword, server: dword)
    requires mac != ZERO_MAC && ip != 0 && server != 0
    ensures var n := Started(mac, true, seed, link).0;
            var offer, grant := Offer(from, n.xid, ip, server, link), Grant(from, n.xid, ip, server, link);
            var bound, late := After(n, [offer] + [grant]), After(n, [offer] + [grant] + [offer]);
      && bound.configured && bound.lease == Lease(ip, 0xFFFF_FF00, server, server, server, 0)
      && LosesRouter(bound, offer)
      && late.configured && late.lease == Lease(ip, 0, 0, 0, server, 0) && !HasRouter(late)
  {
    hide Started, Next, After, Offer, Grant, LosesRouter;
    var n := Started(mac, true, seed, link).0;
    StartsBare(mac, true, seed, link);
    var offer, grant := Offer(from, n.xid, ip, server, link), Grant(from, n.xid, ip, server, link);
    Unmoved(n);
    AfterOne(n, [], offer);
    assert [] + [offer] == [offer];
    AfterOne(n, [offer], grant);
    AfterOne(n, [offer] + [grant], offer);
    var asked := Next(n, offer);
    OfferStep(n, from, ip, server, link);
    GrantStep(asked, from, ip, server, link);
    OfferStep(Next(asked, grant), from, ip, server, link);
  }

  lemma Unmoved(n: Net)
    ensures After(n, []) == n
  {
  }

  // ------------------------------------------------------- names and their queries

  /** How many names were announced as resolved. */
  function Names(es: seq<NetEvent>): nat {
    if es == [] then 0 else Names(es[..|es| - 1]) + (if es[|es| - 1].DnsResolved? then 1 else 0)
  }

  lemma NamesMore(es: seq<NetEvent>, e: NetEvent)
    ensures Names(es + [e]) == Names(es) + if e.DnsResolved? then 1 else 0
  {
    assert (es + [e])[..|es|] == es;
  }

  /** The frame carries the query of the stack with this id. */
  predicate IsQuery(frame: Bytes, id: word) {
    && |frame| >= 14 && Parse(frame[14..]).Some? && Parse(frame[14..]).value.proto == UDP
    && var d := ParseUdp(Parse(frame[14..]).value.body);
       d.Some? && d.value.dstPort == 53 && d.value.data == Query(id)
  }

  predicate QuerySent(n: Net) {
    exists i :: 0 <= i < |n.sent| && IsQuery(n.sent[i].frame, n.dnsId)
  }

  /** A reply to the stack's query id that names an address. */
  predicate NamesAddress(n: Net, d: Datagram) {
    && d.srcPort == 53 && d.dstPort == DnsPort(n)
    && |d.data| >= 12 && Read16(d.data, 0) == n.dnsId && Read16(d.data, 2) >= 0x8000 && Resolved(d.data).Address?
  }

  predicate NamesPacket(n: Net, p: Option<Packet>) {
    p.Some? && p.value.proto == UDP && ParseUdp(p.value.body).Some? && NamesAddress(n, ParseUdp(p.value.body).value)
  }

  /** The input brings such a reply to the stack. */
  predicate TakesName(n: Net, i: Input) {
    && i.Receive? && |i.frame| >= 14 && ForUs(n, i.frame) && Read16(i.frame, 12) == ETHERTYPE
    && NamesPacket(n, Delivered(n, i.frame[14..]))
  }

  lemma CoreNames(n: Net, q: Net, e: NetEvent)
    ensures CoreOf(q) == Plus(CoreOf(n), e) ==> Names(q.events) == Names(n.events) + if e.DnsResolved? then 1 else 0
    ensures CoreOf(q) == CoreOf(n) ==> Names(q.events) == Names(n.events)
  {
    NamesMore(n.events, e);
  }

  lemma TickNames(n: Net, link: Link)
    ensures Names(Ticked(n, link).events) == Names(n.events)
  {
    hide SendRequest, SendDiscover, Aged, Names, CoreOf;
    if n.sending && !n.configured {
      var w := n.(waited := 0);
      RequestCore(w, link);
      DiscoverCore(w, link);
      CoreNames(w, SendRequest(w, link).0, DhcpDiscover(0));
      CoreNames(w, SendDiscover(w, link).0, DhcpDiscover(n.xid));
    } else if n.sending && n.lease.seconds != 0 {
      AgedRest(n, link);
      var x := Expired(Aged(n, link));
      DiscoverCore(x, link);
      CoreNames(x, SendDiscover(x, link).0, DhcpDiscover(x.xid));
    }
  }

  lemma GatewayNames(n: Net, a: Arp, link: Link)
    ensures Names(OnGateway(n, a, link).0.events) == Names(n.events)
  {
    hide SendPing, SendQuery, Xor, Names, CoreOf;
    var q := Announce(n.(gatewayMac := a.senderMac, gatewayKnown := true), GatewayResolved(a.senderIp));
    var id := Xor(n.dnsId, 0x1111) % 0x1_0000;
    NamesMore(n.events, GatewayResolved(a.senderIp));
    PingCore(q, n.lease.gateway, id, 1, link);
    var r := SendPing(q, n.lease.gateway, id, 1, link).0;
    QueryCore(r, link);
    CoreNames(q, r, GatewayResolved(0));
    CoreNames(r, SendQuery(r, link).0, GatewayResolved(0));
  }

  lemma ArpNames(n: Net, p: Bytes, link: Link)
    ensures Names(OnArp(n, p, link).0.events) == Names(n.events)
  {
    hide OnGateway, ParseArp, ArpFrame, Names;
    if ParseArp(p).Some? {
      GatewayNames(n, ParseArp(p).value, link);
    }
  }

  lemma OfferNames(n: Net, yiaddr: dword, server: dword, o: Options, link: Link)
    ensures Names(OnOffer(n, yiaddr, server, o, link).0.events) == Names(n.events)
  {
    hide SendRequest, Names;
    var l := n.lease.(subnet := o.subnet, gateway := o.router, dns := o.dns, seconds := o.lease);
    RequestRest(Announce(n.(waited := 0, offeredIp := yiaddr, offerServer := server, lease := l), DhcpOffer(yiaddr)), link);
    NamesMore(n.events, DhcpOffer(yiaddr));
  }

  lemma AckNames(n: Net, yiaddr: dword, o: Options, link: Link)
    ensures Names(OnAck(n, yiaddr, o, link).0.events) == Names(n.events)
  {
    hide OnAck, SendArp, Acknowledged, Assigned, Names;
    AckIs(n, yiaddr, o, link);
    var q := Bound(n, Acknowledged(n, Assigned(n, yiaddr), o));
    ArpRest(Announce(q, DhcpBound(q.lease.ip)), q.lease.gateway, link);
    NamesMore(n.events, DhcpBound(q.lease.ip));
    NamesMore(n.events, Failure(0x4448_4350));
  }

  lemma DhcpNames(n: Net, p: Bytes, link: Link)
    ensures Names(OnDhcp(n, p, link).0.events) == Names(n.events)
  {
    hide OnOffer, OnAck, Walk, Names;
    if IsReply(p, n.xid) {
      var o, yiaddr := Walk(p, 240, NO_OPTIONS), Read32(p, 16);
      OfferNames(n, yiaddr, Or(o.server, Read32(p, 20)), o, link);
      AckNames(n, yiaddr, o, link);
      NamesMore(n.events, Failure(0x4E41_4B00));
    }
  }

  lemma SynNames(n: Net, link: Link)
    ensures SendSyn(n, link).0.events == n.events
  {
    hide SendTcp;
    SynCore(n, link);
  }

  lemma DnsNames(n: Net, p: Bytes, link: Link)
    ensures Names(OnDns(n, p, link).0.events) == Names(n.events)
      + if |p| >= 12 && Read16(p, 0) == n.dnsId && Read16(p, 2) >= 0x8000 && Resolved(p).Address? then 1 else 0
  {
    hide SendSyn, Resolved, Names, Announce;
    if |p| >= 12 {
      FailedNames(n, 0x444E_5300);
      if Resolved(p).Address? {
        AddressNames(n, Resolved(p).ip, link);
      }
    }
  }

  lemma FailedNames(n: Net, code: dword)
    ensures Names(Announce(n, Failure(code)).events) == Names(n.events)
  {
    hide Names;
    NamesMore(n.events, Failure(code));
  }

  lemma AddressNames(n: Net, ip: dword, link: Link)
    ensures Names(SendSyn(Announce(n.(resolvedIp := ip), DnsResolved(ip)), link).0.events) == Names(n.events) + 1
  {
    hide SendSyn, Names;
    NamesMore(n.events, DnsResolved(ip));
    SynNames(Announce(n.(resolvedIp := ip), DnsResolved(ip)), link);
  }

  lemma AcceptNames(n: Net, src: dword, s: Segment, link: Link)
    ensures Names(OnAccept(n, src, s, link).0.events) == Names(n.events)
  {
    hide SendTcp, HttpGet, Names;
    var q := Announce(n.(ack := Wrap32(s.seqno + 1), established := true), TcpConnected(src));
    NamesMore(n.events, TcpConnected(src));
    TcpKeepsCore(q, ACK, [], link);
    TcpKeepsCore(SendTcp(q, ACK, [], link).0, PSH_ACK, HttpGet(), link);
  }

  lemma EstablishedNames(n: Net, src: dword, s: Segment, link: Link)
    ensures Names(OnEstablished(n, src, s, link).events) == Names(n.events)
  {
    hide SendTcp, OnFin, OnData, Names;
    var d := OnData(n, src, s);
    DataCore(n, src, s);
    NamesMore(n.events, HttpResponse(src));
    FinCore(d, s);
    TcpKeepsCore(OnFin(d, s), ACK, [], link);
  }

  lemma TcpNames(n: Net, src: dword, p: Bytes, link: Link)
    ensures Names(OnTcp(n, src, p, link).0.events) == Names(n.events)
  {
    hide OnAccept, OnEstablished, ParseTcp, Names;
    if ParseTcp(p).Some? {
      AcceptNames(n, src, ParseTcp(p).value, link);
      EstablishedNames(n, src, ParseTcp(p).value, link);
    }
  }

  lemma UdpNames(n: Net, p: Bytes, link: Link)
    ensures Names(OnUdp(n, p, link).0.events) == Names(n.events)
      + if ParseUdp(p).Some? && NamesAddress(n, ParseUdp(p).value) then 1 else 0
  {
    hide OnDhcp, OnDns, ParseUdp, Names, Resolved;
    if ParseUdp(p).Some? {
      DhcpNames(n, ParseUdp(p).value.data, link);
      DnsNames(n, ParseUdp(p).value.data, link);
    }
  }

  lemma IcmpNames(n: Net, src: dword, p: Bytes)
    ensures Names(OnIcmp(n, src, p).events) == Names(n.events)
  {
    hide Names;
    NamesMore(n.events, IcmpReply(src));
  }

  lemma Ipv4Names(n: Net, p: Bytes, link: Link)
    ensures Names(OnIpv4(n, p, link).0.events) == Names(n.events) + if NamesPacket(n, Delivered(n, p)) then 1 else 0
  {
    hide OnUdp, OnTcp, OnIcmp, Delivered, ParseUdp, NamesAddress, Names;
    match Delivered(n, p) {
      case None =>
      case Some(packet) =>
        if packet.proto == UDP {
          UdpNames(n, packet.body, link);
        } else {
          IcmpNames(n, packet.src, packet.body);
          TcpNames(n, packet.src, packet.body, link);
        }
    }
  }

  lemma FrameNames(n: Net, frame: Bytes, link: Link)
    ensures Names(OnFrame(n, frame, link).0.events) == Names(n.events) + if TakesName(n, Receive(frame, link)) then 1 else 0
  {
    hide OnArp, OnIpv4, Delivered, NamesPacket, Names, ForUs, Read16;
    if |frame| >= 14 {
      ArpNames(n, frame[14..], link);
      Ipv4Names(n, frame[14..], link);
    }
  }

  /** A name is announced exactly for a reply with the id of the query that names an address, asked for or not. */
  lemma NameStep(n: Net, i: Input)
    ensures Names(Next(n, i).events) == Names(n.events) + if TakesName(n, i) then 1 else 0
  {
    hide Ticked, OnFrame, Names;
    match i {
      case Tick(link) => TickNames(n, link);
      case Receive(frame, link) => FrameNames(n, frame, link);
    }
  }

  /** Every name is announced after a query for it was among the frames sent. */
  ghost predicate NamesAsked(n: Net, run: seq<Input>) {
    forall k {:trigger run[..k]} :: 0 <= k < |run| ==>
      Names(After(n, run[..k + 1]).events) > Names(After(n, run[..k]).events) ==> QuerySent(After(n, run[..k]))
  }

  /** No reply that names an address reaches the stack before it has sent its query. */
  ghost predicate NoEarlyReply(n: Net, run: seq<Input>) {
    forall k {:trigger run[..k]} :: 0 <= k < |run| ==>
      TakesName(After(n, run[..k]), run[k]) ==> QuerySent(After(n, run[..k]))
  }

  /** In every run: names are only resolved after a query exactly when no reply comes early. */
  lemma NamesAskedIff(n: Net, run: seq<Input>)
    ensures NamesAsked(n, run) <==> NoEarlyReply(n, run)
  {
    hide Next, After, TakesName, QuerySent, Names;
    forall k | 0 <= k < |run|
      ensures Names(After(n, run[..k + 1]).events) > Names(After(n, run[..k]).events) <==> TakesName(After(n, run[..k]), run[k])
    {
      AfterNext(n, run, k);
      NameStep(After(n, run[..k]), run[k]);
    }
  }

  // ------------------------------------------------------------ a name without a query

  /** A one-answer DNS reply. */
  function Reply(id: word, ip: dword): (r: Bytes)
    ensures |r| == 27
  {
    Be16(id) + [0x80, 0, 0, 0, 0, 1, 0, 0, 0, 0] + [0, 0, 1, 0, 1, 0, 0, 0, 0, 0, 4] + Be32(ip)
  }

  lemma ReplyResolves(id: word, ip: dword)
    ensures var p := Reply(id, ip);
      Read16(p, 0) == id && Read16(p, 2) == 0x8000 && Resolved(p) == Address(ip)
  {
    hide AfterName;
    var p := Reply(id, ip);
    assert Read16(p, 4) == 0 && Read16(p, 6) == 1;
    assert AfterName(p, 12, LABELS) == 13 by { EmptyName(p); }
    assert Read16(p, 13) == 1 && Read16(p, 15) == 1 && Read16(p, 21) == 4;
    assert p[23..] == Be32(ip);
    assert forall i :: 0 <= i < 4 ==> p[23 + i] == p[23..][i];
    assert Read32(p, 23) == ip;
  }

  lemma EmptyName(p: Bytes)
    requires |p| > 12 && p[12] == 0
    ensures AfterName(p, 12, LABELS) == 13
  {
  }

  function Named(n: Net, from: Mac, src: dword, ip: dword, link: Link): Input {
    Receive(Datagrammed(from, src, 53, DnsPort(n), Reply(n.dnsId, ip)), link)
  }

  lemma ReplyTaken(n: Net, from: Mac, src: dword, ip: dword, link: Link)
    ensures TakesName(n, Named(n, from, src, ip, link))
  {
    hide ForUs, Delivered, ParseUdp, Datagrammed, Reply, Resolved, DnsPort;
    ReplyResolves(n.dnsId, ip);
    DatagramReads(n, from, src, 53, DnsPort(n), Reply(n.dnsId, ip));
  }

  /** A started stack has sent one frame at most, its Discover, which asks for no name. */
  lemma StartAsksNothing(mac: Mac, seed: dword, link: Link)
    requires mac != ZERO_MAC
    ensures !QuerySent(Started(mac, true, seed, link).0) && Names(Started(mac, true, seed, link).0.events) == 0
  {
    hide IsQuery, Xor, Discover, Names, UdpBytes, Frame, XidOf, DnsIdOf;
    var n := Seeded(mac, seed);
    NotAQuery(n);
    NamesMore([], DhcpDiscover(n.xid));
    NoNames();
    assert [] + [DhcpDiscover(n.xid)] == [DhcpDiscover(n.xid)];
    assert Started(mac, true, seed, link).0.sent == [Sent(FirstFrame(n), false, 0)];
  }

  lemma NoNames()
    ensures Names([]) == 0
  {
  }

  /** The frame of a stack's first Discover. */
  function FirstFrame(n: Net): Bytes {
    Datagrammed(n.mac, 0, 68, 67, Discover(n.xid, n.mac))
  }

  lemma NotAQuery(n: Net)
    ensures !IsQuery(FirstFrame(n), n.dnsId)
  {
    hide UdpBytes, Frame, Parse, Discover, IsQuery, Read16, Verifies, WordSum, SegmentSum;
    var u := UdpBytes(0, 0xFFFF_FFFF, 68, 67, Discover(n.xid, n.mac));
    FrameParses(BROADCAST, n.mac, 1, Packet(0, 0xFFFF_FFFF, UDP, u));
    UdpVerifies(0, 0xFFFF_FFFF, 68, 67, Discover(n.xid, n.mac));
    OtherPort(FirstFrame(n), Packet(0, 0xFFFF_FFFF, UDP, u), n.dnsId);
  }

  lemma OtherPort(frame: Bytes, p: Packet, id: word)
    requires |frame| >= 14 && Parse(frame[14..]) == Some(p) && |p.body| >= 8 && Read16(p.body, 2) != 53
    ensures !IsQuery(frame, id)
  {
    hide Parse, Query, Read16;
  }

  /** From any start on: the first frame from the network resolves a name, and nothing but a Discover was ever sent. */
  lemma UnsolicitedName(mac: Mac, seed: dword, link: Link, from: Mac, src: dword, ip: dword)
    requires mac != ZERO_MAC
    ensures var n := Started(mac, true, seed, link).0;
            var run := [Named(n, from, src, ip, link)];
      Names(After(n, run).events) == 1 && !QuerySent(n) && !NamesAsked(n, run)
  {
    hide Started, Next, After, TakesName, QuerySent, Names, Named, NamesAsked, NoEarlyReply;
    var n := Started(mac, true, seed, link).0;
    var i := Named(n, from, src, ip, link);
    StartAsksNothing(mac, seed, link);
    ReplyTaken(n, from, src, ip, link);
    NameStep(n, i);
    EarlyReply(n, i);
    NamesAskedIff(n, [i]);
  }

  lemma EarlyReply(n: Net, i: Input)
    requires TakesName(n, i) && !QuerySent(n)
    ensures After(n, [i]) == Next(n, i) && !NoEarlyReply(n, [i])
  {
    hide Next, TakesName, QuerySent;
    assert [i][..0] == [];
  }
}
