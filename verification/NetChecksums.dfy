/**
 The checksums of everything the standalone stack sends, over whole runs
 (section 1 of RFC 1071, section 3.1 of RFC 791, section 3.1 of RFC 9293).
 */
module NetChecksums {
  import opened Bytes
  import opened Checksum
  import opened Ipv4
  import opened NetWire
  import opened NetStack
  import opened NetRuns

  /** When the lease address may stand in for the source 0 of an unconfigured stack. */
  predicate SourceAgrees(configured: bool, ip: dword) {
    configured || WordSum(Be32(ip)) % 0xFFFF == 0
  }

  /** The transport checksum of a packet; that of TCP is right exactly when the addresses agree. */
  predicate PayloadOk(p: Packet, configured: bool, ip: dword) {
    && |p.body| <= MAX_PAYLOAD
    && (p.proto == UDP ==> Verifies(SegmentSum(p.src, p.dst, UDP, p.body)))
    && (p.proto == TCP ==> (Verifies(SegmentSum(p.src, p.dst, TCP, p.body)) <==> SourceAgrees(configured, ip)))
    && (p.proto == 1 ==> Verifies(WordSum(p.body)))
  }

  predicate PacketOk(frame: Bytes, configured: bool, ip: dword) {
    && |frame| >= 34 && Verifies(WordSum(frame[14..34]))
    && match Parse(frame[14..])
       case None => false
       case Some(p) => PayloadOk(p, configured, ip)
  }

  predicate SentOk(s: Sent) {
    && |s.frame| >= 14
    && (Read16(s.frame, 12) == ETHERTYPE ==> PacketOk(s.frame, s.configured, s.ip))
  }

  predicate AllOk(n: Net) {
    forall i :: 0 <= i < |n.sent| ==> SentOk(n.sent[i])
  }

  // ------------------------------------------------------------- the TCP exception

  lemma PseudoSum(src: dword, dst: dword, proto: byte, len: word)
    ensures WordSum(Pseudo(src, dst, proto, len))
         == WordSum(Be32(src)) + WordSum(Be32(dst) + [0, proto] + Be16(len))
    ensures proto > 0 ==> WordSum(Be32(dst) + [0, proto] + Be16(len)) > 0
  {
    var rest := Be32(dst) + [0, proto] + Be16(len);
    assert Pseudo(src, dst, proto, len) == Be32(src) + rest;
    WordSumAppend(Be32(src), rest);
    assert rest == Be32(dst) + ([0, proto] + Be16(len));
    WordSumAppend(Be32(dst), [0, proto] + Be16(len));
    WordSumAppend([0, proto], Be16(len));
    assert WordSum([0, proto]) == proto as int + WordSum([0, proto][2..]);
  }

  lemma FourBytes(r: Bytes)
    requires |r| == 4
    ensures WordSum(r) == Read16(r, 0) + Read16(r, 2)
  {
    var t := r[2..];
    assert WordSum(t) == Read16(t, 0) + WordSum(t[2..]) && t[2..] == [];
    assert t[0] == r[2] && t[1] == r[3];
  }

  lemma ZeroAddress()
    ensures WordSum(Be32(0)) == 0
  {
    hide WordSum, Be32;
    FourBytes(Be32(0));
  }

  lemma SegmentIs(src: dword, dst: dword, proto: byte, p: Bytes)
    requires |p| < 0x1_0000
    ensures SegmentSum(src, dst, proto, p) == WordSum(Pseudo(src, dst, proto, |p|)) + WordSum(p)
  {
    hide WordSum, Pseudo;
  }

  /** Leaving out the source address takes its words off the sum. */
  lemma WithoutSource(src: dword, dst: dword, proto: byte, p: Bytes)
    requires |p| < 0x1_0000 && proto > 0
    ensures SegmentSum(src, dst, proto, p) == WordSum(Be32(src)) + SegmentSum(0, dst, proto, p)
    ensures SegmentSum(0, dst, proto, p) > 0
  {
    hide *;
    SegmentIs(src, dst, proto, p);
    SegmentIs(0, dst, proto, p);
    PseudoSum(src, dst, proto, |p|);
    PseudoSum(0, dst, proto, |p|);
    ZeroAddress();
  }

  lemma ModShift(total: nat, w: nat)
    requires w <= total && total % 0xFFFF == 0
    ensures (total - w) % 0xFFFF == 0 <==> w % 0xFFFF == 0
  {
    var a := total / 0xFFFF;
    assert total == 0xFFFF * a;
    if w % 0xFFFF == 0 {
      AddMultiple(0, a - w / 0xFFFF) by { assert a >= w / 0xFFFF; }
      assert total - w == 0 + 0xFFFF * (a - w / 0xFFFF);
    }
    if (total - w) % 0xFFFF == 0 {
      var b := (total - w) / 0xFFFF;
      AddMultiple(0, a - b) by { assert a >= b; }
      assert w == 0 + 0xFFFF * (a - b);
    }
  }

  /** A segment checksummed for `ip` but sent from address 0 verifies only by accident. */
  lemma SentFromZero(ip: dword, dst: dword, s: Segment)
    requires |s.data| <= 1400
    ensures Verifies(SegmentSum(0, dst, TCP, TcpBytes(ip, dst, s))) <==> WordSum(Be32(ip)) % 0xFFFF == 0
  {
    hide TcpBytes, WordSum, SegmentSum, Verifies;
    var t := TcpBytes(ip, dst, s);
    TcpVerifies(ip, dst, s);
    WithoutSource(ip, dst, TCP, t);
    var total, bare := SegmentSum(ip, dst, TCP, t), SegmentSum(0, dst, TCP, t);
    VerifiesIff(total);
    VerifiesIff(bare);
    ModShift(total, WordSum(Be32(ip)));
    assert bare == total - WordSum(Be32(ip));
  }

  // ---------------------------------------------------------------- what is sent

  lemma TransmitOk(n: Net, frame: Bytes, link: Link)
    requires AllOk(n) && SentOk(Sent(frame, n.configured, n.lease.ip))
    ensures AllOk(Transmit(n, frame, link).0)
  {
    hide SentOk;
  }

  lemma RawOk(n: Net, dst: dword, proto: byte, payload: Bytes, to: Mac, link: Link)
    requires AllOk(n)
    requires |payload| <= MAX_PAYLOAD ==> PayloadOk(Packet(Source(n), dst, proto, payload), n.configured, n.lease.ip)
    ensures AllOk(SendRaw(n, dst, proto, payload, to, link).0)
  {
    hide AllOk, PayloadOk, Frame, Transmit, Verifies, WordSum, Parse;
    if |payload| <= MAX_PAYLOAD {
      var p := Packet(Source(n), dst, proto, payload);
      var f := Frame(to, n.mac, n.ipId, p);
      FrameParses(to, n.mac, n.ipId, p);
      var q := n.(ipId := Wrap16(n.ipId + 1));
      SameSent(n, q);
      TransmitOk(q, f, link);
    }
  }

  lemma SameSent(n: Net, q: Net)
    requires n.sent == q.sent
    ensures AllOk(n) <==> AllOk(q)
  {
  }

  lemma UdpOk(n: Net, dst: dword, srcPort: word, dstPort: word, payload: Bytes, to: Mac, link: Link)
    requires AllOk(n)
    ensures AllOk(SendUdp(n, dst, srcPort, dstPort, payload, to, link).0)
  {
    hide AllOk, SendRaw, UdpBytes, Source, Verifies, SegmentSum;
    if |payload| <= 1400 {
      UdpVerifies(Source(n), dst, srcPort, dstPort, payload);
      RawOk(n, dst, UDP, UdpBytes(Source(n), dst, srcPort, dstPort, payload), to, link);
    }
  }

  lemma TcpOk(n: Net, flags: byte, payload: Bytes, link: Link)
    requires AllOk(n)
    ensures AllOk(SendTcp(n, flags, payload, link).0)
  {
    hide AllOk, SendRaw, TcpBytes, Verifies, SegmentSum, WordSum;
    if n.resolvedIp != 0 && n.gatewayKnown && |payload| <= 1400 {
      var s := Segment(n.port, 80, n.seqno, n.ack, flags, payload);
      TcpVerifies(n.lease.ip, n.resolvedIp, s);
      SentFromZero(n.lease.ip, n.resolvedIp, s);
      RawOk(n, n.resolvedIp, TCP, TcpBytes(n.lease.ip, n.resolvedIp, s), n.gatewayMac, link);
    }
  }

  lemma EchoVerifies(id: word, sequence: word, seed: dword, destination: dword)
    ensures Verifies(WordSum(Echo(id, sequence, seed, destination)))
  {
    hide Xor, WordSum, Verifies;
    var icmp := [8, 0, 0, 0] + Be16(id) + Be16(sequence) + Be32(seed) + Be32(Xor(destination, seed));
    WordSumPut16(icmp, 2, Finished(WordSum(icmp)));
    FinishedVerifies(WordSum(icmp));
  }

  lemma PingOk(n: Net, destination: dword, id: word, sequence: word, link: Link)
    requires AllOk(n)
    ensures AllOk(SendPing(n, destination, id, sequence, link).0)
  {
    hide AllOk, SendRaw, Echo, Verifies, WordSum;
    if n.configured && n.gatewayKnown {
      EchoVerifies(id, sequence, n.seed, destination);
      RawOk(n, destination, 1, Echo(id, sequence, n.seed, destination), n.gatewayMac, link);
    }
  }

  lemma ArpFrameOk(to: Mac, from: Mac, op: word, senderIp: dword, targetMac: Mac, targetIp: dword,
                   configured: bool, ip: dword)
    ensures SentOk(Sent(ArpFrame(to, from, op, senderIp, targetMac, targetIp), configured, ip))
  {
    hide ArpFrame, PacketOk;
    ArpReads(to, from, op, senderIp, targetMac, targetIp);
  }

  lemma DiscoverOk(n: Net, link: Link)
    requires AllOk(n)
    ensures AllOk(SendDiscover(n, link).0)
  {
    hide AllOk, SendUdp, Discover;
    var q := Announce(n.(requested := false, renewing := false, waited := 0), DhcpDiscover(n.xid));
    SameSent(n, q);
    UdpOk(q, 0xFFFF_FFFF, 68, 67, Discover(n.xid, n.mac), BROADCAST, link);
  }

  lemma RequestOk(n: Net, link: Link)
    requires AllOk(n)
    ensures AllOk(SendRequest(n, link).0)
  {
    hide AllOk, SendUdp, Request;
    if n.offeredIp != 0 && n.offerServer != 0 {
      var q := n.(requested := true, renewing := false, waited := 0);
      SameSent(n, q);
      UdpOk(q, 0xFFFF_FFFF, 68, 67, Request(n.xid, n.mac, n.offeredIp, n.offerServer), BROADCAST, link);
    }
  }

  lemma RenewOk(n: Net, link: Link)
    requires AllOk(n)
    ensures AllOk(SendRenew(n, link).0)
  {
    hide AllOk, SendUdp, Renew, Xor;
    if n.configured && n.gatewayKnown && n.lease.server != 0 {
      var q := n.(xid := Xor(Xor(n.xid, n.age), 0x5245_4E45), renewing := true, waited := 0);
      SameSent(n, q);
      UdpOk(q, n.lease.server, 68, 67, Renew(q.xid, n.mac, n.lease.ip), n.gatewayMac, link);
    }
  }

  lemma TickOk(n: Net, link: Link)
    requires AllOk(n)
    ensures AllOk(Ticked(n, link))
  {
    hide AllOk, SendDiscover, SendRequest, SendRenew;
    var w, a := n.(waited := 0), n.(age := Wrap32(n.age + 1));
    SameSent(n, w);
    SameSent(n, n.(waited := n.waited + 1));
    RequestOk(w, link);
    DiscoverOk(w, link);
    var renewed := a.(renewals := a.renewals + [a.age]);
    SameSent(n, a);
    SameSent(n, renewed);
    RenewOk(renewed, link);
    var r := Aged(n, link);
    SameSent(r, Expired(r));
    DiscoverOk(Expired(r), link);
  }

  // -------------------------------------------------------------- what is received

  lemma GatewayOk(n: Net, a: Arp, link: Link)
    requires AllOk(n)
    ensures AllOk(OnGateway(n, a, link).0)
  {
    hide AllOk, SendPing, SendUdp, Xor, Query;
    var q := Announce(n.(gatewayMac := a.senderMac, gatewayKnown := true), GatewayResolved(a.senderIp));
    var id := Xor(n.dnsId, 0x1111) % 0x1_0000;
    SameSent(n, q);
    PingOk(q, n.lease.gateway, id, 1, link);
    var r := SendPing(q, n.lease.gateway, id, 1, link).0;
    UdpOk(r, r.lease.dns, DnsPort(r), 53, Query(r.dnsId), r.gatewayMac, link);
  }

  lemma ArpOk(n: Net, p: Bytes, link: Link)
    requires AllOk(n)
    ensures AllOk(OnArp(n, p, link).0)
  {
    hide AllOk, OnGateway, ParseArp, ArpFrame, Transmit, SentOk;
    if ParseArp(p).Some? {
      var a := ParseArp(p).value;
      GatewayOk(n, a, link);
      ArpFrameOk(a.senderMac, n.mac, 2, n.lease.ip, a.senderMac, a.senderIp, n.configured, n.lease.ip);
      TransmitOk(n, ArpFrame(a.senderMac, n.mac, 2, n.lease.ip, a.senderMac, a.senderIp), link);
    }
  }

  lemma OfferOk(n: Net, yiaddr: dword, server: dword, o: Options, link: Link)
    requires AllOk(n)
    ensures AllOk(OnOffer(n, yiaddr, server, o, link).0)
  {
    hide AllOk, SendRequest;
    var l := n.lease.(subnet := o.subnet, gateway := o.router, dns := o.dns, seconds := o.lease);
    var q := Announce(n.(waited := 0, offeredIp := yiaddr, offerServer := server, lease := l), DhcpOffer(yiaddr));
    SameSent(n, q);
    RequestOk(q, link);
  }

  lemma AckOk(n: Net, yiaddr: dword, o: Options, link: Link)
    requires AllOk(n)
    ensures AllOk(OnAck(n, yiaddr, o, link).0)
  {
    hide AllOk, OnAck, ArpFrame, Acknowledged, Assigned, Transmit, SentOk;
    AckIs(n, yiaddr, o, link);
    var q := Bound(n, Acknowledged(n, Assigned(n, yiaddr), o));
    var b := Announce(q, DhcpBound(q.lease.ip));
    SameSent(n, Announce(q, Failure(0x4448_4350)));
    SameSent(n, b);
    ArpFrameOk(BROADCAST, b.mac, 1, b.lease.ip, ZERO_MAC, q.lease.gateway, b.configured, b.lease.ip);
    TransmitOk(b, ArpFrame(BROADCAST, b.mac, 1, b.lease.ip, ZERO_MAC, q.lease.gateway), link);
  }

  lemma DhcpOk(n: Net, p: Bytes, link: Link)
    requires AllOk(n)
    ensures AllOk(OnDhcp(n, p, link).0)
  {
    hide AllOk, OnOffer, OnAck, Walk;
    if IsReply(p, n.xid) {
      var o, yiaddr := Walk(p, 240, NO_OPTIONS), Read32(p, 16);
      OfferOk(n, yiaddr, Or(o.server, Read32(p, 20)), o, link);
      AckOk(n, yiaddr, o, link);
      SameSent(n, Announce(n, Failure(0x4E41_4B00)));
    }
  }

  lemma DnsOk(n: Net, p: Bytes, link: Link)
    requires AllOk(n)
    ensures AllOk(OnDns(n, p, link).0)
  {
    hide AllOk, SendSyn, Resolved;
    if |p| >= 12 {
      SameSent(n, Announce(n, Failure(0x444E_5300)));
      if Resolved(p).Address? {
        var q := Announce(n.(resolvedIp := Resolved(p).ip), DnsResolved(Resolved(p).ip));
        SameSent(n, q);
        SynOk(q, link);
      }
    }
  }

  lemma SynOk(n: Net, link: Link)
    requires AllOk(n)
    ensures AllOk(SendSyn(n, link).0)
  {
    hide AllOk, SendTcp;
    var s := n.(synSent := true);
    SameSent(n, s);
    TcpOk(s, SYN, [], link);
    var q := SendTcp(s, SYN, [], link).0;
    SameSent(q, q.(seqno := Wrap32(q.seqno + 1)));
  }

  lemma OnTcpOk(n: Net, src: dword, p: Bytes, link: Link)
    requires AllOk(n)
    ensures AllOk(OnTcp(n, src, p, link).0)
  {
    hide AllOk, OnAccept, OnEstablished, ParseTcp;
    if ParseTcp(p).Some? {
      AcceptOk(n, src, ParseTcp(p).value, link);
      EstablishedOk(n, src, ParseTcp(p).value, link);
    }
  }

  lemma AcceptOk(n: Net, src: dword, s: Segment, link: Link)
    requires AllOk(n)
    ensures AllOk(OnAccept(n, src, s, link).0)
  {
    hide AllOk, SendTcp, HttpGet;
    var q := Announce(n.(ack := Wrap32(s.seqno + 1), established := true), TcpConnected(src));
    SameSent(n, q);
    TcpOk(q, ACK, [], link);
    var a := SendTcp(q, ACK, [], link).0;
    TcpOk(a, PSH_ACK, HttpGet(), link);
    var r := SendTcp(a, PSH_ACK, HttpGet(), link).0;
    SameSent(r, r.(seqno := Wrap32(r.seqno + |HttpGet()|), httpSent := true));
  }

  lemma EstablishedOk(n: Net, src: dword, s: Segment, link: Link)
    requires AllOk(n)
    ensures AllOk(OnEstablished(n, src, s, link))
  {
    hide AllOk, SendTcp, OnFin, OnData;
    var q := OnFin(OnData(n, src, s), s);
    DataSent(n, src, s);
    SameSent(n, q);
    TcpOk(q, ACK, [], link);
  }

  lemma DataSent(n: Net, src: dword, s: Segment)
    ensures OnFin(OnData(n, src, s), s).sent == n.sent
  {
    hide OnData;
    SentByData(n, src, s);
  }

  lemma SentByData(n: Net, src: dword, s: Segment)
    ensures OnData(n, src, s).sent == n.sent
  {
    hide HasHttp;
  }

  lemma FrameOk(n: Net, frame: Bytes, link: Link)
    requires AllOk(n)
    ensures AllOk(OnFrame(n, frame, link).0)
  {
    hide AllOk, OnArp, OnDhcp, OnDns, OnTcp, Delivered, ParseUdp;
    if |frame| >= 14 {
      ArpOk(n, frame[14..], link);
      var d := Delivered(n, frame[14..]);
      if d.Some? {
        OnTcpOk(n, d.value.src, d.value.body, link);
        SameSent(n, OnIcmp(n, d.value.src, d.value.body));
        if ParseUdp(d.value.body).Some? {
          DhcpOk(n, ParseUdp(d.value.body).value.data, link);
          DnsOk(n, ParseUdp(d.value.body).value.data, link);
        }
      }
    }
  }

  lemma {:induction false} RunOk(n: Net, run: seq<Input>)
    requires AllOk(n)
    ensures AllOk(After(n, run))
    decreases |run|
  {
    hide AllOk, Ticked, OnFrame;
    if run != [] {
      var before, i := After(n, run[..|run| - 1]), run[|run| - 1];
      RunOk(n, run[..|run| - 1]);
      match i {
        case Tick(link) => TickOk(before, link);
        case Receive(frame, link) => FrameOk(before, frame, link);
      }
    }
  }

  /**
   In every run, every IPv4 header, UDP datagram and echo request that was sent
   verifies, and a TCP segment does exactly when the stack was configured or the sum
   of its lease address is 0 in one's complement.
   */
  lemma AllSentVerifies(mac: Mac, hasSend: bool, seed: dword, link: Link, run: seq<Input>)
    ensures var n := After(Started(mac, hasSend, seed, link).0, run);
      forall i :: 0 <= i < |n.sent| ==> SentOk(n.sent[i])
  {
    hide SentOk, After, SendDiscover, Xor;
    var n := Seeded(mac, seed);
    NothingSent(n);
    DiscoverOk(n, link);
    NothingSent(RESET);
    RunOk(Started(mac, hasSend, seed, link).0, run);
  }

  lemma NothingSent(n: Net)
    requires n.sent == []
    ensures AllOk(n)
  {
  }
}
