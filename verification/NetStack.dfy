/**
 The standalone network stack (src/net_stack.cpp): DHCP with a lease clock, ARP for
 the gateway, one DNS query, one TCP connection with one HTTP request. `Net` is its
 state with the record of all frames sent, events announced and renewals attempted
 since it was started; the class `StandaloneNetStack` is the program. What the frame
 sender answers is a function given to each call.
 */
module NetStack {
  import opened Bytes
  import opened Checksum
  import opened Ipv4
  import opened NetWire

  type Link = Bytes -> bool

  datatype Lease = Lease(ip: dword, subnet: dword, gateway: dword, dns: dword, server: dword, seconds: dword)

  const NO_LEASE := Lease(0, 0, 0, 0, 0, 0)

  datatype NetEvent =
      DhcpDiscover(xid: dword) | DhcpOffer(ip: dword) | DhcpBound(ip: dword) | GatewayResolved(ip: dword)
    | IcmpReply(ip: dword) | DnsResolved(ip: dword) | TcpConnected(ip: dword) | HttpResponse(ip: dword)
    | Failure(code: dword)

  /** A frame handed to the sender, with the address configuration of that moment. */
  datatype Sent = Sent(frame: Bytes, configured: bool, ip: dword)

  datatype Net = Net(
    mac: Mac, lease: Lease, sending: bool, seed: dword, xid: dword,
    offeredIp: dword, offerServer: dword, resolvedIp: dword,
    gatewayMac: Mac, gatewayKnown: bool, configured: bool, internetOk: bool,
    requested: bool, renewing: bool, waited: nat, age: dword,
    dnsId: word, ipId: word, port: word,
    seqno: dword, ack: dword, synSent: bool, established: bool, httpSent: bool,
    sent: seq<Sent>, events: seq<NetEvent>, renewals: seq<dword>)

  const ZERO_MAC: Mac := [0, 0, 0, 0, 0, 0]

  const RESET := Net(ZERO_MAC, NO_LEASE, false, 0, 0, 0, 0, 0, ZERO_MAC, false, false, false, false, false, 0, 0,
                     0, 1, 0, 0, 0, false, false, false, [], [], [])

  // -------------------------------------------------------------------- bit by bit

  function XorBits(a: nat, b: nat): nat
    decreases a + b
  {
    if a == 0 && b == 0 then 0 else 2 * XorBits(a / 2, b / 2) + (a % 2 + b % 2) % 2
  }

  /** Exclusive or of 32-bit words. */
  function Xor(a: dword, b: dword): dword {
    Wrap32(XorBits(a, b))
  }

  // ----------------------------------------------------------------------- sending

  function Announce(n: Net, e: NetEvent): Net {
    n.(events := n.events + [e])
  }

  function Transmit(n: Net, frame: Bytes, link: Link): (Net, bool) {
    if n.sending && |frame| >= 14
    then (n.(sent := n.sent + [Sent(frame, n.configured, n.lease.ip)]), link(frame))
    else (n, false)
  }

  /** The source address of outgoing packets. */
  function Source(n: Net): dword {
    if n.configured then n.lease.ip else 0
  }

  function SendRaw(n: Net, dst: dword, proto: byte, payload: Bytes, to: Mac, link: Link): (Net, bool) {
    if |payload| > MAX_PAYLOAD then (n, false)
    else Transmit(n.(ipId := Wrap16(n.ipId + 1)), Frame(to, n.mac, n.ipId, Packet(Source(n), dst, proto, payload)), link)
  }

  function SendUdp(n: Net, dst: dword, srcPort: word, dstPort: word, payload: Bytes, to: Mac, link: Link): (Net, bool) {
    if |payload| > 1400 then (n, false)
    else SendRaw(n, dst, UDP, UdpBytes(Source(n), dst, srcPort, dstPort, payload), to, link)
  }

  /** The TCP checksum always takes the lease address, configured or not. */
  function SendTcp(n: Net, flags: byte, payload: Bytes, link: Link): (Net, bool) {
    if n.resolvedIp == 0 || !n.gatewayKnown || |payload| > 1400 then (n, false)
    else
      var segment := Segment(n.port, 80, n.seqno, n.ack, flags, payload);
      SendRaw(n, n.resolvedIp, TCP, TcpBytes(n.lease.ip, n.resolvedIp, segment), n.gatewayMac, link)
  }

  function SendDiscover(n: Net, link: Link): (Net, bool) {
    var q := Announce(n.(requested := false, renewing := false, waited := 0), DhcpDiscover(n.xid));
    SendUdp(q, 0xFFFF_FFFF, 68, 67, Discover(n.xid, n.mac), BROADCAST, link)
  }

  function SendRequest(n: Net, link: Link): (Net, bool) {
    if n.offeredIp == 0 || n.offerServer == 0 then (n, false)
    else
      var q := n.(requested := true, renewing := false, waited := 0);
      SendUdp(q, 0xFFFF_FFFF, 68, 67, Request(n.xid, n.mac, n.offeredIp, n.offerServer), BROADCAST, link)
  }

  function SendRenew(n: Net, link: Link): (Net, bool) {
    if !n.configured || !n.gatewayKnown || n.lease.server == 0 then (n, false)
    else
      var q := n.(xid := Xor(Xor(n.xid, n.age), 0x5245_4E45), renewing := true, waited := 0);
      SendUdp(q, n.lease.server, 68, 67, Renew(q.xid, n.mac, n.lease.ip), n.gatewayMac, link)
  }

  function SendArp(n: Net, target: dword, link: Link): (Net, bool) {
    Transmit(n, ArpFrame(BROADCAST, n.mac, 1, n.lease.ip, ZERO_MAC, target), link)
  }

  function Echo(id: word, sequence: word, seed: dword, destination: dword): (r: Bytes)
    ensures |r| == 16
  {
    var icmp := [8, 0, 0, 0] + Be16(id) + Be16(sequence) + Be32(seed) + Be32(Xor(destination, seed));
    Put16(icmp, 2, Finished(WordSum(icmp)))
  }

  function SendPing(n: Net, destination: dword, id: word, sequence: word, link: Link): (Net, bool) {
    if !n.configured || !n.gatewayKnown then (n, false)
    else SendRaw(n, destination, 1, Echo(id, sequence, n.seed, destination), n.gatewayMac, link)
  }

  function DnsPort(n: Net): word {
    Wrap16(53000 + n.dnsId % 0x400)
  }

  function SendQuery(n: Net, link: Link): (Net, bool) {
    if !n.configured || !n.gatewayKnown then (n, false)
    else SendUdp(n, n.lease.dns, DnsPort(n), 53, Query(n.dnsId), n.gatewayMac, link)
  }

  function SendSyn(n: Net, link: Link): (Net, bool) {
    if n.resolvedIp == 0 || !n.gatewayKnown then (n, false)
    else
      var (q, ok) := SendTcp(n.(synSent := true), SYN, [], link);
      if ok then (q.(seqno := Wrap32(q.seqno + 1)), true) else (q, false)
  }

  // ------------------------------------------------------------------------- start

  function XidOf(mac: Mac, seed: dword): dword {
    Xor(Xor(Xor(Xor(seed, mac[2] as int * 0x100_0000), mac[3] as int * 0x1_0000), mac[4] as int * 0x100), mac[5])
  }

  function DnsIdOf(xid: dword): word {
    var d := Xor(xid, xid / 0x1_0000) % 0x1_0000;
    if d == 0 then 0x3943 else d
  }

  function Seeded(mac: Mac, seed: dword): Net {
    var s: dword := if seed == 0 then 0x39C0_0001 else seed;
    RESET.(mac := mac, sending := true, seed := s, xid := XidOf(mac, s), dnsId := DnsIdOf(XidOf(mac, s)),
           port := 49152 + s % 0x1000, seqno := Xor(s, 0xA5C3_9B17))
  }

  function Started(mac: Mac, hasSend: bool, seed: dword, link: Link): (Net, bool) {
    if mac == ZERO_MAC || !hasSend then (RESET, false) else SendDiscover(Seeded(mac, seed), link)
  }

  // ------------------------------------------------------------------- lease clock

  function Expired(n: Net): Net {
    n.(configured := false, gatewayKnown := false, renewing := false, offeredIp := 0, offerServer := 0, lease := NO_LEASE)
  }

  function RenewAt(seconds: dword): dword {
    if seconds / 2 == 0 then 1 else seconds / 2
  }

  function Waiting(n: Net, link: Link): Net {
    if n.waited + 1 < 4 then n.(waited := n.waited + 1)
    else if n.requested && n.offeredIp != 0 then SendRequest(n.(waited := 0), link).0
    else SendDiscover(n.(waited := 0), link).0
  }

  /** One second older, with the renewal that falls due. */
  function Aged(n: Net, link: Link): Net {
    var a := n.(age := Wrap32(n.age + 1));
    if a.age == RenewAt(n.lease.seconds) then SendRenew(a.(renewals := a.renewals + [a.age]), link).0 else a
  }

  function Aging(n: Net, link: Link): Net {
    var r := Aged(n, link);
    if r.age >= r.lease.seconds then SendDiscover(Expired(r), link).0 else r
  }

  function Ticked(n: Net, link: Link): Net {
    if !n.sending then n
    else if !n.configured then Waiting(n, link)
    else if n.lease.seconds == 0 then n
    else Aging(n, link)
  }

  // --------------------------------------------------------------------- receiving

  function OnArp(n: Net, p: Bytes, link: Link): (Net, bool) {
    match ParseArp(p)
    case None => (n, true)
    case Some(a) =>
      if a.op == 2 && n.configured && a.senderIp == n.lease.gateway then OnGateway(n, a, link)
      else if a.op == 1 && n.configured && a.targetIp == n.lease.ip then
        Transmit(n, ArpFrame(a.senderMac, n.mac, 2, n.lease.ip, a.senderMac, a.senderIp), link)
      else (n, true)
  }

  function OnGateway(n: Net, a: Arp, link: Link): (Net, bool) {
    var q := Announce(n.(gatewayMac := a.senderMac, gatewayKnown := true), GatewayResolved(a.senderIp));
    var (r, sent) := SendPing(q, n.lease.gateway, Xor(n.dnsId, 0x1111) % 0x1_0000, 1, link);
    SendQuery(r, link)
  }

  function OnOffer(n: Net, yiaddr: dword, server: dword, o: Options, link: Link): (Net, bool) {
    var l := n.lease.(subnet := o.subnet, gateway := o.router, dns := o.dns, seconds := o.lease);
    SendRequest(Announce(n.(waited := 0, offeredIp := yiaddr, offerServer := server, lease := l), DhcpOffer(yiaddr)), link)
  }

  /** The address an acknowledgement assigns; 0 when it is not for this stack. */
  function Assigned(n: Net, yiaddr: dword): dword {
    var a := if yiaddr != 0 then yiaddr else if n.renewing then n.lease.ip else 0;
    if !n.renewing && n.offeredIp != 0 && a != n.offeredIp then 0 else a
  }

  function Or(a: dword, b: dword): dword {
    if a != 0 then a else b
  }

  /** The lease with the options an acknowledgement carries laid over it. */
  function Overlaid(l: Lease, offerServer: dword, ip: dword, o: Options): Lease {
    Lease(ip, Or(o.subnet, l.subnet), Or(o.router, l.gateway), Or(o.dns, l.dns), Or(o.server, offerServer),
          Or(o.lease, l.seconds))
  }

  /** Fallbacks for what is still missing. */
  function Defaulted(l: Lease): Lease {
    var gateway := Or(l.gateway, l.server);
    l.(subnet := Or(l.subnet, 0xFFFF_FF00), gateway := gateway, dns := Or(l.dns, gateway))
  }

  function Acknowledged(n: Net, ip: dword, o: Options): Lease {
    Defaulted(Overlaid(n.lease, n.offerServer, ip, o))
  }

  function Bound(n: Net, l: Lease): Net {
    n.(lease := l, configured := l.ip != 0 && l.gateway != 0 && l.dns != 0, renewing := false, waited := 0, age := 0)
  }

  /** What is announced and sent once a lease is taken. */
  function Announced(n: Net, link: Link): (Net, bool) {
    if !n.configured then (Announce(n, Failure(0x4448_4350)), false)
    else SendArp(Announce(n, DhcpBound(n.lease.ip)), n.lease.gateway, link)
  }

  function OnAck(n: Net, yiaddr: dword, o: Options, link: Link): (Net, bool) {
    var ip := Assigned(n, yiaddr);
    if ip == 0 then (n, true) else Announced(Bound(n, Acknowledged(n, ip, o)), link)
  }

  function OnDhcp(n: Net, p: Bytes, link: Link): (Net, bool) {
    if !IsReply(p, n.xid) then (n, true)
    else
      var o, yiaddr := Walk(p, 240, NO_OPTIONS), Read32(p, 16);
      if o.msg == 2 && yiaddr != 0 then OnOffer(n, yiaddr, Or(o.server, Read32(p, 20)), o, link)
      else if o.msg == 5 then OnAck(n, yiaddr, o, link)
      else if o.msg == 6 then (Announce(n, Failure(0x4E41_4B00)), false)
      else (n, true)
  }

  function OnDns(n: Net, p: Bytes, link: Link): (Net, bool) {
    if |p| < 12 || Read16(p, 0) != n.dnsId || Read16(p, 2) < 0x8000 then (n, true)
    else
      match Resolved(p)
      case Malformed => (n, true)
      case NoAddress => (Announce(n, Failure(0x444E_5300)), false)
      case Address(ip) => SendSyn(Announce(n.(resolvedIp := ip), DnsResolved(ip)), link)
  }

  /** The payload of a datagram as the receivers cut it, with its ports. */
  datatype Datagram = Datagram(srcPort: word, dstPort: word, data: Bytes)

  function ParseUdp(p: Bytes): Option<Datagram> {
    if |p| < 8 || Read16(p, 4) < 8 || Read16(p, 4) > |p| then None
    else Some(Datagram(Read16(p, 0), Read16(p, 2), p[8..Read16(p, 4)]))
  }

  function OnUdp(n: Net, p: Bytes, link: Link): (Net, bool) {
    match ParseUdp(p)
    case None => (n, true)
    case Some(d) =>
      if d.srcPort == 67 && d.dstPort == 68 then OnDhcp(n, d.data, link)
      else if d.srcPort == 53 && d.dstPort == DnsPort(n) then OnDns(n, d.data, link)
      else (n, true)
  }

  function OnIcmp(n: Net, src: dword, p: Bytes): Net {
    if |p| >= 8 && p[0] == 0 then Announce(n, IcmpReply(src)) else n
  }

  function Ascii(s: string): Bytes {
    seq(|s|, i requires 0 <= i < |s| => s[i] as int % 0x100)
  }

  function HttpGet(): Bytes {
    Ascii("GET / HTTP/1.0\r\n" + "Host: example.com\r\n" + "Connection: close\r\n" + "User-Agent: iPhoneTether360/9C\r\n\r\n")
  }

  predicate Accepts(n: Net, s: Segment) {
    n.synSent && !n.established && Has(s.flags, SYN) && Has(s.flags, ACK) && s.ack == n.seqno
  }

  function OnAccept(n: Net, src: dword, s: Segment, link: Link): (Net, bool) {
    var q := Announce(n.(ack := Wrap32(s.seqno + 1), established := true), TcpConnected(src));
    var (a, acked) := SendTcp(q, ACK, [], link);
    if !acked then (a, false)
    else
      var (r, sent) := SendTcp(a, PSH_ACK, HttpGet(), link);
      if !sent then (r, false)
      else (r.(seqno := Wrap32(r.seqno + |HttpGet()|), httpSent := true), true)
  }

  function OnData(n: Net, src: dword, s: Segment): Net {
    if s.data == [] || s.seqno != n.ack then n
    else
      var q := n.(ack := Wrap32(n.ack + |s.data|));
      if HasHttp(s.data) && !n.internetOk then Announce(q.(internetOk := true), HttpResponse(src)) else q
  }

  function OnFin(n: Net, s: Segment): Net {
    if Has(s.flags, FIN) && Wrap32(s.seqno + |s.data|) == n.ack then n.(ack := Wrap32(n.ack + 1)) else n
  }

  function OnEstablished(n: Net, src: dword, s: Segment, link: Link): Net {
    var q := OnFin(OnData(n, src, s), s);
    if s.data != [] || Has(s.flags, FIN) then SendTcp(q, ACK, [], link).0 else q
  }

  function OnTcp(n: Net, src: dword, p: Bytes, link: Link): (Net, bool) {
    match ParseTcp(p)
    case None => (n, true)
    case Some(s) =>
      if src != n.resolvedIp || s.srcPort != 80 || s.dstPort != n.port then (n, true)
      else if Accepts(n, s) then OnAccept(n, src, s, link)
      else if !n.established then (n, true)
      else (OnEstablished(n, src, s, link), true)
  }

  /** The packet of a frame that the stack takes up, if any. */
  function Delivered(n: Net, p: Bytes): Option<Packet> {
    match Parse(p)
    case None => None
    case Some(packet) =>
      if Read16(p, 6) % 0x4000 != 0 || (n.configured && packet.dst != n.lease.ip && packet.dst != 0xFFFF_FFFF) then None
      else Some(packet)
  }

  function OnIpv4(n: Net, p: Bytes, link: Link): (Net, bool) {
    match Delivered(n, p)
    case None => (n, true)
    case Some(packet) =>
      if packet.proto == UDP then OnUdp(n, packet.body, link)
      else if packet.proto == 1 then (OnIcmp(n, packet.src, packet.body), true)
      else if packet.proto == TCP then OnTcp(n, packet.src, packet.body, link)
      else (n, true)
  }

  predicate ForUs(n: Net, frame: Bytes)
    requires |frame| >= 14
  {
    frame[..6] == n.mac || frame[..6] == BROADCAST || frame[0] % 2 == 1
  }

  function OnFrame(n: Net, frame: Bytes, link: Link): (Net, bool) {
    if |frame| < 14 then (n, false)
    else if !ForUs(n, frame) then (n, true)
    else if Read16(frame, 12) == ARP_TYPE then OnArp(n, frame[14..], link)
    else if Read16(frame, 12) == ETHERTYPE then OnIpv4(n, frame[14..], link)
    else (n, true)
  }

  // -------------------------------------------------------------------- the program

  datatype NetConfig = NetConfig(mac: Mac, lease: Lease)

  datatype DhcpState = DhcpState(xid: dword, offeredIp: dword, offerServer: dword,
                                 requested: bool, renewing: bool, waited: nat, age: dword)

  datatype Gateway = Gateway(mac: Mac, known: bool)

  datatype TcpState = TcpState(resolvedIp: dword, port: word, seqno: dword, ack: dword,
                               synSent: bool, established: bool, httpSent: bool, internetOk: bool)

  datatype Log = Log(sent: seq<Sent>, events: seq<NetEvent>, renewals: seq<dword>)

  /** The fields of the source's class, its flags and counters grouped by what they belong to. */
  class StandaloneNetStack {
    var cfg: NetConfig
    var sending: bool
    var seed: dword
    var dhcp: DhcpState
    var gateway: Gateway
    var configured: bool
    var dnsId: word
    var ipId: word
    var tcp: TcpState
    /** What was handed to the sender, what was announced, and when renewal was attempted. */
    ghost var log: Log

    ghost function View(): Net
      reads this
    {
      Net(cfg.mac, cfg.lease, sending, seed, dhcp.xid, dhcp.offeredIp, dhcp.offerServer, tcp.resolvedIp,
          gateway.mac, gateway.known, configured, tcp.internetOk, dhcp.requested, dhcp.renewing, dhcp.waited, dhcp.age,
          dnsId, ipId, tcp.port, tcp.seqno, tcp.ack, tcp.synSent, tcp.established, tcp.httpSent,
          log.sent, log.events, log.renewals)
    }

    constructor ()
      ensures View() == RESET
    {
      cfg, sending, seed, dhcp := NetConfig(ZERO_MAC, NO_LEASE), false, 0, DhcpState(0, 0, 0, false, false, 0, 0);
      gateway, configured, dnsId, ipId := Gateway(ZERO_MAC, false), false, 0, 1;
      tcp, log := TcpState(0, 0, 0, 0, false, false, false, false), Log([], [], []);
    }

    method Reset()
      modifies this
      ensures View() == RESET
    {
      cfg := NetConfig(ZERO_MAC, NO_LEASE);
      sending, seed := false, 0;
      dhcp := DhcpState(0, 0, 0, false, false, 0, 0);
      gateway := Gateway(ZERO_MAC, false);
      configured, dnsId, ipId := false, 0, 1;
      tcp := TcpState(0, 0, 0, 0, false, false, false, false);
      log := Log([], [], []);
    }

    ghost method Event(e: NetEvent)
      modifies this`log
      ensures View() == Announce(old(View()), e)
    {
      log := log.(events := log.events + [e]);
    }

    method SendFrame(frame: Bytes, link: Link) returns (ok: bool)
      modifies this`log
      ensures (View(), ok) == Transmit(old(View()), frame, link)
    {
      if !sending || |frame| < 14 {
        return false;
      }
      log := log.(sent := log.sent + [Sent(frame, configured, cfg.lease.ip)]);
      return link(frame);
    }

    method SendIpv4Raw(dst: dword, proto: byte, payload: Bytes, to: Mac, link: Link) returns (ok: bool)
      modifies this`log, this`ipId
      ensures (View(), ok) == SendRaw(old(View()), dst, proto, payload, to, link)
    {
      hide Frame, Transmit;
      if |payload| > MAX_PAYLOAD {
        return false;
      }
      var id := ipId;
      ipId := Wrap16(ipId + 1);
      var frame := BuildFrame(to, cfg.mac, id, Packet(if configured then cfg.lease.ip else 0, dst, proto, payload));
      ok := SendFrame(frame, link);
    }

    method SendIpv4Udp(dst: dword, srcPort: word, dstPort: word, payload: Bytes, to: Mac, link: Link) returns (ok: bool)
      modifies this`log, this`ipId
      ensures (View(), ok) == SendUdp(old(View()), dst, srcPort, dstPort, payload, to, link)
    {
      hide UdpBytes, SendRaw;
      if |payload| > 1400 {
        return false;
      }
      var udp := BuildUdp(if configured then cfg.lease.ip else 0, dst, srcPort, dstPort, payload);
      ok := SendIpv4Raw(dst, UDP, udp, to, link);
    }

    method SendTcpAck(flags: byte, payload: Bytes, link: Link) returns (ok: bool)
      modifies this`log, this`ipId
      ensures (View(), ok) == SendTcp(old(View()), flags, payload, link)
    {
      hide TcpBytes, SendRaw;
      if tcp.resolvedIp == 0 || !gateway.known || |payload| > 1400 {
        return false;
      }
      var segment := BuildTcp(cfg.lease.ip, tcp.resolvedIp, Segment(tcp.port, 80, tcp.seqno, tcp.ack, flags, payload));
      ok := SendIpv4Raw(tcp.resolvedIp, TCP, segment, gateway.mac, link);
    }

    method SendDhcpDiscover(link: Link) returns (ok: bool)
      modifies this`dhcp, this`log, this`ipId
      ensures (View(), ok) == SendDiscover(old(View()), link)
    {
      hide Discover, SendUdp;
      dhcp := dhcp.(requested := false, renewing := false, waited := 0);
      Event(DhcpDiscover(dhcp.xid));
      ok := SendIpv4Udp(0xFFFF_FFFF, 68, 67, Discover(dhcp.xid, cfg.mac), BROADCAST, link);
    }

    method SendDhcpRequest(link: Link) returns (ok: bool)
      modifies this`dhcp, this`log, this`ipId
      ensures (View(), ok) == SendRequest(old(View()), link)
    {
      hide Request, SendUdp;
      if dhcp.offeredIp == 0 || dhcp.offerServer == 0 {
        return false;
      }
      dhcp := dhcp.(renewing := false, waited := 0, requested := true);
      ok := SendIpv4Udp(0xFFFF_FFFF, 68, 67, Request(dhcp.xid, cfg.mac, dhcp.offeredIp, dhcp.offerServer), BROADCAST, link);
    }

    method SendDhcpRenew(link: Link) returns (ok: bool)
      modifies this`dhcp, this`log, this`ipId
      ensures (View(), ok) == SendRenew(old(View()), link)
    {
      hide Renew, SendUdp, Xor;
      if !configured || !gateway.known || cfg.lease.server == 0 {
        return false;
      }
      dhcp := dhcp.(xid := Xor(Xor(dhcp.xid, dhcp.age), 0x5245_4E45), renewing := true, waited := 0);
      ok := SendIpv4Udp(cfg.lease.server, 68, 67, Renew(dhcp.xid, cfg.mac, cfg.lease.ip), gateway.mac, link);
    }

    method Start(mac: Mac, hasSend: bool, seed: dword, link: Link) returns (ok: bool)
      modifies this
      ensures (View(), ok) == Started(mac, hasSend, seed, link)
    {
      hide SendDiscover, Seeded;
      Reset();
      if mac == ZERO_MAC || !hasSend {
        return false;
      }
      Seed(mac, seed);
      ok := SendDhcpDiscover(link);
    }

    method Seed(mac: Mac, seed: dword)
      requires View() == RESET
      modifies this
      ensures View() == Seeded(mac, seed)
    {
      hide Xor, XidOf, DnsIdOf;
      var s: dword := if seed == 0 then 0x39C0_0001 else seed;
      cfg := cfg.(mac := mac);
      sending, this.seed := true, s;
      dhcp := dhcp.(xid := XidOf(mac, s));
      dnsId := DnsIdOf(dhcp.xid);
      tcp := tcp.(port := 49152 + s % 0x1000, seqno := Xor(s, 0xA5C3_9B17));
    }

    method Expire()
      modifies this
      ensures View() == Expired(old(View()))
    {
      configured := false;
      gateway := gateway.(known := false);
      dhcp := dhcp.(renewing := false, offeredIp := 0, offerServer := 0);
      cfg := cfg.(lease := NO_LEASE);
    }

    method TickOneSecond(link: Link)
      modifies this
      ensures View() == Ticked(old(View()), link)
    {
      hide SendDiscover, SendRequest, SendRenew, Expired;
      if !sending {
        return;
      }
      var ok: bool;
      if !configured {
        dhcp := dhcp.(waited := dhcp.waited + 1);
        if dhcp.waited >= 4 {
          dhcp := dhcp.(waited := 0);
          if dhcp.requested && dhcp.offeredIp != 0 {
            ok := SendDhcpRequest(link);
          } else {
            ok := SendDhcpDiscover(link);
          }
        }
        return;
      }
      if cfg.lease.seconds == 0 {
        return;
      }
      AgeOneSecond(link);
      if dhcp.age >= cfg.lease.seconds {
        Expire();
        ok := SendDhcpDiscover(link);
      }
    }

    method AgeOneSecond(link: Link)
      modifies this
      ensures View() == Aged(old(View()), link)
    {
      hide SendRenew;
      dhcp := dhcp.(age := Wrap32(dhcp.age + 1));
      var t1: dword := cfg.lease.seconds / 2;
      if t1 == 0 {
        t1 := 1;
      }
      if dhcp.age == t1 {
        log := log.(renewals := log.renewals + [dhcp.age]);
        var ok := SendDhcpRenew(link);
      }
    }

    method SendArpRequest(target: dword, link: Link) returns (ok: bool)
      modifies this`log
      ensures (View(), ok) == SendArp(old(View()), target, link)
    {
      hide ArpFrame, Transmit;
      ok := SendFrame(ArpFrame(BROADCAST, cfg.mac, 1, cfg.lease.ip, ZERO_MAC, target), link);
    }

    method BuildEcho(id: word, sequence: word, destination: dword) returns (icmp: Bytes)
      ensures icmp == Echo(id, sequence, seed, destination)
    {
      hide WordSum, Xor;
      icmp := [8, 0, 0, 0] + Be16(id) + Be16(sequence) + Be32(seed) + Be32(Xor(destination, seed));
      var c := ChecksumOf(icmp);
      icmp := Put16(icmp, 2, c);
    }

    method SendEcho(destination: dword, id: word, sequence: word, link: Link) returns (ok: bool)
      modifies this`log, this`ipId
      ensures (View(), ok) == SendPing(old(View()), destination, id, sequence, link)
    {
      hide Echo, SendRaw;
      if !configured || !gateway.known {
        return false;
      }
      var icmp := BuildEcho(id, sequence, destination);
      ok := SendIpv4Raw(destination, 1, icmp, gateway.mac, link);
    }

    method SendDnsQuery(link: Link) returns (ok: bool)
      modifies this`log, this`ipId
      ensures (View(), ok) == SendQuery(old(View()), link)
    {
      hide Query, SendUdp;
      if !configured || !gateway.known {
        return false;
      }
      ok := SendIpv4Udp(cfg.lease.dns, Wrap16(53000 + dnsId % 0x400), 53, Query(dnsId), gateway.mac, link);
    }

    method SendTcpSyn(link: Link) returns (ok: bool)
      modifies this`tcp, this`log, this`ipId
      ensures (View(), ok) == SendSyn(old(View()), link)
    {
      hide SendTcp;
      if tcp.resolvedIp == 0 || !gateway.known {
        return false;
      }
      tcp := tcp.(synSent := true);
      ok := SendTcpAck(SYN, [], link);
      if ok {
        tcp := tcp.(seqno := Wrap32(tcp.seqno + 1));
      }
    }

    method HandleGateway(a: Arp, link: Link) returns (ok: bool)
      modifies this`gateway, this`log, this`ipId
      ensures (View(), ok) == OnGateway(old(View()), a, link)
    {
      hide SendPing, SendQuery, Xor;
      gateway := Gateway(a.senderMac, true);
      Event(GatewayResolved(a.senderIp));
      ok := SendEcho(cfg.lease.gateway, Xor(dnsId, 0x1111) % 0x1_0000, 1, link);
      ok := SendDnsQuery(link);
    }

    method HandleArp(p: Bytes, link: Link) returns (ok: bool)
      modifies this
      ensures (View(), ok) == OnArp(old(View()), p, link)
    {
      hide OnGateway, Transmit, ArpFrame, ParseArp;
      var arp := ParseArp(p);
      if arp.None? {
        return true;
      }
      var a := arp.value;
      if a.op == 2 && configured && a.senderIp == cfg.lease.gateway {
        ok := HandleGateway(a, link);
        return;
      }
      if a.op == 1 && configured && a.targetIp == cfg.lease.ip {
        ok := SendFrame(ArpFrame(a.senderMac, cfg.mac, 2, cfg.lease.ip, a.senderMac, a.senderIp), link);
        return;
      }
      return true;
    }

    method HandleOffer(yiaddr: dword, server: dword, o: Options, link: Link) returns (ok: bool)
      modifies this
      ensures (View(), ok) == OnOffer(old(View()), yiaddr, server, o, link)
    {
      hide SendRequest;
      dhcp := dhcp.(waited := 0, offeredIp := yiaddr, offerServer := server);
      cfg := cfg.(lease := cfg.lease.(subnet := o.subnet, gateway := o.router, dns := o.dns, seconds := o.lease));
      Event(DhcpOffer(yiaddr));
      ok := SendDhcpRequest(link);
    }

    method Overlay(ip: dword, o: Options) returns (l: Lease)
      ensures l == Overlaid(cfg.lease, dhcp.offerServer, ip, o)
    {
      l := cfg.lease.(ip := ip);
      if o.subnet != 0 {
        l := l.(subnet := o.subnet);
      }
      if o.router != 0 {
        l := l.(gateway := o.router);
      }
      if o.dns != 0 {
        l := l.(dns := o.dns);
      }
      l := l.(server := if o.server != 0 then o.server else dhcp.offerServer);
      if o.lease != 0 {
        l := l.(seconds := o.lease);
      }
    }

    method Default(given: Lease) returns (l: Lease)
      ensures l == Defaulted(given)
    {
      l := given;
      if l.subnet == 0 {
        l := l.(subnet := 0xFFFF_FF00);
      }
      if l.gateway == 0 {
        l := l.(gateway := l.server);
      }
      if l.dns == 0 {
        l := l.(dns := l.gateway);
      }
    }

    method TakeLease(ip: dword, o: Options)
      modifies this`cfg, this`configured, this`dhcp
      ensures View() == Bound(old(View()), Acknowledged(old(View()), ip, o))
    {
      hide Overlaid, Defaulted;
      var l := Overlay(ip, o);
      l := Default(l);
      cfg := cfg.(lease := l);
      configured := l.ip != 0 && l.gateway != 0 && l.dns != 0;
      dhcp := dhcp.(renewing := false, waited := 0, age := 0);
    }

    method HandleAck(yiaddr: dword, o: Options, link: Link) returns (ok: bool)
      modifies this
      ensures (View(), ok) == OnAck(old(View()), yiaddr, o, link)
    {
      hide SendArp, Acknowledged, Bound;
      var ip := if yiaddr != 0 then yiaddr else if dhcp.renewing then cfg.lease.ip else 0;
      if ip == 0 || (!dhcp.renewing && dhcp.offeredIp != 0 && ip != dhcp.offeredIp) {
        return true;
      }
      TakeLease(ip, o);
      ok := AnnounceLease(link);
    }

    method AnnounceLease(link: Link) returns (ok: bool)
      modifies this`log
      ensures (View(), ok) == Announced(old(View()), link)
    {
      hide SendArp;
      if !configured {
        Event(Failure(0x4448_4350));
        return false;
      }
      Event(DhcpBound(cfg.lease.ip));
      ok := SendArpRequest(cfg.lease.gateway, link);
    }

    method HandleDhcp(p: Bytes, link: Link) returns (ok: bool)
      modifies this
      ensures (View(), ok) == OnDhcp(old(View()), p, link)
    {
      hide OnOffer, OnAck, Walk;
      if !IsReply(p, dhcp.xid) {
        return true;
      }
      var yiaddr := Read32(p, 16);
      var o := WalkOptions(p);
      if o.msg == 2 && yiaddr != 0 {
        ok := HandleOffer(yiaddr, if o.server != 0 then o.server else Read32(p, 20), o, link);
        return;
      }
      if o.msg == 5 {
        ok := HandleAck(yiaddr, o, link);
        return;
      }
      if o.msg == 6 {
        Event(Failure(0x4E41_4B00));
        return false;
      }
      return true;
    }

    method HandleDns(p: Bytes, link: Link) returns (ok: bool)
      modifies this
      ensures (View(), ok) == OnDns(old(View()), p, link)
    {
      hide SendSyn, Resolved;
      if |p| < 12 || Read16(p, 0) != dnsId || Read16(p, 2) < 0x8000 {
        return true;
      }
      var answer := FindAddress(p);
      match answer {
        case Malformed =>
          return true;
        case NoAddress =>
          Event(Failure(0x444E_5300));
          return false;
        case Address(ip) =>
          tcp := tcp.(resolvedIp := ip);
          Event(DnsResolved(ip));
          ok := SendTcpSyn(link);
      }
    }

    method HandleUdp(p: Bytes, link: Link) returns (ok: bool)
      modifies this
      ensures (View(), ok) == OnUdp(old(View()), p, link)
    {
      hide OnDhcp, OnDns, ParseUdp;
      var d := ParseUdp(p);
      if d.None? {
        return true;
      }
      if d.value.srcPort == 67 && d.value.dstPort == 68 {
        ok := HandleDhcp(d.value.data, link);
        return;
      }
      if d.value.srcPort == 53 && d.value.dstPort == Wrap16(53000 + dnsId % 0x400) {
        ok := HandleDns(d.value.data, link);
        return;
      }
      return true;
    }

    method HandleIcmp(src: dword, p: Bytes)
      modifies this`log
      ensures View() == OnIcmp(old(View()), src, p)
    {
      if |p| >= 8 && p[0] == 0 {
        Event(IcmpReply(src));
      }
    }

    method HandleAccept(src: dword, s: Segment, link: Link) returns (ok: bool)
      modifies this
      ensures (View(), ok) == OnAccept(old(View()), src, s, link)
    {
      hide SendTcp, HttpGet;
      tcp := tcp.(ack := Wrap32(s.seqno + 1), established := true);
      Event(TcpConnected(src));
      ok := SendTcpAck(ACK, [], link);
      if !ok {
        return false;
      }
      ok := SendTcpAck(PSH_ACK, HttpGet(), link);
      if !ok {
        return false;
      }
      tcp := tcp.(seqno := Wrap32(tcp.seqno + |HttpGet()|), httpSent := true);
    }

    method HandleData(src: dword, s: Segment)
      modifies this`tcp, this`log
      ensures View() == OnData(old(View()), src, s)
    {
      hide HasHttp;
      if s.data != [] && s.seqno == tcp.ack {
        tcp := tcp.(ack := Wrap32(tcp.ack + |s.data|));
        var http := ContainsHttp(s.data);
        if http && !tcp.internetOk {
          tcp := tcp.(internetOk := true);
          Event(HttpResponse(src));
        }
      }
    }

    method HandleEstablished(src: dword, s: Segment, link: Link)
      modifies this
      ensures View() == OnEstablished(old(View()), src, s, link)
    {
      hide SendTcp, OnData;
      HandleData(src, s);
      if Has(s.flags, FIN) && Wrap32(s.seqno + |s.data|) == tcp.ack {
        tcp := tcp.(ack := Wrap32(tcp.ack + 1));
      }
      if s.data != [] || Has(s.flags, FIN) {
        var ok := SendTcpAck(ACK, [], link);
      }
    }

    method HandleTcp(src: dword, p: Bytes, link: Link) returns (ok: bool)
      modifies this
      ensures (View(), ok) == OnTcp(old(View()), src, p, link)
    {
      hide OnAccept, OnEstablished, ParseTcp;
      var parsed := ParseTcp(p);
      if parsed.None? || src != tcp.resolvedIp || parsed.value.srcPort != 80 || parsed.value.dstPort != tcp.port {
        return true;
      }
      var s := parsed.value;
      if tcp.synSent && !tcp.established && Has(s.flags, SYN) && Has(s.flags, ACK) && s.ack == tcp.seqno {
        ok := HandleAccept(src, s, link);
        return;
      }
      if !tcp.established {
        return true;
      }
      HandleEstablished(src, s, link);
      return true;
    }

    method HandleIpv4(p: Bytes, link: Link) returns (ok: bool)
      modifies this
      ensures (View(), ok) == OnIpv4(old(View()), p, link)
    {
      hide OnUdp, OnTcp, OnIcmp, Parse;
      var parsed := Parse(p);
      if parsed.None? {
        return true;
      }
      var packet := parsed.value;
      ParsedLength(p);
      if Read16(p, 6) % 0x4000 != 0 {
        return true;
      }
      if configured && packet.dst != cfg.lease.ip && packet.dst != 0xFFFF_FFFF {
        return true;
      }
      if packet.proto == UDP {
        ok := HandleUdp(packet.body, link);
        return;
      }
      if packet.proto == 1 {
        HandleIcmp(packet.src, packet.body);
        return true;
      }
      if packet.proto == TCP {
        ok := HandleTcp(packet.src, packet.body, link);
        return;
      }
      return true;
    }

    method OnEthernetFrame(frame: Bytes, link: Link) returns (ok: bool)
      modifies this
      ensures (View(), ok) == OnFrame(old(View()), frame, link)
    {
      hide OnArp, OnIpv4;
      if |frame| < 14 {
        return false;
      }
      if frame[..6] != cfg.mac && frame[..6] != BROADCAST && frame[0] % 2 == 0 {
        return true;
      }
      var kind := Read16(frame, 12);
      if kind == ARP_TYPE {
        ok := HandleArp(frame[14..], link);
        return;
      }
      if kind == ETHERTYPE {
        ok := HandleIpv4(frame[14..], link);
        return;
      }
      return true;
    }
  }

  lemma ParsedLength(p: Bytes)
    ensures Parse(p).Some? ==> |p| >= 20
  {
  }
}
