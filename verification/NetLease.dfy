/**
 What the standalone stack (src/net_stack.cpp) takes from a DHCP server. The messages
 are built here from their options, in any order, with pads, unknown options and
 repetitions; the option walk finds the last value of each code, and from every start
 on an offer and its acknowledgement give the stack the lease they describe.
 */
module NetLease {
  import opened Bytes
  import opened Ipv4
  import opened NetWire
  import opened NetStack
  import opened NetRuns
  import opened NetConditions

  // --------------------------------------------------------------------- options

  datatype Item = Pad | Option(code: byte, value: Bytes)

  predicate ItemOk(i: Item) {
    i.Option? ==> i.code != 0 && i.code != 255 && |i.value| < 0x100
  }

  predicate AllOk(items: seq<Item>) {
    forall i :: 0 <= i < |items| ==> ItemOk(items[i])
  }

  function ItemBytes(i: Item): Bytes
    requires ItemOk(i)
  {
    if i.Pad? then [0] else [i.code, |i.value|] + i.value
  }

  function ItemsBytes(items: seq<Item>): Bytes
    requires AllOk(items)
  {
    if items == [] then [] else ItemsBytes(items[..|items| - 1]) + ItemBytes(items[|items| - 1])
  }

  /** The option has this code and at least this many bytes. */
  predicate Gives(i: Item, code: byte, size: nat) {
    i.Option? && i.code == code && |i.value| >= size
  }

  /** The address that the last option with this code gives; `otherwise` if there is none. */
  function Given(items: seq<Item>, code: byte, otherwise: dword): dword {
    if items == [] then otherwise
    else
      var last := items[|items| - 1];
      if Gives(last, code, 4) then Read32(last.value, 0) else Given(items[..|items| - 1], code, otherwise)
  }

  function TypeGiven(items: seq<Item>, otherwise: byte): byte {
    if items == [] then otherwise
    else
      var last := items[|items| - 1];
      if Gives(last, 53, 1) then last.value[0] else TypeGiven(items[..|items| - 1], otherwise)
  }

  /** What a message says: type (53), subnet mask (1), router (3), name server (6), server (54) and lease time (51). */
  function Said(items: seq<Item>, acc: Options): Options {
    Options(TypeGiven(items, acc.msg), Given(items, 1, acc.subnet), Given(items, 3, acc.router), Given(items, 6, acc.dns),
            Given(items, 54, acc.server), Given(items, 51, acc.lease))
  }

  lemma ReadValue(p: Bytes, o: nat, value: Bytes)
    requires o + |value| <= |p| && p[o..o + |value|] == value && |value| >= 4
    ensures Read32(p, o) == Read32(value, 0)
  {
    assert p[o] == value[0] && p[o + 1] == value[1] && p[o + 2] == value[2] && p[o + 3] == value[3];
  }

  /** One more item behind what the walk has read. */
  lemma ItemRead(p: Bytes, o: nat, i: Item, items: seq<Item>, acc: Options)
    requires ItemOk(i) && o + |ItemBytes(i)| <= |p| && p[o..o + |ItemBytes(i)|] == ItemBytes(i)
    ensures Walk(p, o, Said(items, acc)) == Walk(p, o + |ItemBytes(i)|, Said(items + [i], acc))
  {
    hide Walk, Read32;
    var piece := ItemBytes(i);
    assert (items + [i])[..|items|] == items;
    assert p[o] == piece[0];
    WalkOne(p, o, Said(items, acc));
    if i.Option? {
      assert p[o + 1] == piece[1];
      assert p[o + 2..o + 2 + |i.value|] == i.value by {
        assert p[o..o + |piece|][2..] == piece[2..];
      }
      if |i.value| >= 4 {
        ReadValue(p, o + 2, i.value);
      }
      if |i.value| >= 1 {
        assert p[o + 2] == i.value[0];
      }
    }
  }

  lemma {:induction false} ItemsRead(p: Bytes, o: nat, items: seq<Item>, acc: Options)
    requires AllOk(items) && o + |ItemsBytes(items)| <= |p| && p[o..o + |ItemsBytes(items)|] == ItemsBytes(items)
    ensures Walk(p, o, acc) == Walk(p, o + |ItemsBytes(items)|, Said(items, acc))
    decreases |items|
  {
    hide Walk, Said, ItemBytes;
    if items == [] {
      SaidNothing(acc);
    } else {
      hide ItemsBytes, ItemOk;
      var n := |items| - 1;
      var before, last := ItemsBytes(items[..n]), ItemBytes(items[n]);
      ItemsSnoc(items);
      Split(p, o, before, last);
      ItemsRead(p, o, items[..n], acc);
      ItemRead(p, o + |before|, items[n], items[..n], acc);
      assert items[..n] + [items[n]] == items;
    }
  }

  lemma ItemsSnoc(items: seq<Item>)
    requires AllOk(items) && items != []
    ensures ItemsBytes(items) == ItemsBytes(items[..|items| - 1]) + ItemBytes(items[|items| - 1])
  {
  }

  lemma SaidNothing(acc: Options)
    ensures Said([], acc) == acc
  {
  }

  lemma Split(p: Bytes, o: nat, a: Bytes, b: Bytes)
    requires o + |a| + |b| <= |p| && p[o..o + |a| + |b|] == a + b
    ensures p[o..o + |a|] == a && p[o + |a|..o + |a| + |b|] == b
  {
    var all := p[o..o + |a| + |b|];
    assert all[..|a|] == a && all[|a|..] == b;
  }

  /** Of every message built from options, the walk finds the last value of each code. */
  lemma OptionsRead(p: Bytes, items: seq<Item>, tail: Bytes)
    requires |p| >= 240 && AllOk(items) && p[240..] == ItemsBytes(items) + tail && (tail == [] || tail[0] == 255)
    ensures Walk(p, 240, NO_OPTIONS) == Said(items, NO_OPTIONS)
  {
    hide Walk;
    var n := |ItemsBytes(items)|;
    assert p[240..240 + n] == ItemsBytes(items) && p[240 + n..] == tail;
    ItemsRead(p, 240, items, NO_OPTIONS);
    if tail != [] {
      assert p[240 + n] == tail[0];
      WalkOne(p, 240 + n, Said(items, NO_OPTIONS));
    } else {
      WalkEnds(p, 240 + n, Said(items, NO_OPTIONS));
    }
  }

  lemma WalkEnds(p: Bytes, o: nat, acc: Options)
    requires o >= |p|
    ensures Walk(p, o, acc) == acc
  {
  }

  // -------------------------------------------------------------------- messages

  function ServerMessage(xid: dword, yiaddr: dword, siaddr: dword, items: seq<Item>): (r: Bytes)
    requires AllOk(items)
    ensures |r| == 241 + |ItemsBytes(items)|
  {
    ([2, 1, 6, 0] + Be32(xid) + Zeros(8) + Be32(yiaddr) + Be32(siaddr) + Zeros(212) + COOKIE) + (ItemsBytes(items) + [255])
  }

  lemma ServerHead(xid: dword, yiaddr: dword, siaddr: dword, items: seq<Item>)
    requires AllOk(items)
    ensures var p := ServerMessage(xid, yiaddr, siaddr, items);
      IsReply(p, xid) && Read32(p, 16) == yiaddr && Read32(p, 20) == siaddr && p[240..] == ItemsBytes(items) + [255]
  {
    hide Be32, ItemsBytes;
    var p := ServerMessage(xid, yiaddr, siaddr, items);
    assert p[4..8] == Be32(xid) && p[16..20] == Be32(yiaddr) && p[20..24] == Be32(siaddr) && p[236..240] == COOKIE;
    ReadSlice(p, 4);
    ReadSlice(p, 16);
    ReadSlice(p, 20);
    assert p[240..] == ItemsBytes(items) + [255];
  }

  /** The message fits the largest datagram. */
  predicate Sendable(items: seq<Item>) {
    AllOk(items) && |ItemsBytes(items)| <= 1159
  }

  /** A server's message, broadcast in a frame. */
  function FromServer(from: Mac, src: dword, xid: dword, yiaddr: dword, siaddr: dword, items: seq<Item>): Bytes
    requires Sendable(items)
  {
    Datagrammed(from, src, 67, 68, ServerMessage(xid, yiaddr, siaddr, items))
  }

  /** What becomes of the stack, by the type of the message. */
  lemma ServerHeard(n: Net, from: Mac, src: dword, yiaddr: dword, siaddr: dword, items: seq<Item>, link: Link)
    requires Sendable(items)
    ensures var o := Said(items, NO_OPTIONS);
            var r := OnFrame(n, FromServer(from, src, n.xid, yiaddr, siaddr, items), link);
      && (o.msg == 2 && yiaddr != 0 ==> r == OnOffer(n, yiaddr, Or(o.server, siaddr), o, link))
      && (o.msg == 5 ==> r == OnAck(n, yiaddr, o, link))
  {
    hide OnFrame, OnOffer, OnAck, Walk, IsReply, ServerMessage, Delivered, ParseUdp, ForUs, Datagrammed, Said;
    var p := ServerMessage(n.xid, yiaddr, siaddr, items);
    ServerHead(n.xid, yiaddr, siaddr, items);
    OptionsRead(p, items, [255]);
    DatagramReads(n, from, src, 67, 68, p);
    DhcpTaken(n, FromServer(from, src, n.xid, yiaddr, siaddr, items), link);
  }

  // ----------------------------------------------------------------------- sending

  /** The frame is handed to the sender. */
  function Put(n: Net, frame: Bytes): Net {
    n.(sent := n.sent + [Sent(frame, n.configured, n.lease.ip)])
  }

  /** The packet goes out in the next frame. */
  function PutIp(n: Net, to: Mac, p: Packet): Net
    requires |p.body| <= MAX_PAYLOAD
  {
    Put(n.(ipId := Wrap16(n.ipId + 1)), Frame(to, n.mac, n.ipId, p))
  }

  lemma RawPut(n: Net, dst: dword, proto: byte, payload: Bytes, to: Mac, link: Link)
    requires n.sending && |payload| <= MAX_PAYLOAD
    ensures SendRaw(n, dst, proto, payload, to, link).0 == PutIp(n, to, Packet(Source(n), dst, proto, payload))
    ensures (forall f :: link(f)) ==> SendRaw(n, dst, proto, payload, to, link).1
  {
    hide Frame;
    assert forall p: Packet :: |p.body| <= MAX_PAYLOAD ==> |Frame(to, n.mac, n.ipId, p)| >= 34;
  }

  lemma UdpPut(n: Net, dst: dword, srcPort: word, dstPort: word, payload: Bytes, to: Mac, link: Link)
    requires n.sending && |payload| <= 1400
    ensures SendUdp(n, dst, srcPort, dstPort, payload, to, link).0
         == PutIp(n, to, Packet(Source(n), dst, UDP, UdpBytes(Source(n), dst, srcPort, dstPort, payload)))
  {
    hide SendRaw, UdpBytes, PutIp;
    RawPut(n, dst, UDP, UdpBytes(Source(n), dst, srcPort, dstPort, payload), to, link);
  }

  // --------------------------------------------------------------------- the lease

  /** The Request that answers an offer, sent from address 0. */
  function RequestPacket(xid: dword, mac: Mac, ip: dword, server: dword): (p: Packet)
    ensures |p.body| <= MAX_PAYLOAD
  {
    Packet(0, 0xFFFF_FFFF, UDP, UdpBytes(0, 0xFFFF_FFFF, 68, 67, Request(xid, mac, ip, server)))
  }

  /** A stack that has been offered `ip` by `server` and has asked for it. */
  function Asked(n: Net, ip: dword, server: dword, o: Options): Net {
    var q := n.(waited := 0, offeredIp := ip, offerServer := server, requested := true, renewing := false,
                lease := n.lease.(subnet := o.subnet, gateway := o.router, dns := o.dns, seconds := o.lease),
                events := n.events + [DhcpOffer(ip)]);
    PutIp(q, BROADCAST, RequestPacket(n.xid, n.mac, ip, server))
  }

  lemma OfferAsked(n: Net, ip: dword, server: dword, o: Options, link: Link)
    requires n.sending && !n.configured && ip != 0 && server != 0
    ensures OnOffer(n, ip, server, o, link).0 == Asked(n, ip, server, o)
  {
    hide SendUdp, PutIp, Request, UdpBytes;
    var l := n.lease.(subnet := o.subnet, gateway := o.router, dns := o.dns, seconds := o.lease);
    var q := Announce(n.(waited := 0, offeredIp := ip, offerServer := server, lease := l), DhcpOffer(ip));
    UdpPut(q.(requested := true, renewing := false), 0xFFFF_FFFF, 68, 67, Request(n.xid, n.mac, ip, server), BROADCAST, link);
  }

  /** The first of these that is not 0. */
  function First(a: dword, b: dword, c: dword): dword {
    if a != 0 then a else if b != 0 then b else c
  }

  /** The lease that an offer `o` and its acknowledgement `a` describe. */
  function LeaseOf(ip: dword, server: dword, o: Options, a: Options): Lease {
    var s := First(a.server, server, 0);
    var gateway := First(a.router, o.router, s);
    Lease(ip, First(a.subnet, o.subnet, 0xFFFF_FF00), gateway, First(a.dns, o.dns, gateway), s, First(a.lease, o.lease, 0))
  }

  /** A stack that has taken the lease and asks for the hardware address of its gateway. */
  function Granted(n: Net, l: Lease): Net {
    var q := n.(lease := l, configured := true, renewing := false, waited := 0, age := 0, events := n.events + [DhcpBound(l.ip)]);
    Put(q, ArpFrame(BROADCAST, n.mac, 1, l.ip, ZERO_MAC, l.gateway))
  }

  lemma AckGranted(n: Net, ip: dword, server: dword, o: Options, a: Options, link: Link)
    requires n.sending && !n.renewing && ip != 0 && server != 0 && n.offeredIp == ip && n.offerServer == server
    requires n.lease == NO_LEASE.(subnet := o.subnet, gateway := o.router, dns := o.dns, seconds := o.lease)
    ensures OnAck(n, ip, a, link).0 == Granted(n, LeaseOf(ip, server, o, a))
  {
    hide ArpFrame;
    assert Acknowledged(n, ip, a) == LeaseOf(ip, server, o, a);
  }

  /**
   From every start on, an offer and its acknowledgement, with any options in any order,
   leave the stack configured with exactly the lease that they describe, the gateway being
   the router of option 3 and the name server that of option 6 where they are given, and
   the last frame sent asks for the hardware address of that gateway.
   */
  lemma LeaseTaken(mac: Mac, seed: dword, link: Link, from: Mac, src: dword, ip: dword, siaddr: dword,
                   offer: seq<Item>, ack: seq<Item>)
    requires mac != ZERO_MAC && ip != 0 && Sendable(offer) && Sendable(ack)
    requires TypeGiven(offer, 0) == 2 && TypeGiven(ack, 0) == 5 && Or(Given(offer, 54, 0), siaddr) != 0
    ensures var n := Started(mac, true, seed, link).0;
            var server := Or(Given(offer, 54, 0), siaddr);
            var o, a := Said(offer, NO_OPTIONS), Said(ack, NO_OPTIONS);
            var run := [] + [Receive(FromServer(from, src, n.xid, ip, siaddr, offer), link)]
                       + [Receive(FromServer(from, src, n.xid, ip, siaddr, ack), link)];
      && After(n, run) == Granted(Asked(n, ip, server, o), LeaseOf(ip, server, o, a))
      && var q := After(n, run);
         && q.configured && q.lease == LeaseOf(ip, server, o, a) && q.sent != []
         && q.sent[|q.sent| - 1].frame == ArpFrame(BROADCAST, mac, 1, ip, ZERO_MAC, q.lease.gateway)
  {
    hide Started, After, FromServer, OnFrame, OnOffer, OnAck, Asked, Granted, LeaseOf, ServerMessage, ItemsBytes;
    var n := Started(mac, true, seed, link).0;
    var server := Or(Given(offer, 54, 0), siaddr);
    var o, a := Said(offer, NO_OPTIONS), Said(ack, NO_OPTIONS);
    StartsBare(mac, true, seed, link);
    StartsAs(mac, seed, link);
    Unmoved(n);
    var first := Receive(FromServer(from, src, n.xid, ip, siaddr, offer), link);
    var second := Receive(FromServer(from, src, n.xid, ip, siaddr, ack), link);
    AfterOne(n, [], first);
    AfterOne(n, [] + [first], second);
    ServerHeard(n, from, src, ip, siaddr, offer, link);
    OfferAsked(n, ip, server, o, link);
    AskedFields(n, ip, server, o);
    ServerHeard(Asked(n, ip, server, o), from, src, ip, siaddr, ack, link);
    AckGranted(Asked(n, ip, server, o), ip, server, o, a, link);
    GrantedFields(Asked(n, ip, server, o), LeaseOf(ip, server, o, a));
    LeaseIp(ip, server, o, a);
  }

  lemma AskedFields(n: Net, ip: dword, server: dword, o: Options)
    requires n.lease == NO_LEASE
    ensures var q := Asked(n, ip, server, o);
      && q.sending == n.sending && !q.renewing && q.offeredIp == ip && q.offerServer == server && q.xid == n.xid
      && q.lease == NO_LEASE.(subnet := o.subnet, gateway := o.router, dns := o.dns, seconds := o.lease) && q.mac == n.mac
  {
    hide Frame, RequestPacket;
  }

  lemma GrantedFields(n: Net, l: Lease)
    ensures var q := Granted(n, l);
      && q.configured && q.lease == l && q.sent != []
      && q.sent[|q.sent| - 1].frame == ArpFrame(BROADCAST, n.mac, 1, l.ip, ZERO_MAC, l.gateway)
  {
    hide ArpFrame;
  }

  lemma LeaseIp(ip: dword, server: dword, o: Options, a: Options)
    ensures LeaseOf(ip, server, o, a).ip == ip
    ensures a.subnet != 0 && a.router != 0 && a.dns != 0 && a.server != 0 && a.lease != 0 ==>
      LeaseOf(ip, server, o, a) == Lease(ip, a.subnet, a.router, a.dns, a.server, a.lease)
  {
  }

  lemma StartsAs(mac: Mac, seed: dword, link: Link)
    requires mac != ZERO_MAC
    ensures Started(mac, true, seed, link).0.mac == mac
  {
    hide SendDiscover, Xor;
    DiscoverRest(Seeded(mac, seed), link);
  }
}
