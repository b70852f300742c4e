/**
 What the standalone stack (src/net_stack.cpp) asks of others, read by readers of their
 own, what it makes of an echo reply and a refusal, and what it turns away.
 */
module NetQueries {
  import opened Bytes
  import opened Checksum
  import opened Ipv4
  import opened NetWire
  import opened NetStack
  import opened NetRuns
  import opened NetConditions
  import opened NetLease
  import opened NetExchange
  import D = NetAnswers

  // ------------------------------------------------------------------ name and echo

  function ExampleCom(): D.Name {
    D.Name([[101, 120, 97, 109, 112, 108, 101], [99, 111, 109]], None)
  }

  lemma ExampleOk()
    ensures D.NameOk(ExampleCom()) && D.NameBytes(ExampleCom()) == EXAMPLE
  {
    var labels: seq<Bytes> := ExampleCom().labels;
    assert labels[1..] == [labels[1]] && |labels[1..][1..]| == 0;
    assert D.LabelBytes(labels) == [7] + labels[0] + ([3] + labels[1] + []);
  }

  /** A recursive query for the IPv4 address of example.com. */
  function AsksName(id: word): Bytes {
    ExampleOk();
    D.Message(id, 0x0100, [D.Question(ExampleCom(), 1, 1)], [], 0, [])
  }

  lemma QueryBytes(id: word)
    ensures Query(id) == AsksName(id)
  {
    hide D.NameBytes, Be32;
    ExampleOk();
    var q := D.Question(ExampleCom(), 1, 1);
    assert [q][1..] == [];
    assert D.QuestionsBytes([q]) == EXAMPLE + ([0, 1] + [0, 1]);
    assert D.RecordsBytes([]) == [];
    assert D.Header(id, 0x0100, 1, 0, 0) == Be16(id) + [1, 0] + [0, 1] + [0, 0] + [0, 0, 0, 0] by {
      NoRest();
    }
  }

  lemma NoRest()
    ensures Be32(0) == [0, 0, 0, 0]
  {
  }

  /** The packet that asks the name server of the lease carries that query, from a port that depends on its id. */
  lemma QueryReads(n: Net)
    ensures var p := QueryPacket(n);
      && p.src == n.lease.ip && p.dst == n.lease.dns && p.proto == 17
      && ParseUdp(p.body) == Some(Datagram(53000 + n.dnsId % 1024, 53, AsksName(n.dnsId)))
  {
    hide UdpBytes, AsksName, Query;
    QueryBytes(n.dnsId);
    var u := UdpBytes(n.lease.ip, n.lease.dns, DnsPort(n), 53, Query(n.dnsId));
    UdpVerifies(n.lease.ip, n.lease.dns, DnsPort(n), 53, Query(n.dnsId));
    assert u[8..|u|] == u[8..];
  }

  /** The packet that pings the gateway is an echo request with the stack's id and the number 1. */
  lemma PingReads(n: Net)
    ensures var p := PingPacket(n);
      && p.src == n.lease.ip && p.dst == n.lease.gateway && p.proto == 1 && |p.body| == 16
      && p.body[0] == 8 && p.body[1] == 0 && Read16(p.body, 4) == Xor(n.dnsId, 0x1111) % 0x1_0000
      && Read16(p.body, 6) == 1 && Read32(p.body, 8) == n.seed
  {
    hide Xor, Finished, WordSum;
    var seed, tail := Be32(n.seed), Be32(Xor(n.lease.gateway, n.seed));
    var p := PingPacket(n).body;
    assert p[4..6] == Be16(Xor(n.dnsId, 0x1111) % 0x1_0000) && p[6..8] == Be16(1) && p[8..12] == seed;
    ReadSlice(p, 8);
  }

  /** An ICMP message to a configured stack is announced if it is an echo reply, and changes nothing else. */
  lemma EchoHeard(n: Net, from: Mac, id: word, src: dword, body: Bytes, link: Link)
    requires n.configured && |body| <= MAX_PAYLOAD
    ensures Next(n, Receive(ToStack(n, from, id, src, 1, body), link)) ==
      if |body| >= 8 && body[0] == 0 then n.(events := n.events + [IcmpReply(src)]) else n
  {
    hide OnArp, OnUdp, OnTcp, Frame, Parse, Ticked;
    var p := Packet(src, n.lease.ip, 1, body);
    FrameParses(n.mac, from, id, p);
    Unfragmented(n.mac, from, id, p);
  }

  // ------------------------------------------------------------------------ refusals

  /** A server's refusal is announced and leaves the stack as it is; so do messages of any other kind, unannounced. */
  lemma RefusalHeard(n: Net, from: Mac, src: dword, yiaddr: dword, siaddr: dword, items: seq<Item>, link: Link)
    requires Sendable(items)
    requires TypeGiven(items, 0) !in {2, 5} || (TypeGiven(items, 0) == 2 && yiaddr == 0)
    ensures OnFrame(n, FromServer(from, src, n.xid, yiaddr, siaddr, items), link) ==
      if TypeGiven(items, 0) == 6 then (n.(events := n.events + [Failure(0x4E41_4B00)]), false) else (n, true)
  {
    hide OnFrame, OnOffer, OnAck, Walk, IsReply, ServerMessage, Delivered, ParseUdp, ForUs, Datagrammed, Given, TypeGiven;
    var p := ServerMessage(n.xid, yiaddr, siaddr, items);
    ServerHead(n.xid, yiaddr, siaddr, items);
    OptionsRead(p, items, [255]);
    DatagramReads(n, from, src, 67, 68, p);
    DhcpTaken(n, FromServer(from, src, n.xid, yiaddr, siaddr, items), link);
  }

  // --------------------------------------------------------------------- turned away

  /** A frame for another station, a fragment, or, once configured, a packet for another address. */
  predicate Foreign(n: Net, frame: Bytes) {
    || |frame| < 14
    || (frame[..6] != n.mac && frame[0] % 2 == 0)
    || (Read16(frame, 12) == 0x0800 && |frame| >= 34
        && (Read16(frame, 20) % 0x4000 != 0
            || (n.configured && Read32(frame, 30) != n.lease.ip && Read32(frame, 30) != 0xFFFF_FFFF)))
    || (Read16(frame, 12) != 0x0800 && Read16(frame, 12) != 0x0806)
  }

  /** Such a frame changes nothing, and nothing is sent for it. */
  lemma ForeignIgnored(n: Net, frame: Bytes, link: Link)
    requires Foreign(n, frame)
    ensures Next(n, Receive(frame, link)) == n
  {
    hide OnArp, OnUdp, OnTcp, OnIcmp, Ticked;
    if |frame| >= 34 {
      assert Read16(frame[14..], 6) == Read16(frame, 20) && Read32(frame[14..], 16) == Read32(frame, 30);
    }
  }
}
