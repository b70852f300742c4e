/**
 The IPv4, UDP and TCP packets that both private stacks build (SendIpv4Raw,
 SendIpv4Udp, SendTcp/SendTcpAck) and the header checks with which they receive.
 Every packet built here passes a receiver's checksum tests and parses back to
 what it was built from.
 */
module Ipv4 {
  import opened Bytes
  import opened Checksum

  const ETHERTYPE := 0x0800
  const UDP: byte := 17
  const TCP: byte := 6
  const MAX_PAYLOAD := 1480

  const FIN: byte := 0x01
  const SYN: byte := 0x02
  const RST: byte := 0x04
  const ACK: byte := 0x10
  const PSH_ACK: byte := 0x18
  const FIN_ACK: byte := 0x11

  predicate Has(flags: byte, bit: byte)
    requires bit > 0
  {
    flags / bit % 2 == 1
  }

  datatype Packet = Packet(src: dword, dst: dword, proto: byte, body: Bytes)

  datatype Segment = Segment(srcPort: word, dstPort: word, seqno: dword, ack: dword, flags: byte, data: Bytes)

  // --------------------------------------------------------------- building

  function Header0(id: word, total: word, proto: byte, src: dword, dst: dword): (r: Bytes)
    ensures |r| == 20
  {
    [0x45, 0, total / 0x100, total % 0x100, id / 0x100, id % 0x100, 0x40, 0, 64, proto, 0, 0] + Be32(src) + Be32(dst)
  }

  function Header(id: word, total: word, proto: byte, src: dword, dst: dword): (r: Bytes)
    ensures |r| == 20
  {
    var h := Header0(id, total, proto, src, dst);
    Put16(h, 10, Finished(WordSum(h)))
  }

  function Frame(to: Mac, from: Mac, id: word, p: Packet): (r: Bytes)
    requires |p.body| <= MAX_PAYLOAD
    ensures |r| == 34 + |p.body|
  {
    to + from + Be16(ETHERTYPE) + Header(id, 20 + |p.body|, p.proto, p.src, p.dst) + p.body
  }

  method BuildFrame(to: Mac, from: Mac, id: word, p: Packet) returns (frame: Bytes)
    requires |p.body| <= MAX_PAYLOAD
    ensures frame == Frame(to, from, id, p)
  {
    var ip := Zeros(20);
    ip := ip[0 := 0x45];
    ip := Put16(ip, 2, 20 + |p.body|);
    ip := Put16(ip, 4, id);
    ip := Put16(ip, 6, 0x4000);
    ip := ip[8 := 64][9 := p.proto];
    ip := Put32(ip, 12, p.src);
    ip := Put32(ip, 16, p.dst);
    assert ip == Header0(id, 20 + |p.body|, p.proto, p.src, p.dst);
    var c := ChecksumOf(ip);
    ip := Put16(ip, 10, c);
    frame := to + from + Be16(ETHERTYPE) + ip + p.body;
  }

  function Udp0(srcPort: word, dstPort: word, payload: Bytes): (r: Bytes)
    requires |payload| <= 1400
    ensures |r| == 8 + |payload| && Read16(r, 6) == 0
  {
    Be16(srcPort) + Be16(dstPort) + Be16(8 + |payload|) + [0, 0] + payload
  }

  function UdpBytes(src: dword, dst: dword, srcPort: word, dstPort: word, payload: Bytes): (r: Bytes)
    requires |payload| <= 1400
    ensures |r| == 8 + |payload|
  {
    var u := Udp0(srcPort, dstPort, payload);
    Put16(u, 6, Field(SegmentSum(src, dst, UDP, u)))
  }

  method BuildUdp(src: dword, dst: dword, srcPort: word, dstPort: word, payload: Bytes) returns (udp: Bytes)
    requires |payload| <= 1400
    ensures udp == UdpBytes(src, dst, srcPort, dstPort, payload)
  {
    udp := Be16(srcPort) + Be16(dstPort) + Be16(8 + |payload|) + [0, 0] + payload;
    var c := TransportChecksum(src, dst, UDP, udp);
    udp := Put16(udp, 6, c);
  }

  function Tcp0(s: Segment): (r: Bytes)
    requires |s.data| <= 1400
    ensures |r| == 20 + |s.data| && Read16(r, 16) == 0
  {
    Be16(s.srcPort) + Be16(s.dstPort) + Be32(s.seqno) + Be32(s.ack)
    + [0x50, s.flags, 0x80, 0, 0, 0, 0, 0] + s.data
  }

  function TcpBytes(src: dword, dst: dword, s: Segment): (r: Bytes)
    requires |s.data| <= 1400
    ensures |r| == 20 + |s.data|
  {
    var t := Tcp0(s);
    Put16(t, 16, Field(SegmentSum(src, dst, TCP, t)))
  }

  method BuildTcp(src: dword, dst: dword, s: Segment) returns (tcp: Bytes)
    requires |s.data| <= 1400
    ensures tcp == TcpBytes(src, dst, s)
  {
    tcp := Zeros(20);
    tcp := Put16(tcp, 0, s.srcPort);
    tcp := Put16(tcp, 2, s.dstPort);
    tcp := Put32(tcp, 4, s.seqno);
    tcp := Put32(tcp, 8, s.ack);
    tcp := tcp[12 := 0x50][13 := s.flags];
    tcp := Put16(tcp, 14, 32768);
    tcp := tcp + s.data;
    assert tcp == Tcp0(s);
    var c := TransportChecksum(src, dst, TCP, tcp);
    tcp := Put16(tcp, 16, c);
  }

  // ---------------------------------------------------------------- parsing

  /** The header checks of both receivers; `p` starts at the IPv4 header. */
  function Parse(p: Bytes): (r: Option<Packet>) {
    if |p| < 20 || p[0] / 16 != 4 then None else
    var ihl := p[0] % 16 * 4;
    if ihl < 20 || ihl > |p| then None else
    var total := Read16(p, 2);
    if total < ihl || total > |p| then None
    else Some(Packet(Read32(p, 12), Read32(p, 16), p[9], p[ihl..total]))
  }

  function ParseTcp(p: Bytes): Option<Segment> {
    if |p| < 20 then None else
    var hlen := p[12] / 16 * 4;
    if hlen < 20 || hlen > |p| then None
    else Some(Segment(Read16(p, 0), Read16(p, 2), Read32(p, 4), Read32(p, 8), p[13], p[hlen..]))
  }

  // ----------------------------------------------------------- what is sent

  lemma HeaderVerifies(id: word, total: word, proto: byte, src: dword, dst: dword)
    ensures Verifies(WordSum(Header(id, total, proto, src, dst)))
  {
    var h := Header0(id, total, proto, src, dst);
    WordSumPut16(h, 10, Finished(WordSum(h)));
    FinishedVerifies(WordSum(h));
  }

  lemma HeaderFields(id: word, total: word, proto: byte, src: dword, dst: dword)
    ensures var h := Header(id, total, proto, src, dst);
            h[0] == 0x45 && Read16(h, 2) == total && Read16(h, 6) == 0x4000 && h[9] == proto &&
            Read32(h, 12) == src && Read32(h, 16) == dst
  {
  }

  lemma HeaderParses(h: Bytes, p: Packet)
    requires |h| == 20 && h[0] == 0x45 && Read16(h, 2) == 20 + |p.body| && h[9] == p.proto
    requires Read32(h, 12) == p.src && Read32(h, 16) == p.dst
    ensures Parse(h + p.body) == Some(p)
  {
    var d := h + p.body;
    assert d[0] == h[0] && d[9] == h[9];
    ReadAppend(h, p.body, 2);
    ReadAppend(h, p.body, 12);
    ReadAppend(h, p.body, 16);
    assert d[20..20 + |p.body|] == p.body;
  }

  /** A built frame has a correct header checksum and parses back to its packet. */
  lemma FrameParses(to: Mac, from: Mac, id: word, p: Packet)
    requires |p.body| <= MAX_PAYLOAD
    ensures var f := Frame(to, from, id, p);
            f[..6] == to && f[6..12] == from && Read16(f, 12) == ETHERTYPE &&
            Verifies(WordSum(f[14..34])) && Parse(f[14..]) == Some(p)
  {
    hide Header, Parse, WordSum, Verifies;
    var h := Header(id, 20 + |p.body|, p.proto, p.src, p.dst);
    var f := Frame(to, from, id, p);
    HeaderVerifies(id, 20 + |p.body|, p.proto, p.src, p.dst);
    HeaderFields(id, 20 + |p.body|, p.proto, p.src, p.dst);
    HeaderParses(h, p);
    assert f[14..34] == h;
    assert f[14..] == h + p.body;
    assert f[12] == 8 && f[13] == 0;
  }

  /** A built UDP datagram verifies with its pseudo header; its checksum is never 0. */
  lemma UdpVerifies(src: dword, dst: dword, srcPort: word, dstPort: word, payload: Bytes)
    requires |payload| <= 1400
    ensures var u := UdpBytes(src, dst, srcPort, dstPort, payload);
            Verifies(SegmentSum(src, dst, UDP, u)) && Read16(u, 6) != 0 &&
            Read16(u, 0) == srcPort && Read16(u, 2) == dstPort && Read16(u, 4) == |u| && u[8..] == payload
  {
    StoredFieldVerifies(src, dst, UDP, Udp0(srcPort, dstPort, payload), 6);
  }

  lemma TcpVerifies(src: dword, dst: dword, s: Segment)
    requires |s.data| <= 1400
    ensures Verifies(SegmentSum(src, dst, TCP, TcpBytes(src, dst, s)))
    ensures ParseTcp(TcpBytes(src, dst, s)) == Some(s)
  {
    StoredFieldVerifies(src, dst, TCP, Tcp0(s), 16);
    var t := Tcp0(s);
    assert t[20..] == s.data;
  }
}
