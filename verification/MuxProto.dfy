/**
 usbmux v2 packets with their synthetic TCP header (src/mux_proto.cpp): building
 and parsing undo each other.
 */
module MuxProto {
  import opened Bytes

  const PROTO_TCP: dword := 6
  const MUX_MAGIC: dword := 0xFEED_FACE
  const MUX_HEADER := 16
  const TCP_HEADER := 20

  /** The synthetic TCP header and payload. */
  datatype Tcp = Tcp(srcPort: word, dstPort: word, seqno: dword, ack: dword, flags: byte, window: word, payload: Bytes)

  datatype ParsedMux = ParsedMux(protocol: dword, total: dword, txSeq: word, rxSeq: word, payload: Bytes)

  /** The window field: the window in units of 256, saturating. */
  function Scaled(window: dword): word {
    if window / 0x100 > 0xFFFF then 0xFFFF else window / 0x100
  }

  /** The field, times 256, is the window rounded down, or as much as fits. */
  lemma WindowScaled(window: dword)
    ensures var w := Scaled(window);
      w * 0x100 <= window && (window < (w + 1) * 0x100 || (w == 0xFFFF && window >= 0x100_0000))
  {
  }

  function Header(total: dword, txSeq: word, rxSeq: word): (r: Bytes)
    ensures |r| == MUX_HEADER
  {
    Be32(PROTO_TCP) + Be32(total) + Be32(MUX_MAGIC) + Be16(txSeq) + Be16(rxSeq)
  }

  function TcpBytes(t: Tcp): (r: Bytes)
    ensures |r| == TCP_HEADER + |t.payload|
  {
    Be16(t.srcPort) + Be16(t.dstPort) + Be32(t.seqno) + Be32(t.ack) + [0x50, t.flags] + Be16(t.window) + [0, 0, 0, 0]
    + t.payload
  }

  function Packet(txSeq: word, rxSeq: word, t: Tcp): (r: Bytes)
    requires MUX_HEADER + TCP_HEADER + |t.payload| < TWO_32
    ensures |r| == MUX_HEADER + TCP_HEADER + |t.payload|
  {
    Header(MUX_HEADER + TCP_HEADER + |t.payload|, txSeq, rxSeq) + TcpBytes(t)
  }

  /** None when the packet does not fit. */
  method BuildTcpPacket(capacity: nat, txSeq: word, rxSeq: word, srcPort: word, dstPort: word,
                        seqno: dword, ack: dword, flags: byte, window: dword, payload: Bytes)
    returns (out: Option<Bytes>)
    requires capacity < TWO_32
    ensures out.Some? <==> MUX_HEADER + TCP_HEADER + |payload| <= capacity
    ensures out.Some? ==>
      out.value == Packet(txSeq, rxSeq, Tcp(srcPort, dstPort, seqno, ack, flags, Scaled(window), payload))
  {
    var total := MUX_HEADER + TCP_HEADER + |payload|;
    if capacity < total {
      return None;
    }
    var h := Zeros(MUX_HEADER);
    h := Put32(h, 0, PROTO_TCP);
    h := Put32(h, 4, total);
    h := Put32(h, 8, MUX_MAGIC);
    h := Put16(h, 12, txSeq);
    h := Put16(h, 14, rxSeq);
    assert h == Header(total, txSeq, rxSeq);
    var tcp := BuildTcpHeader(srcPort, dstPort, seqno, ack, flags, window);
    var t := Tcp(srcPort, dstPort, seqno, ack, flags, Scaled(window), payload);
    assert tcp + payload == TcpBytes(t);
    assert h + tcp + payload == h + (tcp + payload);
    return Some(h + tcp + payload);
  }

  method BuildTcpHeader(srcPort: word, dstPort: word, seqno: dword, ack: dword, flags: byte, window: dword)
    returns (tcp: Bytes)
    ensures tcp == TcpBytes(Tcp(srcPort, dstPort, seqno, ack, flags, Scaled(window), []))
  {
    tcp := Zeros(TCP_HEADER);
    tcp := Put16(tcp, 0, srcPort);
    tcp := Put16(tcp, 2, dstPort);
    tcp := Put32(tcp, 4, seqno);
    tcp := Put32(tcp, 8, ack);
    tcp := tcp[12 := 0x50][13 := flags];
    var scaled := window / 0x100;
    if scaled > 0xFFFF {
      scaled := 0xFFFF;
    }
    tcp := Put16(tcp, 14, scaled);
  }

  function ParseMux(data: Bytes, v2: bool): (r: Option<ParsedMux>) {
    var header := if v2 then 16 else 8;
    if |data| < header then None else
    var total := Read32(data, 4);
    if total < header || total > |data| then None
    else if v2 && Read32(data, 8) != MUX_MAGIC then None
    else Some(ParsedMux(Read32(data, 0), total, if v2 then Read16(data, 12) else 0, if v2 then Read16(data, 14) else 0,
                        data[header..total]))
  }

  function ParseTcp(m: ParsedMux): (r: Option<Tcp>) {
    var tcp := m.payload;
    if m.protocol != PROTO_TCP || |tcp| < 20 then None else
    var words := tcp[12] / 16;
    if words < 5 || words * 4 > |tcp| then None
    else Some(Tcp(Read16(tcp, 0), Read16(tcp, 2), Read32(tcp, 4), Read32(tcp, 8), tcp[13], Read16(tcp, 14),
                  tcp[words * 4..]))
  }

  lemma TcpParses(m: ParsedMux, t: Tcp)
    requires m.protocol == PROTO_TCP && m.payload == TcpBytes(t)
    ensures ParseTcp(m) == Some(t)
  {
    assert TcpBytes(t)[20..] == t.payload;
  }

  /** Parsing a built packet gives back every field and the payload, whatever bytes follow it. */
  lemma PacketParses(txSeq: word, rxSeq: word, t: Tcp, more: Bytes)
    requires MUX_HEADER + TCP_HEADER + |t.payload| < TWO_32
    ensures var p := Packet(txSeq, rxSeq, t);
            var m := ParsedMux(PROTO_TCP, |p|, txSeq, rxSeq, TcpBytes(t));
            ParseMux(p + more, true) == Some(m) && ParseTcp(m) == Some(t)
  {
    var p := Packet(txSeq, rxSeq, t);
    assert (p + more)[16..|p|] == TcpBytes(t);
    TcpParses(ParsedMux(PROTO_TCP, |p|, txSeq, rxSeq, TcpBytes(t)), t);
  }
}
