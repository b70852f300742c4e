/**
 The wire formats of the standalone network stack (src/net_stack.cpp): the DHCP
 messages it sends and the option walk over those it gets, its DNS query and the
 walk over answers, ARP, and the search for an HTTP response.
 */
module NetWire {
  import opened Bytes

  // ------------------------------------------------------------------------ DHCP

  const COOKIE: Bytes := [99, 130, 83, 99]

  /** The fixed part of a request, up to the options. */
  function Bootp(xid: dword, flags: word, ciaddr: dword, mac: Mac): (r: Bytes)
    ensures |r| == 240
  {
    [1, 1, 6, 0] + Be32(xid) + [0, 0] + Be16(flags) + Be32(ciaddr) + Zeros(12) + mac + Zeros(202) + COOKIE
  }

  function Discover(xid: dword, mac: Mac): (r: Bytes)
    ensures |r| <= 300
  {
    Bootp(xid, 0x8000, 0, mac) + [53, 1, 1, 61, 7, 1] + mac + [55, 7, 1, 3, 6, 15, 51, 54, 58, 255]
  }

  function Request(xid: dword, mac: Mac, ip: dword, server: dword): (r: Bytes)
    ensures |r| <= 300
  {
    Bootp(xid, 0x8000, 0, mac) + [53, 1, 3, 50, 4] + Be32(ip) + [54, 4] + Be32(server)
    + [61, 7, 1] + mac + [55, 6, 1, 3, 6, 51, 54, 58, 255]
  }

  function Renew(xid: dword, mac: Mac, ip: dword): (r: Bytes)
    ensures |r| <= 300
  {
    Bootp(xid, 0, ip, mac) + [53, 1, 3, 61, 7, 1] + mac + [55, 5, 1, 3, 6, 51, 54, 255]
  }

  /** What the option walk collects; 0 for an option that is missing. */
  datatype Options = Options(msg: byte, subnet: dword, router: dword, dns: dword, server: dword, lease: dword)

  const NO_OPTIONS := Options(0, 0, 0, 0, 0, 0)

  /** One option with its `len` value bytes at `o`; a later one overrides an earlier one. */
  function WithOption(acc: Options, p: Bytes, code: byte, o: nat, len: nat): Options
    requires o + len <= |p|
  {
    if code == 53 && len >= 1 then acc.(msg := p[o])
    else if code == 1 && len >= 4 then acc.(subnet := Read32(p, o))
    else if code == 3 && len >= 4 then acc.(router := Read32(p, o))
    else if code == 6 && len >= 4 then acc.(dns := Read32(p, o))
    else if code == 54 && len >= 4 then acc.(server := Read32(p, o))
    else if code == 51 && len >= 4 then acc.(lease := Read32(p, o))
    else acc
  }

  function Walk(p: Bytes, o: nat, acc: Options): Options
    decreases |p| - o
  {
    if o >= |p| || p[o] == 255 then acc
    else if p[o] == 0 then Walk(p, o + 1, acc)
    else if o + 1 >= |p| || o + 2 + p[o + 1] > |p| then acc
    else Walk(p, o + 2 + p[o + 1], WithOption(acc, p, p[o], o + 2, p[o + 1]))
  }

  method WalkOptions(p: Bytes) returns (r: Options)
    ensures r == Walk(p, 240, NO_OPTIONS)
  {
    hide WithOption;
    var o := 240;
    r := NO_OPTIONS;
    while o < |p|
      invariant Walk(p, o, r) == Walk(p, 240, NO_OPTIONS)
      decreases |p| - o
    {
      var code := p[o];
      if code == 255 {
        break;
      }
      if code == 0 {
        o := o + 1;
        continue;
      }
      if o + 1 >= |p| {
        break;
      }
      var len: nat := p[o + 1];
      if o + 2 + len > |p| {
        break;
      }
      r := WithOption(r, p, code, o + 2, len);
      o := o + 2 + len;
    }
  }

  /** A received BOOTP reply with this transaction id and the DHCP cookie. */
  predicate IsReply(p: Bytes, xid: dword) {
    |p| >= 241 && p[0] == 2 && p[1] == 1 && p[2] == 6 && Read32(p, 4) == xid && p[236..240] == COOKIE
  }

  // ------------------------------------------------------------------------- DNS

  const EXAMPLE: Bytes := [7, 101, 120, 97, 109, 112, 108, 101, 3, 99, 111, 109, 0]

  function Query(id: word): (r: Bytes)
    ensures |r| == 29
  {
    Be16(id) + [1, 0, 0, 1, 0, 0, 0, 0, 0, 0] + EXAMPLE + [0, 1, 0, 1]
  }

  /** The offset after a name, at most `guard` labels long; 0 for a malformed one. */
  function AfterName(p: Bytes, off: nat, guard: nat): (r: nat)
    ensures r <= |p|
    decreases guard
  {
    if off >= |p| || guard == 0 then 0
    else
      var c := p[off];
      if c == 0 then off + 1
      else if c >= 0xC0 then if off + 2 <= |p| then off + 2 else 0
      else if c > 63 || off + 1 + c > |p| then 0
      else AfterName(p, off + 1 + c, guard - 1)
  }

  const LABELS := 128

  method SkipDnsName(p: Bytes, from: nat) returns (r: nat)
    ensures r == AfterName(p, from, LABELS)
  {
    var off, guard := from, 0;
    while off < |p| && guard < LABELS
      invariant 0 <= guard <= LABELS
      invariant AfterName(p, off, LABELS - guard) == AfterName(p, from, LABELS)
    {
      var c := p[off];
      if c == 0 {
        return off + 1;
      }
      if c >= 0xC0 {
        return if off + 2 <= |p| then off + 2 else 0;
      }
      if c > 63 || off + 1 + c > |p| {
        return 0;
      }
      off := off + 1 + c;
      guard := guard + 1;
    }
    return 0;
  }

  /** The offset after `qd` questions; 0 when one is malformed. */
  function AfterQuestions(p: Bytes, o: nat, qd: nat): (r: nat)
    ensures r <= |p| || r == o
    decreases qd
  {
    if qd == 0 then o
    else
      var e := AfterName(p, o, LABELS);
      if e == 0 || e + 4 > |p| then 0 else AfterQuestions(p, e + 4, qd - 1)
  }

  datatype Answer = Malformed | NoAddress | Address(ip: dword)

  /** The first IPv4 address among `an` answers. */
  function FirstAddress(p: Bytes, o: nat, an: nat): Answer
    decreases an
  {
    if an == 0 then NoAddress
    else
      var e := AfterName(p, o, LABELS);
      if e == 0 || e + 10 > |p| then Malformed
      else
        var len := Read16(p, e + 8);
        if e + 10 + len > |p| then Malformed
        else if Read16(p, e) == 1 && Read16(p, e + 2) == 1 && len == 4 then Address(Read32(p, e + 10))
        else FirstAddress(p, e + 10 + len, an - 1)
  }

  function Resolved(p: Bytes): Answer
    requires |p| >= 12
  {
    var o := AfterQuestions(p, 12, Read16(p, 4));
    if o == 0 then Malformed else FirstAddress(p, o, Read16(p, 6))
  }

  method SkipQuestions(p: Bytes, qd: nat) returns (o: nat)
    requires |p| >= 12
    ensures o == AfterQuestions(p, 12, qd)
  {
    hide AfterName;
    o := 12;
    var i := 0;
    while i < qd
      invariant 0 <= i <= qd && o != 0
      invariant AfterQuestions(p, o, qd - i) == AfterQuestions(p, 12, qd)
    {
      o := SkipDnsName(p, o);
      if o == 0 || o + 4 > |p| {
        return 0;
      }
      o := o + 4;
      i := i + 1;
    }
  }

  method FindAddress(p: Bytes) returns (r: Answer)
    requires |p| >= 12
    ensures r == Resolved(p)
  {
    hide AfterName, AfterQuestions;
    var o: nat := SkipQuestions(p, Read16(p, 4));
    if o == 0 {
      return Malformed;
    }
    ghost var start: nat := o;
    var i: nat, an: nat := 0, Read16(p, 6);
    while i < an
      invariant 0 <= i <= an
      invariant FirstAddress(p, o, an - i) == FirstAddress(p, start, an)
    {
      o := SkipDnsName(p, o);
      if o == 0 || o + 10 > |p| {
        return Malformed;
      }
      var len := Read16(p, o + 8);
      if o + 10 + len > |p| {
        return Malformed;
      }
      if Read16(p, o) == 1 && Read16(p, o + 2) == 1 && len == 4 {
        return Address(Read32(p, o + 10));
      }
      o := o + 10 + len;
      i := i + 1;
    }
    return NoAddress;
  }

  // ----------------------------------------------------------------- ARP and HTTP

  const ARP_TYPE := 0x0806
  const BROADCAST: Mac := [0xFF, 0xFF, 0xFF, 0xFF, 0xFF, 0xFF]

  function ArpFrame(to: Mac, from: Mac, op: word, senderIp: dword, targetMac: Mac, targetIp: dword): (r: Bytes)
    ensures |r| == 42
  {
    to + from + Be16(ARP_TYPE) + [0, 1, 8, 0, 6, 4] + Be16(op) + from + Be32(senderIp) + targetMac + Be32(targetIp)
  }

  datatype Arp = Arp(op: word, senderMac: Mac, senderIp: dword, targetIp: dword)

  function ParseArp(p: Bytes): Option<Arp> {
    if |p| < 28 || Read16(p, 0) != 1 || Read16(p, 2) != 0x0800 || p[4] != 6 || p[5] != 4 then None
    else Some(Arp(Read16(p, 6), p[8..14], Read32(p, 14), Read32(p, 24)))
  }

  /** An ARP frame the stack builds is read back by a stack like it. */
  lemma ArpReads(to: Mac, from: Mac, op: word, senderIp: dword, targetMac: Mac, targetIp: dword)
    ensures var f := ArpFrame(to, from, op, senderIp, targetMac, targetIp);
      f[..6] == to && Read16(f, 12) == ARP_TYPE && ParseArp(f[14..]) == Some(Arp(op, from, senderIp, targetIp))
  {
    var f := ArpFrame(to, from, op, senderIp, targetMac, targetIp);
    var p := f[14..];
    var a, b := [0, 1, 8, 0, 6, 4] + Be16(op), Be32(senderIp) + targetMac + Be32(targetIp);
    assert f[..6] == to;
    assert p == a + from + b;
    assert p[8..14] == from;
    ArpWords(a, from, op, senderIp, targetMac, targetIp);
  }

  lemma ArpWords(a: Bytes, from: Mac, op: word, senderIp: dword, targetMac: Mac, targetIp: dword)
    requires a == [0, 1, 8, 0, 6, 4] + Be16(op)
    ensures var p := a + from + (Be32(senderIp) + targetMac + Be32(targetIp));
      |p| == 28 && Read16(p, 0) == 1 && Read16(p, 2) == 0x0800 && p[4] == 6 && p[5] == 4 && Read16(p, 6) == op
      && Read32(p, 14) == senderIp && Read32(p, 24) == targetIp
  {
    var b := Be32(senderIp) + targetMac + Be32(targetIp);
    ReadAppend(a + from, b, 0);
    ReadAppend(a + from, b, 10);
    ReadAppend(Be32(senderIp) + targetMac, Be32(targetIp), 0);
    ReadAppend(Be32(senderIp), targetMac, 0);
    assert b == Be32(senderIp) + (targetMac + Be32(targetIp));
    ReadAppend(Be32(senderIp), targetMac + Be32(targetIp), 0);
    ReadAppend([0, 1, 8, 0, 6, 4], Be16(op), 0);
    assert Read16(a, 6) == op;
  }

  const HTTP: Bytes := [0x48, 0x54, 0x54, 0x50, 0x2F]

  predicate HttpAt(p: Bytes, i: nat) {
    i + 5 <= |p| && p[i..i + 5] == HTTP
  }

  predicate HasHttp(p: Bytes) {
    exists i :: 0 <= i < |p| && HttpAt(p, i)
  }

  method ContainsHttp(p: Bytes) returns (r: bool)
    ensures r == HasHttp(p)
  {
    var i := 0;
    while i + 5 <= |p|
      invariant 0 <= i && forall k :: 0 <= k < i ==> !HttpAt(p, k)
    {
      if p[i..i + 5] == HTTP {
        assert HttpAt(p, i);
        return true;
      }
      i := i + 1;
    }
    return false;
  }
}
