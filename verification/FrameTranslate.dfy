/**
 In-place MAC translation between the console's native identity and the tether
 identity (src/native_net/frame_translate.cpp): Ethernet source or destination,
 ARP sender or target, DHCP chaddr and client identifier, with the UDP checksum
 recomputed. `MacFields` and `Layout` say what a translation may touch, `Rewritten`
 what it means; the in-place passes rewrite while they parse.
 */
module FrameTranslate {
  import opened Bytes
  import opened Checksum

  datatype Direction = Outbound | Inbound

  datatype L3 = L3(offset: nat, etherType: word)

  /** A located DHCP datagram: offsets of the IPv4 header, UDP header and BOOTP body. */
  datatype Dhcp = Dhcp(ip: nat, udp: nat, bootp: nat, udpLength: nat)

  const ARP := 0x0806
  const IPV4 := 0x0800

  // ------------------------------------------------------------- MAC fields

  /** Fields in ascending order, without overlap, inside the first `n` bytes and not before `lo`. */
  predicate Separated(fields: seq<nat>, lo: nat, n: nat)
  {
    fields == [] || (lo <= fields[0] && fields[0] + 6 <= n && Separated(fields[1..], fields[0] + 6, n))
  }

  lemma {:induction false} Widen(fields: seq<nat>, lo: nat, n: nat, lo': nat, n': nat)
    requires Separated(fields, lo, n) && lo' <= lo && n <= n'
    ensures Separated(fields, lo', n')
  {
    if fields != [] {
      Widen(fields[1..], fields[0] + 6, n, fields[0] + 6, n');
    }
  }

  predicate Inside(fields: seq<nat>, n: nat) {
    fields == [] || (fields[0] + 6 <= n && Inside(fields[1..], n))
  }

  lemma {:induction false} SeparatedInside(fields: seq<nat>, lo: nat, n: nat)
    requires Separated(fields, lo, n)
    ensures Inside(fields, n)
  {
    if fields != [] {
      SeparatedInside(fields[1..], fields[0] + 6, n);
    }
  }

  lemma {:induction false} InsideWiden(fields: seq<nat>, n: nat, n': nat)
    requires Inside(fields, n) && n <= n'
    ensures Inside(fields, n')
  {
    if fields != [] {
      InsideWiden(fields[1..], n, n');
    }
  }

  predicate Covers(fields: seq<nat>, k: nat) {
    fields != [] && (fields[0] <= k < fields[0] + 6 || Covers(fields[1..], k))
  }

  /** Nothing before the first field is covered. */
  lemma {:induction false} NotCoveredBefore(fields: seq<nat>, lo: nat, n: nat, k: nat)
    requires Separated(fields, lo, n) && k < lo
    ensures !Covers(fields, k)
  {
    if fields != [] {
      NotCoveredBefore(fields[1..], fields[0] + 6, n, k);
    }
  }

  lemma {:induction false} AppendFields(a: seq<nat>, b: seq<nat>, lo: nat, mid: nat, n: nat)
    requires Separated(a, lo, mid) && Separated(b, mid, n) && lo <= mid <= n
    ensures Separated(a + b, lo, n)
  {
    if a == [] {
      assert a + b == b;
      Widen(b, mid, n, lo, n);
    } else {
      assert (a + b)[1..] == a[1..] + b;
      AppendFields(a[1..], b, a[0] + 6, mid, n);
    }
  }

  lemma {:induction false} AppendCovers(a: seq<nat>, b: seq<nat>, k: nat)
    ensures Covers(a + b, k) <==> Covers(a, k) || Covers(b, k)
  {
    if a == [] {
      assert a + b == b;
    } else {
      assert (a + b)[1..] == a[1..] + b;
      AppendCovers(a[1..], b, k);
    }
  }

  // ---------------------------------------------------------------- parsing

  predicate IsVlan(t: word) {
    t == 0x8100 || t == 0x88A8
  }

  function SkipTags(s: Bytes, offset: nat, t: word, tags: nat): (r: Option<L3>)
    requires 14 <= offset <= |s|
    ensures r.Some? ==> offset <= r.value.offset <= |s|
    decreases tags
  {
    if tags == 0 || !IsVlan(t) then Some(L3(offset, t))
    else if |s| < offset + 4 then None
    else SkipTags(s, offset + 4, Read16(s, offset + 2), tags - 1)
  }

  /** Layer-3 offset and EtherType behind at most two VLAN tags. */
  function L3Of(s: Bytes): (r: Option<L3>)
    ensures r.Some? ==> 14 <= r.value.offset <= |s|
  {
    if |s| < 14 then None else SkipTags(s, 14, Read16(s, 12), 2)
  }

  method LocateEtherType(frame: array<byte>) returns (r: Option<L3>)
    ensures r == L3Of(frame[..])
  {
    if frame.Length < 14 {
      return None;
    }
    var offset, t, tags := 14, Read16(frame[..], 12), 0;
    while tags < 2 && IsVlan(t)
      invariant 14 <= offset <= frame.Length && tags <= 2
      invariant SkipTags(frame[..], offset, t, 2 - tags) == L3Of(frame[..])
    {
      if frame.Length < offset + 4 {
        return None;
      }
      t := Read16(frame[..], offset + 2);
      offset := offset + 4;
      tags := tags + 1;
    }
    return Some(L3(offset, t));
  }

  predicate Fits(s: Bytes, d: Dhcp) {
    d.ip + 20 <= d.udp && d.bootp == d.udp + 8 && 248 <= d.udpLength < 0x1_0000 && d.udp + d.udpLength <= |s|
  }

  function LocateDhcp(s: Bytes, l3: nat): (r: Option<Dhcp>)
    ensures r.Some? ==> r.value.ip == l3 && Fits(s, r.value)
  {
    if |s| < l3 + 20 || s[l3] / 16 != 4 then None else
    var ihl := s[l3] % 16 * 4;
    if ihl < 20 || |s| < l3 + ihl + 8 || s[l3 + 9] != 17 then None
    else if Read16(s, l3 + 6) % 0x4000 != 0 then None else
    var total := Read16(s, l3 + 2);
    if total < ihl + 8 || l3 + total > |s| then None else
    var udp := l3 + ihl;
    var udpLength := Read16(s, udp + 4);
    if udpLength < 8 + 240 || udpLength > total - ihl then None
    else if !((Read16(s, udp) == 68 && Read16(s, udp + 2) == 67) ||
              (Read16(s, udp) == 67 && Read16(s, udp + 2) == 68)) then None else
    var bootp := udp + 8;
    if s[bootp + 1] != 1 || s[bootp + 2] != 6 then None
    else if !(s[bootp + 236] == 99 && s[bootp + 237] == 130 && s[bootp + 238] == 83 && s[bootp + 239] == 99) then None
    else Some(Dhcp(l3, udp, bootp, udpLength))
  }

  /** What stands at `offset` of an option list of `n` bytes. */
  datatype Item = End | Pad | Entry(end: nat)

  function ItemAt(s: Bytes, bootp: nat, offset: nat, n: nat): (r: Item)
    requires bootp + n <= |s|
    ensures r.Pad? ==> offset < n
    ensures r.Entry? ==> offset + 2 <= r.end <= n && r.end == offset + 2 + s[bootp + offset + 1]
  {
    if offset >= n || s[bootp + offset] == 255 then End
    else if s[bootp + offset] == 0 then Pad
    else if offset + 1 >= n || offset + 2 + s[bootp + offset + 1] > n then End
    else Entry(offset + 2 + s[bootp + offset + 1])
  }

  predicate IsClientId(s: Bytes, o: nat)
    requires o + 1 < |s|
  {
    s[o] == 61 && s[o + 1] == 7 && o + 9 <= |s| && s[o + 2] == 1
  }

  function ItemMacs(s: Bytes, o: nat): seq<nat>
    requires o + 1 < |s|
  {
    if IsClientId(s, o) then [o + 3] else []
  }

  /** Positions of the MACs in the well-formed client identifiers of an option list. */
  function OptionMacs(s: Bytes, bootp: nat, offset: nat, n: nat): seq<nat>
    requires bootp + n <= |s|
    decreases n - offset
  {
    match ItemAt(s, bootp, offset, n)
    case End => []
    case Pad => OptionMacs(s, bootp, offset + 1, n)
    case Entry(end) =>
      ItemMacs(s, bootp + offset) + OptionMacs(s, bootp, end, n)
  }

  lemma {:induction false} OptionMacsSeparated(s: Bytes, bootp: nat, offset: nat, n: nat)
    requires bootp + n <= |s|
    ensures Separated(OptionMacs(s, bootp, offset, n), bootp + offset, bootp + n)
    decreases n - offset
  {
    match ItemAt(s, bootp, offset, n)
    case End =>
    case Pad =>
      OptionMacsSeparated(s, bootp, offset + 1, n);
      Widen(OptionMacs(s, bootp, offset + 1, n), bootp + offset + 1, bootp + n, bootp + offset, bootp + n);
    case Entry(end) =>
      OptionMacsSeparated(s, bootp, end, n);
      AppendFields(ItemMacs(s, bootp + offset), OptionMacs(s, bootp, end, n), bootp + offset, bootp + end, bootp + n);
  }

  function DhcpOf(s: Bytes): Option<Dhcp> {
    var l3 := L3Of(s);
    if l3.Some? && l3.value.etherType == IPV4 then LocateDhcp(s, l3.value.offset) else None
  }

  predicate IsEthernetArp(s: Bytes, l3: nat) {
    l3 + 28 <= |s| && Read16(s, l3) == 1 && Read16(s, l3 + 2) == 0x0800 && s[l3 + 4] == 6 && s[l3 + 5] == 4
  }

  function ArpMacs(s: Bytes, dir: Direction): seq<nat> {
    var l3 := L3Of(s);
    if l3.Some? && l3.value.etherType == ARP && IsEthernetArp(s, l3.value.offset)
    then [l3.value.offset + if dir.Outbound? then 8 else 18] else []
  }

  /** The chaddr field and the client identifiers of a located datagram. */
  function LocatedMacs(s: Bytes, d: Dhcp): (r: seq<nat>)
    requires Fits(s, d)
    ensures Separated(r, d.bootp + 28, |s|)
    ensures Inside(r, |s|)
  {
    var options := OptionMacs(s, d.bootp, 240, d.udpLength - 8);
    OptionMacsSeparated(s, d.bootp, 240, d.udpLength - 8);
    Widen(options, d.bootp + 240, d.bootp + d.udpLength - 8, d.bootp + 34, |s|);
    var r := [d.bootp + 28] + options;
    SeparatedInside(r, d.bootp + 28, |s|);
    r
  }

  function DhcpMacs(s: Bytes): seq<nat> {
    if DhcpOf(s).None? then [] else LocatedMacs(s, DhcpOf(s).value)
  }

  /** The positions behind the Ethernet header; all of them lie after the EtherType. */
  function InnerMacs(s: Bytes, dir: Direction): (r: seq<nat>)
    ensures Separated(r, 12, |s|)
    ensures L3Of(s).Some? ==> Separated(r, L3Of(s).value.offset + 8, |s|)
  {
    var r := if DhcpOf(s).Some? then DhcpMacs(s) else ArpMacs(s, dir);
    if L3Of(s).None? then []
    else if DhcpOf(s).Some? then
      var d := DhcpOf(s).value;
      Widen(r, d.bootp + 28, |s|, 12, |s|);
      Widen(r, d.bootp + 28, |s|, d.ip + 8, |s|);
      r
    else r
  }

  /** Every position of a MAC that a translation in this direction looks at. */
  function MacFields(s: Bytes, dir: Direction): (r: seq<nat>)
    requires |s| >= 14
    ensures Separated(r, 0, |s|)
    ensures Inside(r, |s|)
  {
    var r := [if dir.Outbound? then 6 else 0] + InnerMacs(s, dir);
    SeparatedInside(r, 0, |s|);
    r
  }

  // ------------------------------------------------------------- rewriting

  function ReplaceAt(s: Bytes, f: nat, from: Mac, to: Mac): (r: Bytes)
    requires f + 6 <= |s|
    ensures |r| == |s|
  {
    if s[f..f + 6] == from then s[..f] + to + s[f + 6..] else s
  }

  lemma ReplaceAtBytes(s: Bytes, f: nat, from: Mac, to: Mac)
    requires f + 6 <= |s|
    ensures var r := ReplaceAt(s, f, from, to);
            r[f..f + 6] == (if s[f..f + 6] == from then to else s[f..f + 6]) &&
            forall k :: 0 <= k < |s| && !(f <= k < f + 6) ==> r[k] == s[k]
  {
  }

  function ReplaceAll(s: Bytes, fields: seq<nat>, from: Mac, to: Mac): (r: Bytes)
    requires Inside(fields, |s|)
    ensures |r| == |s|
    decreases |fields|
  {
    if fields == [] then s
    else ReplaceAll(ReplaceAt(s, fields[0], from, to), fields[1..], from, to)
  }

  function UdpField(s: Bytes, d: Dhcp): word
    requires Fits(s, d)
  {
    Field(UdpSum(s, d))
  }

  /** Plain sum over the pseudo header taken from the IPv4 header and the datagram. */
  function UdpSum(s: Bytes, d: Dhcp): nat
    requires Fits(s, d)
  {
    WordSum(s[d.ip + 12..d.ip + 20] + [0, 17] + Be16(d.udpLength)) + WordSum(s[d.udp..d.udp + d.udpLength])
  }

  function FixChecksum(s: Bytes, d: Dhcp): (r: Bytes)
    requires Fits(s, d)
    ensures |r| == |s|
  {
    if Read16(s, d.udp + 6) == 0 then s
    else
      var z := Put16(s, d.udp + 6, 0);
      Put16(z, d.udp + 6, UdpField(z, d))
  }

  /** `t` with the checksum of the located datagram, if any, recomputed. */
  function Repaired(t: Bytes, dhcp: Option<Dhcp>): (r: Bytes)
    requires dhcp.Some? ==> Fits(t, dhcp.value)
    ensures |r| == |t|
  {
    if dhcp.Some? then FixChecksum(t, dhcp.value) else t
  }

  /** Where a frame holds MACs, and the datagram whose checksum depends on them. */
  datatype Layout = Layout(fields: seq<nat>, dhcp: Option<Dhcp>)

  predicate IsChecksumByte(l: Layout, k: nat) {
    l.dhcp.Some? && l.dhcp.value.udp + 6 <= k < l.dhcp.value.udp + 8
  }

  ghost predicate LayoutOk(s: Bytes, l: Layout) {
    Separated(l.fields, 0, |s|) && Inside(l.fields, |s|) &&
    (l.dhcp.Some? ==> Fits(s, l.dhcp.value)) &&
    forall k :: IsChecksumByte(l, k) ==> !Covers(l.fields, k)
  }

  function LayoutOf(s: Bytes, dir: Direction): (l: Layout)
    requires |s| >= 14
    ensures LayoutOk(s, l)
  {
    ChecksumNotCovered(s, dir);
    Layout(MacFields(s, dir), DhcpOf(s))
  }

  function Rewritten(s: Bytes, l: Layout, from: Mac, to: Mac): (r: Bytes)
    requires LayoutOk(s, l)
    ensures |r| == |s|
  {
    Repaired(ReplaceAll(s, l.fields, from, to), l.dhcp)
  }

  /** The frame after a translation: MACs replaced where it holds them, checksum repaired. */
  function Translated(s: Bytes, dir: Direction, from: Mac, to: Mac): (r: Bytes)
    requires |s| >= 14
    ensures |r| == |s|
  {
    Rewritten(s, LayoutOf(s, dir), from, to)
  }

  lemma CoversFrom(s: Bytes, dir: Direction, k: nat)
    requires |s| >= 14
    ensures 12 <= k && L3Of(s).Some? && k < L3Of(s).value.offset + 8 ==> !Covers(MacFields(s, dir), k)
    ensures 12 <= k && InnerMacs(s, dir) == [] ==> !Covers(MacFields(s, dir), k)
    ensures DhcpOf(s).Some? && 12 <= k ==>
      (Covers(MacFields(s, dir), k) <==> Covers(LocatedMacs(s, DhcpOf(s).value), k))
    ensures DhcpOf(s).Some? && 12 <= k < DhcpOf(s).value.bootp + 28 ==> !Covers(MacFields(s, dir), k)
  {
    var inner := InnerMacs(s, dir);
    assert MacFields(s, dir)[1..] == inner;
    if L3Of(s).Some? && k < L3Of(s).value.offset + 8 {
      NotCoveredBefore(inner, L3Of(s).value.offset + 8, |s|, k);
    }
    if DhcpOf(s).Some? && k < DhcpOf(s).value.bootp + 28 {
      NotCoveredBefore(inner, DhcpOf(s).value.bootp + 28, |s|, k);
    }
  }

  lemma ChecksumNotCovered(s: Bytes, dir: Direction)
    requires |s| >= 14
    ensures forall k :: IsChecksumByte(Layout(MacFields(s, dir), DhcpOf(s)), k) ==> !Covers(MacFields(s, dir), k)
  {
    forall k | IsChecksumByte(Layout(MacFields(s, dir), DhcpOf(s)), k)
      ensures !Covers(MacFields(s, dir), k)
    {
      CoversFrom(s, dir, k);
    }
  }

  // ------------------------------------------------ the in-place operations

  predicate IsUsable(mac: Mac) {
    mac[0] % 2 == 0 && exists i :: 0 <= i < 6 && mac[i] != 0
  }

  method IsUsableUnicastMac(mac: Mac) returns (usable: bool)
    ensures usable == IsUsable(mac)
  {
    if mac[0] % 2 != 0 {
      return false;
    }
    usable := false;
    for i := 0 to 6
      invariant usable <==> exists k :: 0 <= k < i && mac[k] != 0
    {
      if mac[i] != 0 {
        usable := true;
      }
    }
  }

  method ReplaceMacIfEqual(frame: array<byte>, f: nat, from: Mac, to: Mac)
    requires f + 6 <= frame.Length
    modifies frame
    ensures frame[..] == ReplaceAt(old(frame[..]), f, from, to)
  {
    if frame[f..f + 6] == from {
      forall i | 0 <= i < 6 {
        frame[f + i] := to[i];
      }
    }
  }

  method WriteWord(frame: array<byte>, o: nat, v: word)
    requires o + 2 <= frame.Length
    modifies frame
    ensures frame[..] == Put16(old(frame[..]), o, v)
  {
    frame[o] := v / 0x100;
    frame[o + 1] := v % 0x100;
  }

  method UdpChecksum(frame: array<byte>, d: Dhcp) returns (c: word)
    requires Fits(frame[..], d)
    ensures c == UdpField(frame[..], d)
  {
    var s := frame[..];
    var pseudo, udp := s[d.ip + 12..d.ip + 20] + [0, 17] + Be16(d.udpLength), s[d.udp..d.udp + d.udpLength];
    var first := SumWords(pseudo, 0);
    var second := SumWords(udp, first);
    c := FinishChecksum(second);
    FoldedTwice(WordSum(pseudo), WordSum(udp), first, second, c);
    if c == 0 {
      c := 0xFFFF;
    }
  }

  /** The rewrite of the option at `o`, if it is a client identifier. */
  function RewriteOption(s: Bytes, o: nat, from: Mac, to: Mac): (r: Bytes)
    requires o + 1 < |s|
    ensures |r| == |s|
  {
    if IsClientId(s, o) then ReplaceAt(s, o + 3, from, to) else s
  }

  method TranslateClientId(frame: array<byte>, o: nat, from: Mac, to: Mac)
    requires o + 1 < frame.Length && o + 2 + frame[o + 1] <= frame.Length
    modifies frame
    ensures frame[..] == RewriteOption(old(frame[..]), o, from, to)
  {
    if frame[o] == 61 && frame[o + 1] == 7 && frame[o + 2] == 1 {
      ReplaceMacIfEqual(frame, o + 3, from, to);
    }
  }

  /** The single pass of the option loop: parse on, rewriting behind the reading position. */
  function RewriteOptions(s: Bytes, bootp: nat, offset: nat, n: nat, from: Mac, to: Mac): (r: Bytes)
    requires bootp + n <= |s|
    ensures |r| == |s|
    decreases n - offset
  {
    match ItemAt(s, bootp, offset, n)
    case End => s
    case Pad => RewriteOptions(s, bootp, offset + 1, n, from, to)
    case Entry(end) => RewriteOptions(RewriteOption(s, bootp + offset, from, to), bootp, end, n, from, to)
  }

  /** The option loop. */
  method TranslateOptions(frame: array<byte>, bootp: nat, n: nat, from: Mac, to: Mac)
    requires bootp + n <= frame.Length
    modifies frame
    ensures frame[..] == RewriteOptions(old(frame[..]), bootp, 240, n, from, to)
  {
    var offset := 240;
    while offset < n
      invariant 240 <= offset
      invariant RewriteOptions(frame[..], bootp, offset, n, from, to)
             == RewriteOptions(old(frame[..]), bootp, 240, n, from, to)
      decreases n - offset
    {
      ghost var item := ItemAt(frame[..], bootp, offset, n);
      var code := frame[bootp + offset];
      offset := offset + 1;
      if code == 255 {
        break;
      }
      if code == 0 {
        continue;
      }
      if offset >= n {
        break;
      }
      var len: nat := frame[bootp + offset];
      offset := offset + 1;
      if offset + len > n {
        break;
      }
      assert item == Entry(offset + len);
      TranslateClientId(frame, bootp + offset - 2, from, to);
      offset := offset + len;
    }
  }

  /** chaddr, the options, then the checksum unless it is zero. */
  function DhcpRewrite(s: Bytes, d: Dhcp, from: Mac, to: Mac): (r: Bytes)
    requires Fits(s, d)
    ensures |r| == |s|
  {
    FixChecksum(RewriteOptions(ReplaceAt(s, d.bootp + 28, from, to), d.bootp, 240, d.udpLength - 8, from, to), d)
  }

  function DhcpPass(s: Bytes, l3: nat, from: Mac, to: Mac): (r: Bytes)
    ensures |r| == |s|
  {
    match LocateDhcp(s, l3)
    case None => s
    case Some(d) => DhcpRewrite(s, d, from, to)
  }

  method RepairChecksum(frame: array<byte>, d: Dhcp)
    requires Fits(frame[..], d)
    modifies frame
    ensures frame[..] == FixChecksum(old(frame[..]), d)
  {
    if Read16(frame[..], d.udp + 6) != 0 {
      WriteWord(frame, d.udp + 6, 0);
      var c := UdpChecksum(frame, d);
      WriteWord(frame, d.udp + 6, c);
    }
  }

  method RewriteDhcp(frame: array<byte>, d: Dhcp, from: Mac, to: Mac)
    requires Fits(frame[..], d)
    modifies frame
    ensures frame[..] == DhcpRewrite(old(frame[..]), d, from, to)
  {
    ReplaceMacIfEqual(frame, d.bootp + 28, from, to);
    TranslateOptions(frame, d.bootp, d.udpLength - 8, from, to);
    RepairChecksum(frame, d);
  }

  method TranslateDhcpMac(frame: array<byte>, l3: nat, from: Mac, to: Mac)
    modifies frame
    ensures frame[..] == DhcpPass(old(frame[..]), l3, from, to)
  {
    var loc := LocateDhcp(frame[..], l3);
    if loc.Some? {
      RewriteDhcp(frame, loc.value, from, to);
    }
  }

  /** The whole pass over a frame, in the order of the code. */
  function Pass(s: Bytes, dir: Direction, from: Mac, to: Mac): (r: Bytes)
    requires |s| >= 14
    ensures |r| == |s|
  {
    InnerPass(ReplaceAt(s, if dir.Outbound? then 6 else 0, from, to), dir, from, to)
  }

  function InnerPass(e: Bytes, dir: Direction, from: Mac, to: Mac): (r: Bytes)
    ensures |r| == |e|
  {
    match L3Of(e)
    case None => e
    case Some(L3(l3, t)) =>
      if t == ARP then
        if IsEthernetArp(e, l3) then ReplaceAt(e, l3 + if dir.Outbound? then 8 else 18, from, to) else e
      else if t == IPV4 then DhcpPass(e, l3, from, to)
      else e
  }
}
