/**
 What the in-place translation passes (src/native_net/frame_translate.cpp) amount
 to: parsing is not disturbed by rewriting, a pass is replacement at positions found
 beforehand, and translating there and back restores a frame exactly when
 `Restorable` holds.
 */
module FrameRoundTrip {
  import opened Bytes
  import opened Checksum
  import opened FrameTranslate

  // -------------------------------------------------------- parse stability

  /** Which bytes of the item at hand the found MACs cover: those behind a client identifier's type byte. */
  lemma ItemCovered(s: Bytes, bootp: nat, offset: nat, end: nat, n: nat, k: nat)
    requires bootp + n <= |s| && ItemAt(s, bootp, offset, n) == Entry(end)
    ensures bootp + offset <= k < bootp + end ==>
      (Covers(OptionMacs(s, bootp, offset, n), k) <==> IsClientId(s, bootp + offset) && k >= bootp + offset + 3)
    ensures k >= bootp + end ==>
      (Covers(OptionMacs(s, bootp, offset, n), k) <==> Covers(OptionMacs(s, bootp, end, n), k))
  {
    AppendCovers(ItemMacs(s, bootp + offset), OptionMacs(s, bootp, end, n), k);
    if bootp + offset <= k < bootp + end {
      OptionMacsSeparated(s, bootp, end, n);
      NotCoveredBefore(OptionMacs(s, bootp, end, n), bootp + end, bootp + n, k);
    }
  }

  /** The option walk reads nothing that a rewrite of the MACs it finds changes. */
  lemma {:induction false} OptionMacsStable(s: Bytes, t: Bytes, bootp: nat, offset: nat, n: nat)
    requires |s| == |t| && bootp + n <= |s|
    requires forall k :: bootp + offset <= k < bootp + n && !Covers(OptionMacs(s, bootp, offset, n), k) ==> s[k] == t[k]
    ensures OptionMacs(t, bootp, offset, n) == OptionMacs(s, bootp, offset, n)
    decreases n - offset
  {
    match ItemAt(s, bootp, offset, n)
    case End =>
    case Pad =>
      OptionMacsSeparated(s, bootp, offset + 1, n);
      NotCoveredBefore(OptionMacs(s, bootp, offset, n), bootp + offset + 1, bootp + n, bootp + offset);
      OptionMacsStable(s, t, bootp, offset + 1, n);
    case Entry(end) =>
      forall k | bootp + offset <= k < bootp + n
        ensures k < bootp + end && k < bootp + offset + 3 ==> s[k] == t[k]
        ensures k < bootp + end && !IsClientId(s, bootp + offset) ==> s[k] == t[k]
        ensures k >= bootp + end && !Covers(OptionMacs(s, bootp, end, n), k) ==> s[k] == t[k]
      {
        ItemCovered(s, bootp, offset, end, n, k);
      }
      OptionMacsStable(s, t, bootp, end, n);
      assert ItemAt(t, bootp, offset, n) == Entry(end);
  }

  // ------------------------------------------------- one pass is replacement

  lemma {:induction false} ReplaceAllAppend(s: Bytes, a: seq<nat>, b: seq<nat>, from: Mac, to: Mac)
    requires Inside(a, |s|) && Inside(b, |s|)
    ensures Inside(a + b, |s|)
    ensures ReplaceAll(s, a + b, from, to) == ReplaceAll(ReplaceAll(s, a, from, to), b, from, to)
    decreases |a|
  {
    if a == [] {
      assert a + b == b;
    } else {
      assert (a + b)[1..] == a[1..] + b;
      ReplaceAllAppend(ReplaceAt(s, a[0], from, to), a[1..], b, from, to);
    }
  }

  lemma ItemReplaced(s: Bytes, o: nat, from: Mac, to: Mac)
    requires o + 1 < |s|
    ensures Inside(ItemMacs(s, o), |s|)
    ensures RewriteOption(s, o, from, to) == ReplaceAll(s, ItemMacs(s, o), from, to)
    ensures forall k :: 0 <= k < |s| && (IsClientId(s, o) ==> k >= o + 9) ==> RewriteOption(s, o, from, to)[k] == s[k]
  {
    if IsClientId(s, o) {
      ReplaceAtBytes(s, o + 3, from, to);
      assert ItemMacs(s, o)[1..] == [];
    }
  }

  /** Rewriting while walking equals collecting the positions first and replacing afterwards. */
  lemma {:induction false} WalkIsReplacement(s: Bytes, bootp: nat, offset: nat, n: nat, from: Mac, to: Mac)
    requires bootp + n <= |s|
    ensures Inside(OptionMacs(s, bootp, offset, n), |s|)
    ensures RewriteOptions(s, bootp, offset, n, from, to) == ReplaceAll(s, OptionMacs(s, bootp, offset, n), from, to)
    decreases n - offset
  {
    match ItemAt(s, bootp, offset, n)
    case End =>
    case Pad => WalkIsReplacement(s, bootp, offset + 1, n, from, to);
    case Entry(end) =>
      var t := RewriteOption(s, bootp + offset, from, to);
      ItemReplaced(s, bootp + offset, from, to);
      assert IsClientId(s, bootp + offset) ==> end == offset + 9;
      assert forall k :: bootp + end <= k < bootp + n ==> s[k] == t[k];
      OptionMacsStable(s, t, bootp, end, n);
      WalkIsReplacement(t, bootp, end, n, from, to);
      var item, rest := ItemMacs(s, bootp + offset), OptionMacs(s, bootp, end, n);
      ReplaceAllAppend(s, item, rest, from, to);
      assert OptionMacs(s, bootp, offset, n) == item + rest;
      assert RewriteOptions(s, bootp, offset, n, from, to) == ReplaceAll(t, rest, from, to);
  }

  predicate SameFrom(s: Bytes, t: Bytes, o: nat) {
    |s| == |t| && forall k :: o <= k < |s| ==> s[k] == t[k]
  }

  lemma SameL3(s: Bytes, t: Bytes)
    requires |s| == |t| >= 14
    requires forall k :: 12 <= k < |s| && (L3Of(s).Some? ==> k < L3Of(s).value.offset) ==> s[k] == t[k]
    ensures L3Of(t) == L3Of(s)
  {
    assert Read16(s, 12) == Read16(t, 12);
    if IsVlan(Read16(s, 12)) && |s| >= 18 {
      assert Read16(s, 16) == Read16(t, 16);
      if IsVlan(Read16(s, 16)) && |s| >= 22 {
        assert Read16(s, 20) == Read16(t, 20);
      }
    }
  }

  lemma SameDhcp(s: Bytes, t: Bytes, l3: nat)
    requires SameFrom(s, t, l3)
    ensures LocateDhcp(t, l3) == LocateDhcp(s, l3)
  {
  }

  lemma DhcpIsReplacement(s: Bytes, d: Dhcp, from: Mac, to: Mac)
    requires Fits(s, d)
    ensures DhcpRewrite(s, d, from, to) == FixChecksum(ReplaceAll(s, LocatedMacs(s, d), from, to), d)
  {
    LocatedIsReplacement(s, d, from, to);
  }

  lemma LocatedIsReplacement(s: Bytes, d: Dhcp, from: Mac, to: Mac)
    requires Fits(s, d)
    ensures RewriteOptions(ReplaceAt(s, d.bootp + 28, from, to), d.bootp, 240, d.udpLength - 8, from, to)
         == ReplaceAll(s, LocatedMacs(s, d), from, to)
  {
    hide RewriteOptions, OptionMacs, ReplaceAt;
    var n := d.udpLength - 8;
    var c := ReplaceAt(s, d.bootp + 28, from, to);
    ReplaceAtBytes(s, d.bootp + 28, from, to);
    OptionMacsStable(s, c, d.bootp, 240, n);
    WalkIsReplacement(c, d.bootp, 240, n, from, to);
    assert LocatedMacs(s, d)[1..] == OptionMacs(s, d.bootp, 240, n);
  }

  lemma InnerPassIsReplacement(s: Bytes, dir: Direction, from: Mac, to: Mac)
    ensures Inside(InnerMacs(s, dir), |s|)
    ensures InnerPass(s, dir, from, to) == Repaired(ReplaceAll(s, InnerMacs(s, dir), from, to), DhcpOf(s))
  {
    hide DhcpRewrite, LocatedMacs, FixChecksum, L3Of, LocateDhcp, IsEthernetArp;
    var inner := InnerMacs(s, dir);
    SeparatedInside(inner, 12, |s|);
    if DhcpOf(s).Some? {
      DhcpIsReplacement(s, DhcpOf(s).value, from, to);
    } else if inner != [] {
      assert inner[1..] == [];
    }
  }

  /** Parsing a frame depends only on the bytes from the EtherType on. */
  lemma SameInner(s: Bytes, t: Bytes, dir: Direction)
    requires |s| >= 14 && SameFrom(s, t, 12)
    ensures DhcpOf(t) == DhcpOf(s) && InnerMacs(t, dir) == InnerMacs(s, dir)
  {
    SameL3(s, t);
    if L3Of(s).Some? {
      SameDhcp(s, t, L3Of(s).value.offset);
      if DhcpOf(s).Some? {
        var d := DhcpOf(s).value;
        OptionMacsStable(s, t, d.bootp, 240, d.udpLength - 8);
        assert LocatedMacs(s, d) == LocatedMacs(t, d);
      } else {
        SameArp(s, t, L3Of(s).value.offset);
      }
    }
  }

  lemma SameArp(s: Bytes, t: Bytes, l3: nat)
    requires SameFrom(s, t, l3)
    ensures IsEthernetArp(t, l3) == IsEthernetArp(s, l3)
  {
  }

  /** The in-place pass, field by field, is replacement at the positions of `MacFields`. */
  lemma PassIsReplacement(s: Bytes, dir: Direction, from: Mac, to: Mac)
    requires |s| >= 14
    ensures Pass(s, dir, from, to) == Translated(s, dir, from, to)
  {
    var eth := if dir.Outbound? then 6 else 0;
    var e := ReplaceAt(s, eth, from, to);
    ReplaceAtBytes(s, eth, from, to);
    SameInner(s, e, dir);
    InnerPassIsReplacement(e, dir, from, to);
    assert ReplaceAll(s, MacFields(s, dir), from, to) == ReplaceAll(e, InnerMacs(s, dir), from, to) by {
      assert MacFields(s, dir)[1..] == InnerMacs(s, dir);
    }
  }

  method TranslateFrame(frame: array<byte>, dir: Direction, from: Mac, to: Mac) returns (ok: bool)
    modifies frame
    ensures ok <==> frame.Length >= 14 && IsUsable(from) && IsUsable(to)
    ensures frame[..] == if ok then Translated(old(frame[..]), dir, from, to) else old(frame[..])
  {
    if frame.Length < 14 {
      return false;
    }
    var fromOk := IsUsableUnicastMac(from);
    var toOk := IsUsableUnicastMac(to);
    if !fromOk || !toOk {
      return false;
    }
    PassIsReplacement(frame[..], dir, from, to);
    ReplaceMacIfEqual(frame, if dir.Outbound? then 6 else 0, from, to);
    var r := LocateEtherType(frame);
    if r.Some? {
      var l3 := r.value.offset;
      if r.value.etherType == ARP {
        if IsEthernetArp(frame[..], l3) {
          ReplaceMacIfEqual(frame, l3 + if dir.Outbound? then 8 else 18, from, to);
        }
      } else if r.value.etherType == IPV4 {
        TranslateDhcpMac(frame, l3, from, to);
      }
    }
    return true;
  }

  // ------------------------------------------------------------ round trips

  /** No field holds `m`. */
  predicate NoneHolds(s: Bytes, fields: seq<nat>, m: Mac)
    requires Inside(fields, |s|)
  {
    fields == [] || (s[fields[0]..fields[0] + 6] != m && NoneHolds(s, fields[1..], m))
  }

  predicate SameFields(s: Bytes, t: Bytes, fields: seq<nat>)
    requires Inside(fields, |s|) && |s| == |t|
  {
    fields == [] || (s[fields[0]..fields[0] + 6] == t[fields[0]..fields[0] + 6] && SameFields(s, t, fields[1..]))
  }

  /** Every field of `t` is that of `s` with `from` turned into `to`. */
  predicate Mapped(s: Bytes, t: Bytes, fields: seq<nat>, from: Mac, to: Mac)
    requires Inside(fields, |s|) && |s| == |t|
  {
    fields == [] ||
    (t[fields[0]..fields[0] + 6] == (if s[fields[0]..fields[0] + 6] == from then to else s[fields[0]..fields[0] + 6])
     && Mapped(s, t, fields[1..], from, to))
  }

  /** `Mapped` looks at covered bytes only. */
  lemma {:induction false} MappedFrame(s: Bytes, t: Bytes, s': Bytes, t': Bytes, fields: seq<nat>, from: Mac, to: Mac)
    requires Inside(fields, |s|) && |s| == |t| == |s'| == |t'|
    requires forall k :: 0 <= k < |s| && Covers(fields, k) ==> s[k] == s'[k] && t[k] == t'[k]
    requires Mapped(s, t, fields, from, to)
    ensures Mapped(s', t', fields, from, to)
  {
    if fields != [] {
      var f := fields[0];
      assert forall k :: f <= k < f + 6 ==> Covers(fields, k);
      assert s'[f..f + 6] == s[f..f + 6] && t'[f..f + 6] == t[f..f + 6];
      MappedFrame(s, t, s', t', fields[1..], from, to);
    }
  }

  lemma {:induction false} ReplaceAllBytes(s: Bytes, fields: seq<nat>, lo: nat, from: Mac, to: Mac)
    requires Separated(fields, lo, |s|)
    ensures Inside(fields, |s|)
    ensures forall k :: 0 <= k < |s| && !Covers(fields, k) ==> ReplaceAll(s, fields, from, to)[k] == s[k]
    decreases |fields|
  {
    SeparatedInside(fields, lo, |s|);
    if fields != [] {
      ReplaceAtBytes(s, fields[0], from, to);
      ReplaceAllBytes(ReplaceAt(s, fields[0], from, to), fields[1..], fields[0] + 6, from, to);
    }
  }

  lemma {:induction false} ReplaceAllMaps(s: Bytes, fields: seq<nat>, lo: nat, from: Mac, to: Mac)
    requires Separated(fields, lo, |s|) && Inside(fields, |s|)
    ensures Mapped(s, ReplaceAll(s, fields, from, to), fields, from, to)
    decreases |fields|
  {
    if fields != [] {
      var f, rest := fields[0], fields[1..];
      var s1 := ReplaceAt(s, f, from, to);
      var r := ReplaceAll(s1, rest, from, to);
      ReplaceAtBytes(s, f, from, to);
      ReplaceAllMaps(s1, rest, f + 6, from, to);
      ReplaceAllBytes(s1, rest, f + 6, from, to);
      forall k | 0 <= k < f + 6
        ensures !Covers(rest, k)
      {
        NotCoveredBefore(rest, f + 6, |s|, k);
      }
      assert r[f..f + 6] == s1[f..f + 6];
      MappedFrame(s1, r, s, r, rest, from, to);
    }
  }

  /** Mapping `a` to `b` and back restores the fields exactly when none held `b` before. */
  lemma {:induction false} MapBack(s: Bytes, t: Bytes, u: Bytes, fields: seq<nat>, a: Mac, b: Mac)
    requires Inside(fields, |s|) && |s| == |t| == |u|
    requires Mapped(s, t, fields, a, b) && Mapped(t, u, fields, b, a)
    ensures SameFields(s, u, fields) <==> a == b || NoneHolds(s, fields, b)
  {
    if fields != [] {
      MapBack(s, t, u, fields[1..], a, b);
    }
  }

  lemma {:induction false} SameFieldsBytes(s: Bytes, t: Bytes, fields: seq<nat>)
    requires Inside(fields, |s|) && |s| == |t|
    ensures SameFields(s, t, fields) <==> forall k :: 0 <= k < |s| && Covers(fields, k) ==> s[k] == t[k]
  {
    if fields != [] {
      var f := fields[0];
      SameFieldsBytes(s, t, fields[1..]);
      if forall k :: f <= k < f + 6 ==> s[k] == t[k] {
        assert s[f..f + 6] == t[f..f + 6];
      } else {
        var k: nat :| f <= k < f + 6 && s[k] != t[k];
        assert s[f..f + 6][k - f] != t[f..f + 6][k - f];
        assert Covers(fields, k);
      }
    }
  }

  /** Agreement of two frames on everything a translation may not rewrite. */
  predicate SameOutside(s: Bytes, t: Bytes, l: Layout) {
    |s| == |t| && forall k :: 0 <= k < |s| && !Covers(l.fields, k) && !IsChecksumByte(l, k) ==> s[k] == t[k]
  }

  /** Parse stability: what a translation may rewrite is never parsed. */
  lemma ParseStable(s: Bytes, t: Bytes, dir: Direction)
    requires |s| >= 14 && SameOutside(s, t, LayoutOf(s, dir))
    ensures LayoutOf(t, dir) == LayoutOf(s, dir)
  {
    forall k | 12 <= k < |s|
      ensures L3Of(s).None? || k < L3Of(s).value.offset + 8 ==> s[k] == t[k]
      ensures DhcpOf(s).None? && InnerMacs(s, dir) == [] ==> s[k] == t[k]
    {
      CoversFrom(s, dir, k);
    }
    SameL3(s, t);
    if L3Of(s).Some? {
      var l3 := L3Of(s).value.offset;
      if DhcpOf(s).Some? {
        forall k | 12 <= k < |s|
          ensures k < DhcpOf(s).value.bootp + 28 && !IsChecksumByte(LayoutOf(s, dir), k) ==> s[k] == t[k]
          ensures !Covers(LocatedMacs(s, DhcpOf(s).value), k) && !IsChecksumByte(LayoutOf(s, dir), k) ==> s[k] == t[k]
        {
          CoversFrom(s, dir, k);
        }
        DhcpStable(s, t, l3, DhcpOf(s).value);
      } else if InnerMacs(s, dir) == [] {
        SameDhcp(s, t, l3);
        SameArp(s, t, l3);
      } else {
        ArpStable(s, t, l3);
      }
    }
  }

  lemma ArpStable(s: Bytes, t: Bytes, l3: nat)
    requires |s| == |t| && IsEthernetArp(s, l3)
    requires forall k :: l3 <= k < l3 + 8 ==> s[k] == t[k]
    ensures IsEthernetArp(t, l3)
  {
  }

  lemma DhcpStable(s: Bytes, t: Bytes, l3: nat, d: Dhcp)
    requires |s| == |t| && LocateDhcp(s, l3) == Some(d)
    requires forall k :: l3 <= k < |s| && !(d.udp + 6 <= k < d.udp + 8) && !Covers(LocatedMacs(s, d), k) ==> s[k] == t[k]
    ensures LocateDhcp(t, l3) == Some(d) && LocatedMacs(t, d) == LocatedMacs(s, d)
  {
    forall k | l3 <= k < |s|
      ensures k < d.bootp + 240 && !(d.udp + 6 <= k < d.udp + 8) && !(d.bootp + 28 <= k < d.bootp + 34) ==> s[k] == t[k]
      ensures d.bootp + 240 <= k && !Covers(OptionMacs(s, d.bootp, 240, d.udpLength - 8), k) ==> s[k] == t[k]
    {
      LocatedCovers(s, d, k);
    }
    HeadersStable(s, t, l3, d);
    OptionMacsStable(s, t, d.bootp, 240, d.udpLength - 8);
  }

  lemma LocatedCovers(s: Bytes, d: Dhcp, k: nat)
    requires Fits(s, d)
    ensures var options := OptionMacs(s, d.bootp, 240, d.udpLength - 8);
            (k < d.bootp + 240 ==> (Covers(LocatedMacs(s, d), k) <==> d.bootp + 28 <= k < d.bootp + 34)) &&
            (k >= d.bootp + 240 ==> (Covers(LocatedMacs(s, d), k) <==> Covers(options, k)))
  {
    var n := d.udpLength - 8;
    var options := OptionMacs(s, d.bootp, 240, n);
    assert LocatedMacs(s, d)[1..] == options;
    OptionMacsSeparated(s, d.bootp, 240, n);
    if k < d.bootp + 240 {
      NotCoveredBefore(options, d.bootp + 240, d.bootp + n, k);
    }
  }

  lemma HeadersStable(s: Bytes, t: Bytes, l3: nat, d: Dhcp)
    requires |s| == |t| && LocateDhcp(s, l3) == Some(d)
    requires forall k :: l3 <= k < d.bootp + 240 && !(d.udp + 6 <= k < d.udp + 8) && !(d.bootp + 28 <= k < d.bootp + 34)
               ==> s[k] == t[k]
    ensures LocateDhcp(t, l3) == Some(d)
  {
  }

  // ------------------------------------------------- there and back, by layout

  lemma RepairedOutside(t: Bytes, l: Layout)
    requires LayoutOk(t, l)
    ensures forall k :: 0 <= k < |t| && !IsChecksumByte(l, k) ==> Repaired(t, l.dhcp)[k] == t[k]
  {
  }

  /** One rewrite maps every MAC field and leaves everything but the checksum alone. */
  lemma RewrittenMaps(s: Bytes, l: Layout, from: Mac, to: Mac)
    requires LayoutOk(s, l)
    ensures Mapped(s, Rewritten(s, l, from, to), l.fields, from, to)
    ensures SameOutside(s, Rewritten(s, l, from, to), l)
  {
    var t := ReplaceAll(s, l.fields, from, to);
    ReplaceAllMaps(s, l.fields, 0, from, to);
    ReplaceAllBytes(s, l.fields, 0, from, to);
    RepairedOutside(t, l);
    MappedFrame(s, t, s, Repaired(t, l.dhcp), l.fields, from, to);
  }

  /** The located datagram's checksum is absent or passes the receiver's test. */
  predicate ChecksumOk(s: Bytes, d: Dhcp)
    requires Fits(s, d)
  {
    Read16(s, d.udp + 6) == 0 || Verifies(UdpSum(s, d))
  }

  lemma UdpSumPut(s: Bytes, d: Dhcp, c: word)
    requires Fits(s, d)
    ensures UdpSum(Put16(s, d.udp + 6, c), d) == UdpSum(s, d) - Read16(s, d.udp + 6) + c
  {
    var t := Put16(s, d.udp + 6, c);
    var p := s[d.udp..d.udp + d.udpLength];
    assert t[d.udp..d.udp + d.udpLength] == Put16(p, 6, c);
    assert t[d.ip + 12..d.ip + 20] == s[d.ip + 12..d.ip + 20];
    WordSumPut16(p, 6, c);
  }

  /** Recomputing leaves a checksum alone exactly when it was absent or right. */
  lemma FixChecksumFixed(s: Bytes, d: Dhcp)
    requires Fits(s, d)
    ensures FixChecksum(s, d) == s <==> ChecksumOk(s, d)
  {
    hide UdpSum, Put16, Read16;
    var ck := d.udp + 6;
    var c := Read16(s, ck);
    if c != 0 {
      var z := Put16(s, ck, 0);
      UdpSumPut(s, d, 0);
      FieldUnique(UdpSum(z, d), c);
      PutBack(s, ck, UdpField(z, d));
    }
  }

  /** Clearing a word and storing another restores the buffer exactly when it is the old one. */
  lemma PutBack(s: Bytes, o: nat, w: word)
    requires o + 2 <= |s|
    ensures Put16(Put16(s, o, 0), o, w) == s <==> w == Read16(s, o)
  {
    var t := Put16(Put16(s, o, 0), o, w);
    assert Read16(t, o) == w;
    if w == Read16(s, o) {
      assert forall k :: 0 <= k < |s| ==> t[k] == s[k];
    }
  }

  /** A recomputed checksum is right, whatever stood there before. */
  lemma FixChecksumOk(s: Bytes, d: Dhcp)
    requires Fits(s, d)
    ensures ChecksumOk(FixChecksum(s, d), d)
    ensures Read16(FixChecksum(s, d), d.udp + 6) == 0 <==> Read16(s, d.udp + 6) == 0
  {
    if Read16(s, d.udp + 6) != 0 {
      var z := Put16(s, d.udp + 6, 0);
      UdpSumPut(z, d, UdpField(z, d));
      FieldUnique(UdpSum(z, d), UdpField(z, d));
    }
  }

  /** The recomputed checksum does not depend on the nonzero one it replaces. */
  lemma FixChecksumForgets(s: Bytes, t: Bytes, d: Dhcp)
    requires Fits(s, d) && |s| == |t|
    requires forall k :: 0 <= k < |s| && k != d.udp + 6 && k != d.udp + 7 ==> s[k] == t[k]
    requires Read16(s, d.udp + 6) == 0 <==> Read16(t, d.udp + 6) == 0
    ensures FixChecksum(s, d) == FixChecksum(t, d)
  {
    var ck := d.udp + 6;
    if Read16(s, ck) == 0 {
      assert s == t;
    } else {
      assert Put16(s, ck, 0) == Put16(t, ck, 0);
    }
  }

  predicate HasChecksum(s: Bytes, l: Layout)
    requires l.dhcp.Some? ==> Fits(s, l.dhcp.value)
  {
    l.dhcp.Some? && Read16(s, l.dhcp.value.udp + 6) != 0
  }

  /** No rewrite adds or removes a checksum. */
  lemma ChecksumPresence(s: Bytes, l: Layout, from: Mac, to: Mac)
    requires LayoutOk(s, l)
    ensures HasChecksum(ReplaceAll(s, l.fields, from, to), l) == HasChecksum(s, l)
    ensures HasChecksum(Rewritten(s, l, from, to), l) == HasChecksum(s, l)
  {
    ReplaceAllBytes(s, l.fields, 0, from, to);
    if l.dhcp.Some? {
      var o := l.dhcp.value.udp + 6;
      assert IsChecksumByte(l, o) && IsChecksumByte(l, o + 1);
      FixChecksumOk(ReplaceAll(s, l.fields, from, to), l.dhcp.value);
    }
  }

  /** What a caller can test before the first translation. */
  predicate RestorableAt(s: Bytes, l: Layout, from: Mac, to: Mac)
    requires Inside(l.fields, |s|) && (l.dhcp.Some? ==> Fits(s, l.dhcp.value))
  {
    (from == to || NoneHolds(s, l.fields, to)) && (l.dhcp.Some? ==> ChecksumOk(s, l.dhcp.value))
  }

  /** If the fields came back, what remains to compare is the checksum. */
  lemma RepairedIff(s: Bytes, w: Bytes, l: Layout)
    requires LayoutOk(s, l) && SameOutside(s, w, l) && HasChecksum(s, l) == HasChecksum(w, l)
    ensures Repaired(w, l.dhcp) == s <==>
      SameFields(s, w, l.fields) && (l.dhcp.Some? ==> ChecksumOk(s, l.dhcp.value))
  {
    SameFieldsBytes(s, w, l.fields);
    RepairedOutside(w, l);
    if SameFields(s, w, l.fields) {
      if l.dhcp.Some? {
        FixChecksumForgets(w, s, l.dhcp.value);
        FixChecksumFixed(s, l.dhcp.value);
      } else {
        assert w == s;
      }
    }
  }

  lemma ThereAndBack(s: Bytes, l: Layout, from: Mac, to: Mac)
    requires LayoutOk(s, l)
    ensures Rewritten(Rewritten(s, l, from, to), l, to, from) == s <==> RestorableAt(s, l, from, to)
  {
    var t := Rewritten(s, l, from, to);
    var w := ReplaceAll(t, l.fields, to, from);
    RewrittenMaps(s, l, from, to);
    ReplaceAllMaps(t, l.fields, 0, to, from);
    ReplaceAllBytes(t, l.fields, 0, to, from);
    MapBack(s, t, w, l.fields, from, to);
    ChecksumPresence(s, l, from, to);
    ChecksumPresence(t, l, to, from);
    RepairedIff(s, w, l);
  }

  // ------------------------------------------------------------ main results

  predicate Restorable(s: Bytes, dir: Direction, from: Mac, to: Mac)
    requires |s| >= 14
  {
    RestorableAt(s, LayoutOf(s, dir), from, to)
  }

  /** Translating there and back restores a frame, byte for byte, exactly when no MAC field
      already holds the new address and the DHCP checksum is absent or correct. */
  lemma RoundTrip(s: Bytes, dir: Direction, from: Mac, to: Mac)
    requires |s| >= 14
    ensures Translated(Translated(s, dir, from, to), dir, to, from) == s <==> Restorable(s, dir, from, to)
  {
    RewrittenMaps(s, LayoutOf(s, dir), from, to);
    ParseStable(s, Translated(s, dir, from, to), dir);
    ThereAndBack(s, LayoutOf(s, dir), from, to);
  }

  /** A translation maps exactly the MACs, and a DHCP checksum that is present becomes correct. */
  lemma TranslatedEffect(s: Bytes, dir: Direction, from: Mac, to: Mac)
    requires |s| >= 14
    ensures var t := Translated(s, dir, from, to);
            var l := LayoutOf(s, dir);
            LayoutOf(t, dir) == l && Mapped(s, t, l.fields, from, to) && SameOutside(s, t, l) &&
            (l.dhcp.Some? ==> ChecksumOk(t, l.dhcp.value)) && HasChecksum(t, l) == HasChecksum(s, l)
  {
    var l := LayoutOf(s, dir);
    RewrittenMaps(s, l, from, to);
    ParseStable(s, Translated(s, dir, from, to), dir);
    ChecksumPresence(s, l, from, to);
    if l.dhcp.Some? {
      FixChecksumOk(ReplaceAll(s, l.fields, from, to), l.dhcp.value);
    }
  }
}
