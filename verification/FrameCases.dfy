/**
 What a translation (src/native_net/frame_translate.cpp) does to the frames it is
 there for. The frames are built here and in `NetWire` from their parts, without the
 locator: DHCP messages in both directions, ARP, and IPv4 that is neither, each
 behind up to two VLAN tags.
 */
module FrameCases {
  import opened Bytes
  import opened Checksum
  import opened FrameTranslate
  import opened FrameRoundTrip
  import I = Ipv4
  import W = NetWire

  // ------------------------------------------------------------------------ tags

  datatype Tag = Tag(kind: word, control: word)

  predicate Taggable(tags: seq<Tag>) {
    |tags| <= 2 && forall i :: 0 <= i < |tags| ==> IsVlan(tags[i].kind)
  }

  function TagBytes(t: Tag): (r: Bytes)
    ensures |r| == 4
  {
    Be16(t.kind) + Be16(t.control)
  }

  function AllTags(tags: seq<Tag>): (r: Bytes)
    requires |tags| <= 2
    ensures |r| == 4 * |tags|
  {
    if |tags| == 0 then [] else if |tags| == 1 then TagBytes(tags[0]) else TagBytes(tags[0]) + TagBytes(tags[1])
  }

  /** The frame with VLAN tags put behind its addresses. */
  function Retagged(f: Bytes, tags: seq<Tag>): (r: Bytes)
    requires |tags| <= 2 && |f| >= 14
    ensures |r| == |f| + 4 * |tags|
  {
    f[..12] + AllTags(tags) + f[12..]
  }

  lemma RetaggedBytes(f: Bytes, tags: seq<Tag>)
    requires |tags| <= 2 && |f| >= 14
    ensures var s, n := Retagged(f, tags), 4 * |tags|;
      && s[..12] == f[..12] && s[12 + n..] == f[12..]
      && (forall k :: 0 <= k < 12 ==> s[k] == f[k]) && (forall k :: 12 <= k < |f| ==> s[k + n] == f[k])
      && forall k :: 0 <= k < n ==> s[12 + k] == AllTags(tags)[k]
  {
  }

  lemma FrontSlice(f: Bytes, tags: seq<Tag>, i: nat, j: nat)
    requires |tags| <= 2 && |f| >= 14 && i <= j <= 12
    ensures Retagged(f, tags)[i..j] == f[i..j]
  {
    hide AllTags;
  }

  lemma BackSlice(f: Bytes, tags: seq<Tag>, i: nat, j: nat)
    requires |tags| <= 2 && |f| >= 14 && 12 <= i <= j <= |f|
    ensures var n := 4 * |tags|; Retagged(f, tags)[i + n..j + n] == f[i..j]
  {
    hide Retagged;
    var s, n := Retagged(f, tags), 4 * |tags|;
    RetaggedBytes(f, tags);
    Within(s, 12 + n, |s|, i - 12, j - 12);
    Within(f, 12, |f|, i - 12, j - 12);
    assert s[12 + n..|s|] == s[12 + n..] && f[12..|f|] == f[12..];
    assert s[12 + n..|s|][i - 12..j - 12] == s[i + n..j + n] && f[12..|f|][i - 12..j - 12] == f[i..j];
  }

  lemma Within(s: Bytes, a: nat, b: nat, i: nat, j: nat)
    requires a <= b <= |s| && i <= j <= b - a
    ensures s[a..b][i..j] == s[a + i..a + j]
  {
    var x, y := s[a..b][i..j], s[a + i..a + j];
    assert |x| == |y| && forall k :: 0 <= k < |x| ==> x[k] == y[k];
  }

  lemma TagsSkipped(f: Bytes, tags: seq<Tag>)
    requires Taggable(tags) && |f| >= 14 && !IsVlan(Read16(f, 12))
    ensures L3Of(Retagged(f, tags)) == Some(L3(14 + 4 * |tags|, Read16(f, 12)))
  {
    var s, n := Retagged(f, tags), 4 * |tags|;
    RetaggedBytes(f, tags);
    assert s[12 + n] == f[12] && s[13 + n] == f[13];
    if |tags| >= 1 {
      assert AllTags(tags)[..4] == TagBytes(tags[0]);
      TagRead(s, 12, tags[0]);
    }
    if |tags| == 2 {
      assert AllTags(tags)[4..] == TagBytes(tags[1]);
      TagRead(s, 16, tags[1]);
    }
  }

  lemma TagRead(s: Bytes, o: nat, t: Tag)
    requires o + 4 <= |s| && forall k :: 0 <= k < 4 ==> s[o + k] == TagBytes(t)[k]
    ensures Read16(s, o) == t.kind
  {
    assert TagBytes(t)[..2] == Be16(t.kind);
    assert s[o] == Be16(t.kind)[0] && s[o + 1] == Be16(t.kind)[1];
  }

  // ---------------------------------------------------------- what decides a frame

  /** Every one of the fields holds `m`. */
  predicate Holds(s: Bytes, fields: seq<nat>, m: Mac)
    requires Inside(fields, |s|)
  {
    fields == [] || (s[fields[0]..fields[0] + 6] == m && Holds(s, fields[1..], m))
  }

  lemma {:induction false} MappedHeld(s: Bytes, t: Bytes, fields: seq<nat>, from: Mac, to: Mac)
    requires Inside(fields, |s|) && |s| == |t| && Mapped(s, t, fields, from, to) && Holds(s, fields, from)
    ensures Holds(t, fields, to)
  {
    if fields != [] {
      MappedHeld(s, t, fields[1..], from, to);
    }
  }

  lemma {:induction false} HeldSame(t: Bytes, u: Bytes, fields: seq<nat>, m: Mac)
    requires Inside(fields, |t|) && |t| == |u| && Holds(t, fields, m) && Holds(u, fields, m)
    ensures SameFields(t, u, fields)
  {
    if fields != [] {
      HeldSame(t, u, fields[1..], m);
    }
  }

  /** `u` has `to` where `s` has `from`, in exactly the fields of a translation, and a checksum just when `s` has one. */
  ghost predicate Renamed(s: Bytes, u: Bytes, l: Layout, from: Mac, to: Mac)
    requires LayoutOk(s, l)
  {
    && SameOutside(s, u, l) && Holds(s, l.fields, from) && Holds(u, l.fields, to)
    && (l.dhcp.Some? ==> ChecksumOk(u, l.dhcp.value)) && HasChecksum(u, l) == HasChecksum(s, l)
  }

  lemma TranslatedIs(s: Bytes, u: Bytes, dir: Direction, from: Mac, to: Mac)
    requires |s| >= 14 && Renamed(s, u, LayoutOf(s, dir), from, to)
    ensures Translated(s, dir, from, to) == u
  {
    hide LayoutOf, Translated, ChecksumOk;
    var t, l := Translated(s, dir, from, to), LayoutOf(s, dir);
    TranslatedEffect(s, dir, from, to);
    MappedHeld(s, t, l.fields, from, to);
    HeldSame(t, u, l.fields, to);
    SameFieldsBytes(t, u, l.fields);
    if l.dhcp.Some? {
      FixChecksumForgets(t, u, l.dhcp.value);
      FixChecksumFixed(t, l.dhcp.value);
      FixChecksumFixed(u, l.dhcp.value);
    } else {
      assert t == u;
    }
  }

  // ------------------------------------------------------------------------- ARP

  /** Two fields and no datagram: everything else has to agree. */
  lemma PairRenamed(s: Bytes, u: Bytes, a: nat, b: nat, l: Layout, from: Mac, to: Mac)
    requires l == Layout([a, b], None) && LayoutOk(s, l) && |s| == |u| && b + 6 <= |s| && a + 6 <= b
    requires s[a..a + 6] == from && s[b..b + 6] == from && u[a..a + 6] == to && u[b..b + 6] == to
    requires forall k :: 0 <= k < |s| && !(a <= k < a + 6) && !(b <= k < b + 6) ==> s[k] == u[k]
    ensures Renamed(s, u, l, from, to)
  {
    assert l.fields[1..] == [b] && l.fields[1..][1..] == [];
    forall k | 0 <= k < |s| && !Covers(l.fields, k) ensures s[k] == u[k] {
      assert Covers(l.fields, k) <==> a <= k < a + 6 || b <= k < b + 6;
    }
  }

  lemma ArpLayout(f: Bytes, tags: seq<Tag>, dir: Direction)
    requires Taggable(tags) && |f| == 42 && Read16(f, 12) == 0x0806
    requires Read16(f, 14) == 1 && Read16(f, 16) == 0x0800 && f[18] == 6 && f[19] == 4
    ensures LayoutOf(Retagged(f, tags), dir)
         == Layout([if dir.Outbound? then 6 else 0, 14 + 4 * |tags| + if dir.Outbound? then 8 else 18], None)
  {
    var s, n := Retagged(f, tags), 4 * |tags|;
    TagsSkipped(f, tags);
    RetaggedBytes(f, tags);
    assert forall k :: 12 <= k < 42 ==> s[k + n] == f[k];
    assert s[14 + n] == f[14] && s[15 + n] == f[15] && s[16 + n] == f[16] && s[17 + n] == f[17];
    assert s[18 + n] == f[18] && s[19 + n] == f[19];
    assert DhcpOf(s).None?;
    assert IsEthernetArp(s, 14 + n);
  }

  lemma ArpBytes(to: Mac, from: Mac, op: word, senderIp: dword, targetMac: Mac, targetIp: dword)
    ensures var f := W.ArpFrame(to, from, op, senderIp, targetMac, targetIp);
      && Read16(f, 12) == 0x0806 && Read16(f, 14) == 1 && Read16(f, 16) == 0x0800 && f[18] == 6 && f[19] == 4
      && f[..6] == to && f[6..12] == from && f[12..22] == Be16(0x0806) + [0, 1, 8, 0, 6, 4] + Be16(op)
      && f[22..28] == from && f[28..32] == Be32(senderIp) && f[32..38] == targetMac && f[38..42] == Be32(targetIp)
  {
    var f := W.ArpFrame(to, from, op, senderIp, targetMac, targetIp);
    assert f[12..14] == Be16(0x0806) && f[14..20] == [0, 1, 8, 0, 6, 4];
    assert f[12] == 8 && f[13] == 6 && f[14] == 0 && f[15] == 1 && f[16] == 8 && f[17] == 0;
  }

  /** Outbound, an ARP frame of the console becomes the one that the tether's address would have sent. */
  lemma ArpOutbound(tags: seq<Tag>, peer: Mac, from: Mac, to: Mac, op: word, senderIp: dword, targetMac: Mac, targetIp: dword)
    requires Taggable(tags)
    ensures Translated(Retagged(W.ArpFrame(peer, from, op, senderIp, targetMac, targetIp), tags), Outbound, from, to)
         == Retagged(W.ArpFrame(peer, to, op, senderIp, targetMac, targetIp), tags)
  {
    hide W.ArpFrame, LayoutOf, Translated, Retagged, Renamed;
    var f := W.ArpFrame(peer, from, op, senderIp, targetMac, targetIp);
    var g := W.ArpFrame(peer, to, op, senderIp, targetMac, targetIp);
    ArpBytes(peer, from, op, senderIp, targetMac, targetIp);
    ArpBytes(peer, to, op, senderIp, targetMac, targetIp);
    ArpLayout(f, tags, Outbound);
    OutsideOf(f, g, 6, 22);
    RetaggedRenamed(f, g, tags, 6, 22, Outbound, from, to);
  }

  /** Inbound, one that is addressed to the tether becomes addressed to the console. */
  lemma ArpInbound(tags: seq<Tag>, peer: Mac, from: Mac, to: Mac, op: word, senderIp: dword, targetIp: dword)
    requires Taggable(tags)
    ensures Translated(Retagged(W.ArpFrame(from, peer, op, senderIp, from, targetIp), tags), Inbound, from, to)
         == Retagged(W.ArpFrame(to, peer, op, senderIp, to, targetIp), tags)
  {
    hide W.ArpFrame, LayoutOf, Translated, Retagged, Renamed;
    var f := W.ArpFrame(from, peer, op, senderIp, from, targetIp);
    var g := W.ArpFrame(to, peer, op, senderIp, to, targetIp);
    ArpBytes(from, peer, op, senderIp, from, targetIp);
    ArpBytes(to, peer, op, senderIp, to, targetIp);
    ArpLayout(f, tags, Inbound);
    OutsideOf(f, g, 0, 32);
    RetaggedRenamed(f, g, tags, 0, 32, Inbound, from, to);
  }

  /** Two ARP frames that agree piece by piece agree byte by byte. */
  lemma OutsideOf(f: Bytes, g: Bytes, a: nat, b: nat)
    requires |f| == |g| == 42 && ((a == 6 && b == 22) || (a == 0 && b == 32))
    requires f[12..22] == g[12..22] && f[28..32] == g[28..32] && f[38..42] == g[38..42]
    requires if a == 6 then f[..6] == g[..6] && f[32..38] == g[32..38] else f[6..12] == g[6..12] && f[22..28] == g[22..28]
    ensures forall k :: 0 <= k < 42 && !(a <= k < a + 6) && !(b <= k < b + 6) ==> f[k] == g[k]
  {
    Pieces(f, g, 12, 22);
    Pieces(f, g, 28, 32);
    Pieces(f, g, 38, 42);
    if a == 6 {
      Pieces(f, g, 0, 6);
      Pieces(f, g, 32, 38);
    } else {
      Pieces(f, g, 6, 12);
      Pieces(f, g, 22, 28);
    }
  }

  lemma Pieces(f: Bytes, g: Bytes, i: nat, j: nat)
    requires i <= j <= |f| == |g| && f[i..j] == g[i..j]
    ensures forall k :: i <= k < j ==> f[k] == g[k]
  {
    forall k | i <= k < j ensures f[k] == g[k] {
      assert f[k] == f[i..j][k - i] && g[k] == g[i..j][k - i];
    }
  }

  lemma SameRetagged(f: Bytes, g: Bytes, tags: seq<Tag>, a: nat, b: nat)
    requires |tags| <= 2 && |f| == |g| >= 14 && a + 6 <= 12 && 14 <= b
    requires forall k :: 0 <= k < |f| && !(a <= k < a + 6) && !(b <= k < b + 6) ==> f[k] == g[k]
    ensures var s, u, n := Retagged(f, tags), Retagged(g, tags), 4 * |tags|;
      forall k :: 0 <= k < |s| && !(a <= k < a + 6) && !(b + n <= k < b + n + 6) ==> s[k] == u[k]
  {
    hide AllTags;
    var s, u, n := Retagged(f, tags), Retagged(g, tags), 4 * |tags|;
    forall k | 0 <= k < |s| && !(a <= k < a + 6) && !(b + n <= k < b + n + 6) ensures s[k] == u[k] {
      if k >= 12 + n {
        assert s[k] == f[k - n] && u[k] == g[k - n];
      }
    }
  }

  lemma RetaggedRenamed(f: Bytes, g: Bytes, tags: seq<Tag>, a: nat, b: nat, dir: Direction, from: Mac, to: Mac)
    requires |tags| <= 2 && |f| == |g| >= 14 && a + 6 <= 12 && 14 <= b && b + 6 <= |f|
    requires LayoutOf(Retagged(f, tags), dir) == Layout([a, b + 4 * |tags|], None)
    requires f[a..a + 6] == from && f[b..b + 6] == from && g[a..a + 6] == to && g[b..b + 6] == to
    requires forall k :: 0 <= k < |f| && !(a <= k < a + 6) && !(b <= k < b + 6) ==> f[k] == g[k]
    ensures Translated(Retagged(f, tags), dir, from, to) == Retagged(g, tags)
  {
    hide Translated, Renamed, LayoutOf, Retagged;
    var s, u, n := Retagged(f, tags), Retagged(g, tags), 4 * |tags|;
    FrontSlice(f, tags, a, a + 6);
    FrontSlice(g, tags, a, a + 6);
    BackSlice(f, tags, b, b + 6);
    BackSlice(g, tags, b, b + 6);
    SameRetagged(f, g, tags, a, b);
    PairRenamed(s, u, a, b + n, LayoutOf(s, dir), from, to);
    TranslatedIs(s, u, dir, from, to);
  }

  // ----------------------------------------------------------------- DHCP messages

  /** `Client` is the client identifier that names the MAC. */
  datatype Opt = Pad | Client | Other(code: byte, value: Bytes)

  predicate OptOk(o: Opt) {
    o.Other? ==>
      o.code != 0 && o.code != 255 && |o.value| < 0x100 && !(o.code == 61 && |o.value| == 7 && o.value[0] == 1)
  }

  function OptBytes(o: Opt, mac: Mac): Bytes
    requires OptOk(o)
  {
    match o
    case Pad => [0]
    case Client => [61, 7, 1] + mac
    case Other(code, value) => [code, |value|] + value
  }

  predicate AllOk(opts: seq<Opt>) {
    forall i :: 0 <= i < |opts| ==> OptOk(opts[i])
  }

  function OptsBytes(opts: seq<Opt>, mac: Mac): Bytes
    requires AllOk(opts)
  {
    if opts == [] then [] else OptBytes(opts[0], mac) + OptsBytes(opts[1..], mac)
  }

  /** A DHCP message of the client whose MAC is put in: what stands before and behind the hardware address, the
      options, and the end marker with what follows it. */
  datatype Message = Message(head: Bytes, mid: Bytes, opts: seq<Opt>, tail: Bytes)

  predicate MessageOk(m: Message) {
    && |m.head| == 28 && m.head[1] == 1 && m.head[2] == 6 && |m.mid| == 202 && AllOk(m.opts)
    && (m.tail == [] || m.tail[0] == 255)
  }

  function MessageBytes(m: Message, mac: Mac): (r: Bytes)
    requires MessageOk(m)
    ensures |r| >= 240
  {
    m.head + mac + m.mid + W.COOKIE + (OptsBytes(m.opts, mac) + m.tail)
  }

  lemma {:induction false} OptsLength(opts: seq<Opt>, a: Mac, b: Mac)
    requires AllOk(opts)
    ensures |OptsBytes(opts, a)| == |OptsBytes(opts, b)|
  {
    if opts != [] {
      OptsLength(opts[1..], a, b);
    }
  }

  /** The first option of a list, as the walk finds it. */
  lemma FirstItem(s: Bytes, bootp: nat, offset: nat, n: nat, opts: seq<Opt>, tail: Bytes, mac: Mac)
    requires opts != [] && AllOk(opts) && offset <= n && bootp + n <= |s|
    requires s[bootp + offset..bootp + n] == OptsBytes(opts, mac) + tail
    ensures var len := |OptBytes(opts[0], mac)|;
      && offset + len <= n && s[bootp + offset + len..bootp + n] == OptsBytes(opts[1..], mac) + tail
      && s[bootp + offset..bootp + offset + len] == OptBytes(opts[0], mac)
  {
    hide OptBytes;
    var piece, rest := OptBytes(opts[0], mac), OptsBytes(opts[1..], mac) + tail;
    Cut(s, bootp + offset, bootp + n, piece, OptsBytes(opts[1..], mac), tail);
  }

  lemma Cut(s: Bytes, lo: nat, hi: nat, a: Bytes, b: Bytes, c: Bytes)
    requires lo <= hi <= |s| && s[lo..hi] == (a + b) + c
    ensures lo + |a| <= hi && s[lo..lo + |a|] == a && s[lo + |a|..hi] == b + c
  {
    var all := s[lo..hi];
    assert all == a + (b + c);
    Within(s, lo, hi, 0, |a|);
    Within(s, lo, hi, |a|, hi - lo);
  }

  lemma ItemOf(s: Bytes, bootp: nat, offset: nat, n: nat, o: Opt, mac: Mac)
    requires OptOk(o) && bootp + n <= |s| && offset + |OptBytes(o, mac)| <= n
    requires s[bootp + offset..bootp + offset + |OptBytes(o, mac)|] == OptBytes(o, mac)
    ensures ItemAt(s, bootp, offset, n) == if o.Pad? then Item.Pad else Entry(offset + |OptBytes(o, mac)|)
    ensures !o.Pad? ==> (IsClientId(s, bootp + offset) <==> o.Client?)
    ensures o.Client? ==> s[bootp + offset + 3..bootp + offset + 9] == mac
  {
    var piece := OptBytes(o, mac);
    assert forall i :: 0 <= i < |piece| ==> s[bootp + offset + i] == piece[i];
    assert s[bootp + offset] == piece[0];
    if !o.Pad? {
      assert s[bootp + offset + 1] == piece[1];
    }
    if o.Client? {
      assert s[bootp + offset + 2] == piece[2];
      assert piece[3..9] == mac;
    } else if o.Other? && o.code == 61 && |o.value| == 7 {
      assert s[bootp + offset + 2] == piece[2] == o.value[0];
    }
  }

  lemma ListEnds(s: Bytes, bootp: nat, offset: nat, n: nat, tail: Bytes)
    requires offset <= n && bootp + n <= |s| && s[bootp + offset..bootp + n] == tail && (tail == [] || tail[0] == 255)
    ensures OptionMacs(s, bootp, offset, n) == []
  {
    if tail != [] {
      assert s[bootp + offset] == tail[0];
    }
  }

  /** The fields hold the two clients' MACs, and the bytes of a stretch outside of them are the same. */
  predicate ListRenamed(s: Bytes, u: Bytes, fields: seq<nat>, lo: nat, hi: nat, from: Mac, to: Mac) {
    && |s| == |u| && hi <= |s| && Inside(fields, |s|) && Holds(s, fields, from) && Holds(u, fields, to)
    && forall k :: lo <= k < hi && !Covers(fields, k) ==> s[k] == u[k]
  }

  lemma SameBefore(s: Bytes, u: Bytes, fields: seq<nat>, lo: nat, mid: nat, hi: nat, from: Mac, to: Mac)
    requires lo <= mid <= hi && ListRenamed(s, u, fields, mid, hi, from, to) && s[lo..mid] == u[lo..mid]
    ensures ListRenamed(s, u, fields, lo, hi, from, to)
  {
    Pieces(s, u, lo, mid);
  }

  lemma ClientBefore(s: Bytes, u: Bytes, rest: seq<nat>, lo: nat, hi: nat, from: Mac, to: Mac)
    requires lo + 9 <= hi && ListRenamed(s, u, rest, lo + 9, hi, from, to) && s[lo..lo + 3] == u[lo..lo + 3]
    requires s[lo + 3..lo + 9] == from && u[lo + 3..lo + 9] == to
    ensures ListRenamed(s, u, [lo + 3] + rest, lo, hi, from, to)
  {
    var fields := [lo + 3] + rest;
    assert fields[1..] == rest;
    Pieces(s, u, lo, lo + 3);
    forall k | lo <= k < hi && !Covers(fields, k) ensures s[k] == u[k] {
      assert !(lo + 3 <= k < lo + 9) && !Covers(rest, k);
    }
  }

  /** The walk finds the MACs of the client identifiers, and what it does not find is the same for both clients. */
  lemma {:induction false} OptionsRenamed(s: Bytes, u: Bytes, bootp: nat, offset: nat, n: nat,
                                          opts: seq<Opt>, tail: Bytes, from: Mac, to: Mac)
    requires |s| == |u| && bootp + n <= |s| && offset <= n && AllOk(opts) && (tail == [] || tail[0] == 255)
    requires s[bootp + offset..bootp + n] == OptsBytes(opts, from) + tail
    requires u[bootp + offset..bootp + n] == OptsBytes(opts, to) + tail
    ensures ListRenamed(s, u, OptionMacs(s, bootp, offset, n), bootp + offset, bootp + n, from, to)
    decreases |opts|
  {
    hide ItemAt, IsClientId, OptBytes, ListRenamed;
    if opts == [] {
      assert OptsBytes(opts, from) + tail == tail && OptsBytes(opts, to) + tail == tail;
      ListEnds(s, bootp, offset, n, tail);
      NothingRenamed(s, u, bootp + n, from, to);
      SameBefore(s, u, [], bootp + offset, bootp + n, bootp + n, from, to);
    } else {
      FirstItem(s, bootp, offset, n, opts, tail, from);
      FirstItem(u, bootp, offset, n, opts, tail, to);
      OptLength(opts[0], from, to);
      OptionsRenamed(s, u, bootp, offset + |OptBytes(opts[0], from)|, n, opts[1..], tail, from, to);
      OneOption(s, u, bootp, offset, n, opts[0], from, to);
    }
  }

  lemma NothingRenamed(s: Bytes, u: Bytes, n: nat, from: Mac, to: Mac)
    requires |s| == |u| && n <= |s|
    ensures ListRenamed(s, u, [], n, n, from, to)
  {
  }

  lemma OptLength(o: Opt, a: Mac, b: Mac)
    requires OptOk(o)
    ensures 0 < |OptBytes(o, a)| == |OptBytes(o, b)| && (!o.Client? ==> OptBytes(o, a) == OptBytes(o, b))
    ensures o.Pad? ==> |OptBytes(o, a)| == 1
    ensures o.Client? ==> |OptBytes(o, a)| == 9 && OptBytes(o, a)[..3] == OptBytes(o, b)[..3]
  {
  }

  lemma OneOption(s: Bytes, u: Bytes, bootp: nat, offset: nat, n: nat, o: Opt, from: Mac, to: Mac)
    requires |s| == |u| && OptOk(o) && bootp + n <= |s| && offset + |OptBytes(o, from)| <= n
    requires var lo := bootp + offset;
      s[lo..lo + |OptBytes(o, from)|] == OptBytes(o, from) && u[lo..lo + |OptBytes(o, from)|] == OptBytes(o, to)
    requires var next := offset + |OptBytes(o, from)|;
      ListRenamed(s, u, OptionMacs(s, bootp, next, n), bootp + next, bootp + n, from, to)
    ensures ListRenamed(s, u, OptionMacs(s, bootp, offset, n), bootp + offset, bootp + n, from, to)
  {
    hide ItemAt, IsClientId, OptBytes, ListRenamed;
    var lo, len := bootp + offset, |OptBytes(o, from)|;
    var rest := OptionMacs(s, bootp, offset + len, n);
    OptLength(o, from, to);
    ItemOf(s, bootp, offset, n, o, from);
    if o.Client? {
      ItemOf(u, bootp, offset, n, o, to);
      assert s[lo..lo + 3] == OptBytes(o, from)[..3] && u[lo..lo + 3] == OptBytes(o, to)[..3];
      ClientBefore(s, u, rest, lo, bootp + n, from, to);
    } else {
      SameBefore(s, u, rest, lo, lo + len, bootp + n, from, to);
      assert o.Other? ==> ItemMacs(s, lo) + rest == rest;
    }
  }

  // ------------------------------------------------------------------ DHCP frames

  /** Where the parts of an IPv4 datagram stand in a frame whose header begins at `o`. */
  ghost predicate Carries(s: Bytes, o: nat, h: Bytes, u: Bytes) {
    |h| == 20 && |s| == o + 20 + |u| && s[o..o + 20] == h && s[o + 20..] == u
  }

  predicate DhcpPorts(srcPort: word, dstPort: word) {
    (srcPort == 68 && dstPort == 67) || (srcPort == 67 && dstPort == 68)
  }

  /** A datagram between the DHCP ports whose message has the fixed part of an Ethernet client's. */
  lemma DatagramLocated(s: Bytes, o: nat, h: Bytes, u: Bytes, p: Bytes)
    requires Carries(s, o, h, u) && |u| == 8 + |p| && u[8..] == p && |p| >= 240 && 20 + |u| < 0x1_0000
    requires h[0] == 0x45 && Read16(h, 2) == 20 + |u| && Read16(h, 6) == 0x4000 && h[9] == 17
    requires DhcpPorts(Read16(u, 0), Read16(u, 2)) && Read16(u, 4) == |u|
    requires p[1] == 1 && p[2] == 6 && p[236..240] == W.COOKIE
    ensures LocateDhcp(s, o) == Some(Dhcp(o, o + 20, o + 28, |u|))
  {
    assert forall k :: 0 <= k < 20 ==> s[o + k] == h[k];
    assert forall k :: 0 <= k < |u| ==> s[o + 20 + k] == u[k];
    assert forall k :: 0 <= k < |p| ==> u[8 + k] == p[k];
    assert s[o] == h[0] && s[o + 9] == h[9] && Read16(s, o + 2) == Read16(h, 2) && Read16(s, o + 6) == Read16(h, 6);
    assert Read16(s, o + 20) == Read16(u, 0) && Read16(s, o + 22) == Read16(u, 2) && Read16(s, o + 24) == Read16(u, 4);
    assert s[o + 29] == p[1] && s[o + 30] == p[2];
    assert p[236..240][0] == p[236] && p[236..240][1] == p[237] && p[236..240][2] == p[238] && p[236..240][3] == p[239];
    assert s[o + 264] == 99 && s[o + 265] == 130 && s[o + 266] == 83 && s[o + 267] == 99;
  }

  /** The datagram's checksum as the locator sums it. */
  lemma ChecksumCarried(s: Bytes, o: nat, h: Bytes, u: Bytes, src: dword, dst: dword)
    requires Carries(s, o, h, u) && 248 <= |u| < 0x1_0000 && h[12..20] == Be32(src) + Be32(dst)
    ensures UdpSum(s, Dhcp(o, o + 20, o + 28, |u|)) == SegmentSum(src, dst, I.UDP, u)
    ensures Read16(s, o + 26) == Read16(u, 6)
  {
    hide WordSum, Be32;
    assert s[o + 12..o + 20] == s[o..o + 20][12..20];
    assert s[o + 20..o + 20 + |u|] == u;
    assert s[o + 26] == s[o + 20..][6] && s[o + 27] == s[o + 20..][7];
    assert Be32(src) + Be32(dst) + [0, 17] + Be16(|u|) == Pseudo(src, dst, I.UDP, |u|);
  }

  lemma HeaderBytes(id: word, total: word, src: dword, dst: dword)
    ensures I.Header(id, total, I.UDP, src, dst)[12..20] == Be32(src) + Be32(dst)
  {
    hide Be32, WordSum;
    var h := I.Header0(id, total, I.UDP, src, dst);
    assert h[12..20] == Be32(src) + Be32(dst);
    assert forall k :: 12 <= k < 20 ==> I.Header(id, total, I.UDP, src, dst)[k] == h[k];
  }

  /** The datagram of the client or of the server. */
  function DhcpUdp(client: bool, src: dword, dst: dword, p: Bytes): (u: Bytes)
    requires |p| <= 1400
    ensures |u| == 8 + |p|
  {
    I.UdpBytes(src, dst, if client then 68 else 67, if client then 67 else 68, p)
  }

  /** A frame to or from a DHCP client: `client` sends it, or it goes to the client. */
  function DhcpFrame(dir: Direction, client: bool, peer: Mac, mac: Mac, id: word, src: dword, dst: dword, m: Message): (r: Bytes)
    requires MessageOk(m) && |MessageBytes(m, mac)| <= 1400
    ensures |r| == 42 + |MessageBytes(m, mac)|
  {
    var u := DhcpUdp(client, src, dst, MessageBytes(m, mac));
    I.Frame(if dir.Outbound? then peer else mac, if dir.Outbound? then mac else peer, id, I.Packet(src, dst, I.UDP, u))
  }

  lemma MessageParts(m: Message, mac: Mac)
    requires MessageOk(m)
    ensures var p := MessageBytes(m, mac);
      && p[..28] == m.head && p[28..34] == mac && p[34..236] == m.mid && p[236..240] == W.COOKIE && p[1] == 1 && p[2] == 6
      && p[240..] == OptsBytes(m.opts, mac) + m.tail
  {
    hide OptsBytes;
    var p := MessageBytes(m, mac);
    assert p[..28] == m.head && p[1] == m.head[1] && p[2] == m.head[2];
  }

  lemma SameLength(m: Message, a: Mac, b: Mac)
    requires MessageOk(m)
    ensures |MessageBytes(m, a)| == |MessageBytes(m, b)|
  {
    OptsLength(m.opts, a, b);
  }

  /** A frame's parts behind its tags. */
  ghost predicate Placed(s: Bytes, tags: seq<Tag>, to: Mac, from: Mac, h: Bytes, u: Bytes) {
    var o := 14 + 4 * |tags|;
    && |tags| <= 2 && Carries(s, o, h, u) && s[..6] == to && s[6..12] == from && s[12..o] == AllTags(tags) + Be16(0x0800)
  }

  lemma FramePlaced(tags: seq<Tag>, to: Mac, from: Mac, id: word, p: I.Packet)
    requires Taggable(tags) && |p.body| <= I.MAX_PAYLOAD
    ensures var s := Retagged(I.Frame(to, from, id, p), tags);
      && Placed(s, tags, to, from, I.Header(id, 20 + |p.body|, p.proto, p.src, p.dst), p.body)
      && L3Of(s) == Some(L3(14 + 4 * |tags|, IPV4))
  {
    hide I.Header, WordSum, L3Of, Placed, AllTags;
    var f := I.Frame(to, from, id, p);
    I.FrameParses(to, from, id, p);
    TagsSkipped(f, tags);
    FrameSlices(to, from, id, p);
    RetaggedSlices(f, tags, I.Header(id, 20 + |p.body|, p.proto, p.src, p.dst), p.body);
  }

  lemma FrameSlices(to: Mac, from: Mac, id: word, p: I.Packet)
    requires |p.body| <= I.MAX_PAYLOAD
    ensures var f := I.Frame(to, from, id, p);
      && f[..6] == to && f[6..12] == from && f[12..14] == Be16(0x0800)
      && f[14..34] == I.Header(id, 20 + |p.body|, p.proto, p.src, p.dst) && f[34..] == p.body
  {
    hide I.Header;
  }

  lemma RetaggedSlices(f: Bytes, tags: seq<Tag>, h: Bytes, u: Bytes)
    requires |tags| <= 2 && |f| >= 34 && f[12..14] == Be16(0x0800) && f[14..34] == h && f[34..] == u
    ensures Placed(Retagged(f, tags), tags, f[..6], f[6..12], h, u)
  {
    hide AllTags;
    var s, n := Retagged(f, tags), 4 * |tags|;
    assert s[..6] == f[..6] && s[6..12] == f[6..12];
    assert s[12..14 + n] == AllTags(tags) + f[12..14];
    assert s[14 + n..34 + n] == f[14..34] && s[34 + n..] == f[34..];
  }

  /** A DHCP datagram is located ... */
  lemma DhcpFound(s: Bytes, o: nat, id: word, src: dword, dst: dword, client: bool, m: Message, mac: Mac)
    requires MessageOk(m) && |MessageBytes(m, mac)| <= 1400 && L3Of(s) == Some(L3(o, IPV4))
    requires var u := DhcpUdp(client, src, dst, MessageBytes(m, mac));
      Carries(s, o, I.Header(id, 20 + |u|, I.UDP, src, dst), u)
    ensures var p := MessageBytes(m, mac); DhcpOf(s) == Some(Dhcp(o, o + 20, o + 28, 8 + |p|)) && s[o + 28..] == p
  {
    hide I.UdpBytes, I.Header, MessageBytes, LocateDhcp, L3Of;
    var p := MessageBytes(m, mac);
    var u := DhcpUdp(client, src, dst, p);
    I.UdpVerifies(src, dst, if client then 68 else 67, if client then 67 else 68, p);
    I.HeaderFields(id, 20 + |u|, I.UDP, src, dst);
    MessageParts(m, mac);
    DatagramLocated(s, o, I.Header(id, 20 + |u|, I.UDP, src, dst), u, p);
    assert s[o + 28..] == s[o + 20..][8..];
  }

  /** ... with a checksum that is there and right. */
  lemma DhcpSummed(s: Bytes, o: nat, id: word, src: dword, dst: dword, client: bool, p: Bytes)
    requires 240 <= |p| <= 1400
    requires var u := DhcpUdp(client, src, dst, p); Carries(s, o, I.Header(id, 20 + |u|, I.UDP, src, dst), u)
    ensures var d := Dhcp(o, o + 20, o + 28, 8 + |p|); Fits(s, d) && ChecksumOk(s, d) && Read16(s, d.udp + 6) != 0
  {
    hide I.UdpBytes, I.Header, WordSum, Verifies, SegmentSum, UdpSum;
    var u := DhcpUdp(client, src, dst, p);
    I.UdpVerifies(src, dst, if client then 68 else 67, if client then 67 else 68, p);
    HeaderBytes(id, 20 + |u|, src, dst);
    ChecksumCarried(s, o, I.Header(id, 20 + |u|, I.UDP, src, dst), u, src, dst);
  }

  lemma UdpHeaderSame(client: bool, src: dword, dst: dword, p: Bytes, q: Bytes)
    requires |p| == |q| <= 1400
    ensures DhcpUdp(client, src, dst, p)[..6] == DhcpUdp(client, src, dst, q)[..6]
    ensures DhcpUdp(client, src, dst, p)[8..] == p
  {
    hide SegmentSum, Field;
    var sp, dp := if client then 68 else 67, if client then 67 else 68;
    var a, b := I.Udp0(sp, dp, p), I.Udp0(sp, dp, q);
    assert a[..6] == b[..6];
    assert forall k :: 0 <= k < 6 ==> DhcpUdp(client, src, dst, p)[k] == a[k] && DhcpUdp(client, src, dst, q)[k] == b[k];
    assert forall k :: 8 <= k < 8 + |p| ==> DhcpUdp(client, src, dst, p)[k] == a[k];
    assert a[8..] == p;
  }

  /** The messages of the two clients, where they stand in their frames. */
  lemma MessagesRenamed(s: Bytes, v: Bytes, b: nat, m: Message, from: Mac, to: Mac)
    requires MessageOk(m) && |s| == |v| == b + |MessageBytes(m, from)|
    requires s[b..] == MessageBytes(m, from) && v[b..] == MessageBytes(m, to)
    ensures s[b + 28..b + 34] == from && v[b + 28..b + 34] == to
    ensures ListRenamed(s, v, OptionMacs(s, b, 240, |s| - b), b + 240, |s|, from, to)
    ensures forall k :: b <= k < b + 240 && !(b + 28 <= k < b + 34) ==> s[k] == v[k]
  {
    hide MessageBytes, OptionMacs, ListRenamed, OptsBytes;
    var p, q := MessageBytes(m, from), MessageBytes(m, to);
    SameLength(m, from, to);
    MessageParts(m, from);
    MessageParts(m, to);
    MessageAt(s, b, p);
    MessageAt(v, b, q);
    OptionsRenamed(s, v, b, 240, |p|, m.opts, m.tail, from, to);
    Pieces(s, v, b, b + 28);
    Pieces(s, v, b + 34, b + 236);
    Pieces(s, v, b + 236, b + 240);
  }

  lemma MessageAt(s: Bytes, b: nat, p: Bytes)
    requires |s| == b + |p| && |p| >= 240 && s[b..] == p
    ensures s[b..b + 28] == p[..28] && s[b + 28..b + 34] == p[28..34] && s[b + 34..b + 236] == p[34..236]
    ensures s[b + 236..b + 240] == p[236..240] && s[b + 240..b + |p|] == p[240..]
  {
    assert s[b..|s|] == p;
    Within(s, b, |s|, 0, 28);
    Within(s, b, |s|, 28, 34);
    Within(s, b, |s|, 34, 236);
    Within(s, b, |s|, 236, 240);
    Within(s, b, |s|, 240, |p|);
    assert p[240..|p|] == p[240..] && p[0..28] == p[..28];
  }

  /** Everything in front of the message but the checksum is the same. */
  lemma HeadersSame(s: Bytes, v: Bytes, o: nat, h: Bytes, u: Bytes, w: Bytes)
    requires o >= 12 && Carries(s, o, h, u) && Carries(v, o, h, w) && s[12..o] == v[12..o]
    requires |u| == |w| >= 8 && u[..6] == w[..6]
    ensures forall k :: 12 <= k < o + 28 && !(o + 26 <= k < o + 28) ==> s[k] == v[k]
  {
    Pieces(s, v, 12, o);
    Pieces(s, v, o, o + 20);
    assert s[o + 20..o + 26] == u[..6] && v[o + 20..o + 26] == w[..6];
    Pieces(s, v, o + 20, o + 26);
  }

  lemma DhcpRenamed(s: Bytes, v: Bytes, dir: Direction, d: Dhcp, from: Mac, to: Mac)
    requires |s| == |v| >= 14 && DhcpOf(s) == Some(d) && d.udp >= 12 && d.udp + d.udpLength == |s|
    requires Fits(s, d) && Fits(v, d) && ChecksumOk(v, d) && Read16(s, d.udp + 6) != 0 && Read16(v, d.udp + 6) != 0
    requires var e := if dir.Outbound? then 6 else 0;
      s[e..e + 6] == from && v[e..e + 6] == to && s[6 - e..12 - e] == v[6 - e..12 - e]
    requires forall k :: 12 <= k < d.bootp && !(d.udp + 6 <= k < d.udp + 8) ==> s[k] == v[k]
    requires s[d.bootp + 28..d.bootp + 34] == from && v[d.bootp + 28..d.bootp + 34] == to
    requires forall k :: d.bootp <= k < d.bootp + 240 && !(d.bootp + 28 <= k < d.bootp + 34) ==> s[k] == v[k]
    requires ListRenamed(s, v, OptionMacs(s, d.bootp, 240, d.udpLength - 8), d.bootp + 240, |s|, from, to)
    ensures Renamed(s, v, LayoutOf(s, dir), from, to)
  {
    hide OptionMacs, ChecksumOk, LayoutOf, LayoutOk, DhcpOf;
    var e := if dir.Outbound? then 6 else 0;
    var options := OptionMacs(s, d.bootp, 240, d.udpLength - 8);
    DhcpLayout(s, dir, d);
    Pieces(s, v, 6 - e, 12 - e);
    HeldBefore(s, v, [d.bootp + 28] + options, e, from, to);
    HeldBefore(s, v, options, d.bootp + 28, from, to);
    forall k | 0 <= k < |s| && !Covers(LayoutOf(s, dir).fields, k) && !(d.udp + 6 <= k < d.udp + 8) ensures s[k] == v[k] {
      CoveredBefore([d.bootp + 28] + options, e, k);
      CoveredBefore(options, d.bootp + 28, k);
    }
  }

  lemma DhcpLayout(s: Bytes, dir: Direction, d: Dhcp)
    requires |s| >= 14 && DhcpOf(s) == Some(d) && Fits(s, d)
    ensures LayoutOk(s, LayoutOf(s, dir))
    ensures LayoutOf(s, dir)
         == Layout([if dir.Outbound? then 6 else 0] + ([d.bootp + 28] + OptionMacs(s, d.bootp, 240, d.udpLength - 8)), Some(d))
  {
    hide OptionMacs, LocateDhcp;
  }

  lemma HeldBefore(s: Bytes, v: Bytes, rest: seq<nat>, f: nat, from: Mac, to: Mac)
    requires |s| == |v| && f + 6 <= |s| && Inside([f] + rest, |s|) && s[f..f + 6] == from && v[f..f + 6] == to
    ensures Inside(rest, |s|)
    ensures Holds(s, rest, from) && Holds(v, rest, to) ==> Holds(s, [f] + rest, from) && Holds(v, [f] + rest, to)
  {
    assert ([f] + rest)[1..] == rest;
  }

  lemma CoveredBefore(rest: seq<nat>, f: nat, k: nat)
    ensures Covers([f] + rest, k) <==> f <= k < f + 6 || Covers(rest, k)
  {
    assert ([f] + rest)[1..] == rest;
  }

  /** What a client's frame is for the locator. */
  ghost predicate Located(s: Bytes, tags: seq<Tag>, to: Mac, from: Mac, h: Bytes, u: Bytes, p: Bytes) {
    var o := 14 + 4 * |tags|;
    var d := Dhcp(o, o + 20, o + 28, 8 + |p|);
    && Placed(s, tags, to, from, h, u) && |u| == 8 + |p| && DhcpOf(s) == Some(d) && s[o + 28..] == p
    && Fits(s, d) && ChecksumOk(s, d) && Read16(s, d.udp + 6) != 0
  }

  lemma FrameLocated(dir: Direction, client: bool, tags: seq<Tag>, peer: Mac, id: word, src: dword, dst: dword, m: Message, mac: Mac)
    requires Taggable(tags) && MessageOk(m) && |MessageBytes(m, mac)| <= 1400
    ensures var p := MessageBytes(m, mac);
            var u := DhcpUdp(client, src, dst, p);
      Located(Retagged(DhcpFrame(dir, client, peer, mac, id, src, dst, m), tags), tags, if dir.Outbound? then peer else mac,
              if dir.Outbound? then mac else peer, I.Header(id, 20 + |u|, I.UDP, src, dst), u, p)
  {
    hide MessageBytes, DhcpUdp, I.Header, DhcpOf, L3Of, ChecksumOk, Fits;
    var p, o := MessageBytes(m, mac), 14 + 4 * |tags|;
    var u := DhcpUdp(client, src, dst, p);
    var s := Retagged(DhcpFrame(dir, client, peer, mac, id, src, dst, m), tags);
    FramePlaced(tags, if dir.Outbound? then peer else mac, if dir.Outbound? then mac else peer, id, I.Packet(src, dst, I.UDP, u));
    DhcpFound(s, o, id, src, dst, client, m, mac);
    DhcpSummed(s, o, id, src, dst, client, p);
  }

  /** Translated, the client's frame is the one that a client with the other address would have sent or got. */
  lemma DhcpTranslated(dir: Direction, client: bool, tags: seq<Tag>, peer: Mac, id: word, src: dword, dst: dword,
                       m: Message, from: Mac, to: Mac)
    requires Taggable(tags) && MessageOk(m) && |MessageBytes(m, from)| <= 1400
    ensures |MessageBytes(m, to)| <= 1400
    ensures Translated(Retagged(DhcpFrame(dir, client, peer, from, id, src, dst, m), tags), dir, from, to)
         == Retagged(DhcpFrame(dir, client, peer, to, id, src, dst, m), tags)
  {
    hide MessageBytes, DhcpUdp, I.Header, Translated, Retagged, DhcpFrame, Located;
    SameLength(m, from, to);
    FrameLocated(dir, client, tags, peer, id, src, dst, m, from);
    FrameLocated(dir, client, tags, peer, id, src, dst, m, to);
    LocatedTranslated(Retagged(DhcpFrame(dir, client, peer, from, id, src, dst, m), tags),
                      Retagged(DhcpFrame(dir, client, peer, to, id, src, dst, m), tags),
                      dir, client, tags, peer, I.Header(id, 28 + |MessageBytes(m, from)|, I.UDP, src, dst), src, dst, m, from, to);
  }

  lemma LocatedTranslated(s: Bytes, v: Bytes, dir: Direction, client: bool, tags: seq<Tag>, peer: Mac, h: Bytes,
                          src: dword, dst: dword, m: Message, from: Mac, to: Mac)
    requires Taggable(tags) && MessageOk(m) && |MessageBytes(m, from)| <= 1400 && |MessageBytes(m, to)| <= 1400
    requires var p := MessageBytes(m, from);
      Located(s, tags, if dir.Outbound? then peer else from, if dir.Outbound? then from else peer, h, DhcpUdp(client, src, dst, p), p)
    requires var q := MessageBytes(m, to);
      Located(v, tags, if dir.Outbound? then peer else to, if dir.Outbound? then to else peer, h, DhcpUdp(client, src, dst, q), q)
    ensures Translated(s, dir, from, to) == v
  {
    hide MessageBytes, DhcpUdp, Renamed, LayoutOf, Translated, DhcpOf, ListRenamed, OptionMacs, ChecksumOk;
    var p, q, o := MessageBytes(m, from), MessageBytes(m, to), 14 + 4 * |tags|;
    SameLength(m, from, to);
    UdpHeaderSame(client, src, dst, p, q);
    HeadersSame(s, v, o, h, DhcpUdp(client, src, dst, p), DhcpUdp(client, src, dst, q));
    MessagesRenamed(s, v, o + 28, m, from, to);
    DhcpRenamed(s, v, dir, Dhcp(o, o + 20, o + 28, 8 + |p|), from, to);
    TranslatedIs(s, v, dir, from, to);
  }

  // ------------------------------------------------- the console's own messages

  function BootpHead(xid: dword, flags: word, ciaddr: dword): (r: Bytes)
    ensures |r| == 28 && r[1] == 1 && r[2] == 6
  {
    [1, 1, 6, 0] + Be32(xid) + [0, 0] + Be16(flags) + Be32(ciaddr) + Zeros(12)
  }

  lemma BootpIs(xid: dword, flags: word, ciaddr: dword, mac: Mac)
    ensures W.Bootp(xid, flags, ciaddr, mac) == BootpHead(xid, flags, ciaddr) + mac + Zeros(202) + W.COOKIE
  {
  }

  function DiscoverMessage(xid: dword): Message {
    Message(BootpHead(xid, 0x8000, 0), Zeros(202), [Other(53, [1]), Client, Other(55, [1, 3, 6, 15, 51, 54, 58])], [255])
  }

  function RequestMessage(xid: dword, ip: dword, server: dword): Message {
    Message(BootpHead(xid, 0x8000, 0), Zeros(202),
            [Other(53, [3]), Other(50, Be32(ip)), Other(54, Be32(server)), Client, Other(55, [1, 3, 6, 51, 54, 58])], [255])
  }

  function RenewMessage(xid: dword, ip: dword): Message {
    Message(BootpHead(xid, 0, ip), Zeros(202), [Other(53, [3]), Client, Other(55, [1, 3, 6, 51, 54])], [255])
  }

  lemma OptsMore(o: Opt, opts: seq<Opt>, mac: Mac)
    requires OptOk(o) && AllOk(opts)
    ensures AllOk([o] + opts) && OptsBytes([o] + opts, mac) == OptBytes(o, mac) + OptsBytes(opts, mac)
  {
    assert ([o] + opts)[1..] == opts;
  }

  lemma DiscoverIs(xid: dword, mac: Mac)
    ensures MessageOk(DiscoverMessage(xid)) && MessageBytes(DiscoverMessage(xid), mac) == W.Discover(xid, mac)
  {
    hide OptsBytes, BootpHead, W.Bootp;
    var list: Bytes := [1, 3, 6, 15, 51, 54, 58];
    BootpIs(xid, 0x8000, 0, mac);
    NoOpts(mac);
    OptsMore(Other(55, list), [], mac);
    OptsMore(Client, [Other(55, list)], mac);
    OptsMore(Other(53, [1]), [Client, Other(55, list)], mac);
    assert [Other(55, list)] + [] == [Other(55, list)];
    assert [Client] + [Other(55, list)] == [Client, Other(55, list)];
    assert [Other(53, [1])] + [Client, Other(55, list)] == DiscoverMessage(xid).opts;
    var o := OptsBytes(DiscoverMessage(xid).opts, mac);
    assert o + [255] == [53, 1, 1, 61, 7, 1] + mac + [55, 7, 1, 3, 6, 15, 51, 54, 58, 255];
  }

  lemma NoOpts(mac: Mac)
    ensures AllOk([]) && OptsBytes([], mac) == []
  {
  }

  lemma RenewIs(xid: dword, ip: dword, mac: Mac)
    ensures MessageOk(RenewMessage(xid, ip)) && MessageBytes(RenewMessage(xid, ip), mac) == W.Renew(xid, mac, ip)
  {
    hide OptsBytes, BootpHead, W.Bootp;
    var list: Bytes := [1, 3, 6, 51, 54];
    BootpIs(xid, 0, ip, mac);
    NoOpts(mac);
    OptsMore(Other(55, list), [], mac);
    OptsMore(Client, [Other(55, list)], mac);
    OptsMore(Other(53, [3]), [Client, Other(55, list)], mac);
    assert [Other(55, list)] + [] == [Other(55, list)];
    assert [Client] + [Other(55, list)] == [Client, Other(55, list)];
    assert [Other(53, [3])] + [Client, Other(55, list)] == RenewMessage(xid, ip).opts;
    var o := OptsBytes(RenewMessage(xid, ip).opts, mac);
    assert o + [255] == [53, 1, 3, 61, 7, 1] + mac + [55, 5, 1, 3, 6, 51, 54, 255];
  }

  lemma RequestOpts(ip: dword, server: dword, mac: Mac)
    ensures AllOk(RequestMessage(0, ip, server).opts)
    ensures OptsBytes(RequestMessage(0, ip, server).opts, mac)
        == [53, 1, 3] + ([50, 4] + Be32(ip) + ([54, 4] + Be32(server) + (([61, 7, 1] + mac) + [55, 6, 1, 3, 6, 51, 54, 58])))
  {
    hide OptsBytes, Be32, BootpHead;
    var list: Bytes := [1, 3, 6, 51, 54, 58];
    var last := [Client, Other(55, list)];
    NoOpts(mac);
    OptsMore(Other(55, list), [], mac);
    OptsMore(Client, [Other(55, list)], mac);
    assert [Other(55, list)] + [] == [Other(55, list)] && [Client] + [Other(55, list)] == last;
    OptsMore(Other(54, Be32(server)), last, mac);
    OptsMore(Other(50, Be32(ip)), [Other(54, Be32(server))] + last, mac);
    OptsMore(Other(53, [3]), [Other(50, Be32(ip))] + ([Other(54, Be32(server))] + last), mac);
    assert [Other(53, [3])] + ([Other(50, Be32(ip))] + ([Other(54, Be32(server))] + last)) == RequestMessage(0, ip, server).opts;
  }

  lemma RequestIs(xid: dword, ip: dword, server: dword, mac: Mac)
    ensures MessageOk(RequestMessage(xid, ip, server))
    ensures MessageBytes(RequestMessage(xid, ip, server), mac) == W.Request(xid, mac, ip, server)
  {
    hide OptsBytes, BootpHead, W.Bootp, Be32;
    BootpIs(xid, 0x8000, 0, mac);
    RequestOpts(ip, server, mac);
    assert RequestMessage(xid, ip, server).opts == RequestMessage(0, ip, server).opts;
    RequestTail(Be32(ip), Be32(server), mac);
  }

  lemma RequestTail(a: Bytes, b: Bytes, mac: Mac)
    requires |a| == |b| == 4
    ensures [53, 1, 3] + ([50, 4] + a + ([54, 4] + b + (([61, 7, 1] + mac) + [55, 6, 1, 3, 6, 51, 54, 58]))) + [255]
         == [53, 1, 3, 50, 4] + a + [54, 4] + b + [61, 7, 1] + mac + [55, 6, 1, 3, 6, 51, 54, 58, 255]
  {
  }

  /** The frame in which the console broadcasts a DHCP message. */
  function Broadcast(mac: Mac, id: word, src: dword, dst: dword, p: Bytes): Bytes
    requires |p| <= 1400
  {
    I.Frame(W.BROADCAST, mac, id, I.Packet(src, dst, I.UDP, I.UdpBytes(src, dst, 68, 67, p)))
  }

  /** The console's Discover leaves as the Discover of the tether's address: chaddr, client identifier, checksum. */
  lemma DiscoverTranslated(tags: seq<Tag>, id: word, src: dword, dst: dword, xid: dword, from: Mac, to: Mac)
    requires Taggable(tags)
    ensures Translated(Retagged(Broadcast(from, id, src, dst, W.Discover(xid, from)), tags), Outbound, from, to)
         == Retagged(Broadcast(to, id, src, dst, W.Discover(xid, to)), tags)
  {
    hide W.Discover, DiscoverMessage, MessageOk, MessageBytes, I.UdpBytes, I.Frame, Translated, Retagged;
    DiscoverIs(xid, from);
    DiscoverIs(xid, to);
    DhcpTranslated(Outbound, true, tags, W.BROADCAST, id, src, dst, DiscoverMessage(xid), from, to);
  }

  /** The same for its Request ... */
  lemma RequestTranslated(tags: seq<Tag>, id: word, src: dword, dst: dword, xid: dword, ip: dword, server: dword, from: Mac, to: Mac)
    requires Taggable(tags)
    ensures Translated(Retagged(Broadcast(from, id, src, dst, W.Request(xid, from, ip, server)), tags), Outbound, from, to)
         == Retagged(Broadcast(to, id, src, dst, W.Request(xid, to, ip, server)), tags)
  {
    hide W.Request, RequestMessage, MessageOk, MessageBytes, I.UdpBytes, I.Frame, Translated, Retagged;
    RequestIs(xid, ip, server, from);
    RequestIs(xid, ip, server, to);
    DhcpTranslated(Outbound, true, tags, W.BROADCAST, id, src, dst, RequestMessage(xid, ip, server), from, to);
  }

  /** ... and for the Request that renews a lease. */
  lemma RenewTranslated(tags: seq<Tag>, id: word, src: dword, dst: dword, xid: dword, ip: dword, from: Mac, to: Mac)
    requires Taggable(tags)
    ensures Translated(Retagged(Broadcast(from, id, src, dst, W.Renew(xid, from, ip)), tags), Outbound, from, to)
         == Retagged(Broadcast(to, id, src, dst, W.Renew(xid, to, ip)), tags)
  {
    hide W.Renew, RenewMessage, MessageOk, MessageBytes, I.UdpBytes, I.Frame, Translated, Retagged;
    RenewIs(xid, ip, from);
    RenewIs(xid, ip, to);
    DhcpTranslated(Outbound, true, tags, W.BROADCAST, id, src, dst, RenewMessage(xid, ip), from, to);
  }

  // ----------------------------------------------------------------- other frames

  /** A frame in which a translation finds nothing but its Ethernet address. */
  lemma OnlyAddress(s: Bytes, v: Bytes, dir: Direction, from: Mac, to: Mac)
    requires |s| == |v| >= 14 && DhcpOf(s) == None && ArpMacs(s, dir) == []
    requires var e := if dir.Outbound? then 6 else 0;
      s[e..e + 6] == from && v[e..e + 6] == to && s[6 - e..12 - e] == v[6 - e..12 - e] && s[12..] == v[12..]
    ensures Translated(s, dir, from, to) == v
  {
    hide DhcpOf, ArpMacs, Translated, LayoutOf, LayoutOk;
    var e := if dir.Outbound? then 6 else 0;
    AddressLayout(s, dir);
    Pieces(s, v, 6 - e, 12 - e);
    assert s[12..] == s[12..|s|] && v[12..] == v[12..|v|];
    Pieces(s, v, 12, |s|);
    assert [e] + [] == [e];
    HeldBefore(s, v, [], e, from, to);
    forall k | 0 <= k < |s| && !Covers([e], k) ensures s[k] == v[k] {
      CoveredBefore([], e, k);
    }
    TranslatedIs(s, v, dir, from, to);
  }

  lemma AddressLayout(s: Bytes, dir: Direction)
    requires |s| >= 14 && DhcpOf(s) == None && ArpMacs(s, dir) == []
    ensures LayoutOk(s, LayoutOf(s, dir)) && LayoutOf(s, dir) == Layout([if dir.Outbound? then 6 else 0], None)
  {
    hide DhcpOf, ArpMacs;
  }

  predicate IsDhcp(p: I.Packet) {
    p.proto == I.UDP && |p.body| >= 8 && DhcpPorts(Read16(p.body, 0), Read16(p.body, 2))
  }

  /** In an IPv4 frame that is not between the DHCP ports only the Ethernet address changes. */
  lemma Ipv4Translated(dir: Direction, tags: seq<Tag>, peer: Mac, id: word, p: I.Packet, from: Mac, to: Mac)
    requires Taggable(tags) && |p.body| <= I.MAX_PAYLOAD && !IsDhcp(p)
    ensures if dir.Outbound?
      then Translated(Retagged(I.Frame(peer, from, id, p), tags), dir, from, to) == Retagged(I.Frame(peer, to, id, p), tags)
      else Translated(Retagged(I.Frame(from, peer, id, p), tags), dir, from, to) == Retagged(I.Frame(to, peer, id, p), tags)
  {
    hide I.Header, Translated, L3Of, Retagged, I.Frame, Placed;
    var h := I.Header(id, 20 + |p.body|, p.proto, p.src, p.dst);
    I.HeaderFields(id, 20 + |p.body|, p.proto, p.src, p.dst);
    if dir.Outbound? {
      FramePlaced(tags, peer, from, id, p);
      FramePlaced(tags, peer, to, id, p);
      OnlyAddressPlaced(Retagged(I.Frame(peer, from, id, p), tags), Retagged(I.Frame(peer, to, id, p), tags),
                        dir, tags, peer, h, p, from, to);
    } else {
      FramePlaced(tags, from, peer, id, p);
      FramePlaced(tags, to, peer, id, p);
      OnlyAddressPlaced(Retagged(I.Frame(from, peer, id, p), tags), Retagged(I.Frame(to, peer, id, p), tags),
                        dir, tags, peer, h, p, from, to);
    }
  }

  lemma OnlyAddressPlaced(s: Bytes, v: Bytes, dir: Direction, tags: seq<Tag>, peer: Mac, h: Bytes, p: I.Packet, from: Mac, to: Mac)
    requires Placed(s, tags, if dir.Outbound? then peer else from, if dir.Outbound? then from else peer, h, p.body)
    requires Placed(v, tags, if dir.Outbound? then peer else to, if dir.Outbound? then to else peer, h, p.body)
    requires L3Of(s) == Some(L3(14 + 4 * |tags|, IPV4)) && h[0] == 0x45 && h[9] == p.proto && !IsDhcp(p)
    ensures Translated(s, dir, from, to) == v
  {
    hide Translated, L3Of, DhcpOf, LocateDhcp;
    var o := 14 + 4 * |tags|;
    NotLocated(s, o, h, p);
    SameBehind(s, o, h, p.body, AllTags(tags) + Be16(0x0800));
    SameBehind(v, o, h, p.body, AllTags(tags) + Be16(0x0800));
    NoDhcp(s, o);
    OnlyAddress(s, v, dir, from, to);
  }

  lemma NoDhcp(s: Bytes, o: nat)
    requires L3Of(s) == Some(L3(o, IPV4)) && LocateDhcp(s, o) == None
    ensures DhcpOf(s) == None
  {
  }

  lemma SameBehind(s: Bytes, o: nat, h: Bytes, u: Bytes, t: Bytes)
    requires o >= 12 && Carries(s, o, h, u) && s[12..o] == t
    ensures s[12..] == t + h + u
  {
    assert s[12..] == s[12..o] + s[o..o + 20] + s[o + 20..];
  }

  lemma NotLocated(s: Bytes, o: nat, h: Bytes, p: I.Packet)
    requires Carries(s, o, h, p.body) && h[0] == 0x45 && h[9] == p.proto && !IsDhcp(p)
    ensures LocateDhcp(s, o) == None
  {
    assert s[o..o + 20][0] == s[o] && s[o..o + 20][9] == s[o + 9];
    if |p.body| >= 8 {
      assert s[o + 20] == p.body[0] && s[o + 21] == p.body[1] && s[o + 22] == p.body[2] && s[o + 23] == p.body[3];
    }
  }

  /** Frames that are neither IPv4 nor ARP. */
  lemma OtherTranslated(f: Bytes, g: Bytes, dir: Direction, tags: seq<Tag>, from: Mac, to: Mac)
    requires Taggable(tags) && |f| == |g| >= 14 && Read16(f, 12) !in {0x0806, 0x0800, 0x8100, 0x88A8} && f[12..] == g[12..]
    requires var e := if dir.Outbound? then 6 else 0;
      f[e..e + 6] == from && g[e..e + 6] == to && f[6 - e..12 - e] == g[6 - e..12 - e]
    ensures Translated(Retagged(f, tags), dir, from, to) == Retagged(g, tags)
  {
    hide L3Of, Translated, Retagged;
    var e := if dir.Outbound? then 6 else 0;
    TagsSkipped(f, tags);
    FrontSlice(f, tags, e, e + 6);
    FrontSlice(g, tags, e, e + 6);
    FrontSlice(f, tags, 6 - e, 12 - e);
    FrontSlice(g, tags, 6 - e, 12 - e);
    BehindAddresses(f, tags);
    BehindAddresses(g, tags);
    OnlyAddress(Retagged(f, tags), Retagged(g, tags), dir, from, to);
  }

  lemma BehindAddresses(f: Bytes, tags: seq<Tag>)
    requires |tags| <= 2 && |f| >= 14
    ensures Retagged(f, tags)[12..] == AllTags(tags) + f[12..]
  {
    hide AllTags;
  }
}
