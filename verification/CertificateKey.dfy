/**
 What stands in the device certificate (src/der_x509.cpp), read back with a reader that
 knows nothing but tags and lengths: the eight parts of the signed body (section 4.1 of
 RFC 5280), among them the phone's own key, and the digest of that key in the extensions.
 */
module CertificateKey {
  import opened Bytes
  import opened Base64
  import opened PairProtocol
  import opened DerX509
  import opened PairIdentity

  // ------------------------------------------------------------------- the reader

  /** The elements with these tags that stand one behind the other from `pos` to the end of `d`. */
  function ReadFrom(d: Bytes, pos: nat, tags: seq<byte>): Option<seq<Bytes>>
    decreases |tags|
  {
    if tags == [] then if pos == |d| then Some([]) else None
    else
      match Element(d, pos, tags[0])
      case None => None
      case Some((start, n)) =>
        match ReadFrom(d, start + n, tags[1..])
        case None => None
        case Some(rest) => Some([d[pos..start + n]] + rest)
  }

  /** The elements inside an element that is all of `d`. */
  function Inside(d: Bytes, tag: byte, tags: seq<byte>): Option<seq<Bytes>> {
    match Element(d, 0, tag)
    case None => None
    case Some((start, n)) => if start + n == |d| then ReadFrom(d, start, tags) else None
  }

  /** `e` is one element and nothing else. */
  predicate Whole(e: Bytes, tag: byte) {
    Element(e, 0, tag).Some? && Element(e, 0, tag).value.0 + Element(e, 0, tag).value.1 == |e|
  }

  function Joined(parts: seq<Bytes>): Bytes {
    if parts == [] then [] else parts[0] + Joined(parts[1..])
  }

  /** What is read of an element does not depend on what stands around it. */
  lemma ElementShifts(pre: Bytes, e: Bytes, post: Bytes, tag: byte)
    requires Element(e, 0, tag).Some?
    ensures var (start, n) := Element(e, 0, tag).value;
      Element(pre + e + post, |pre|, tag) == Some((|pre| + start, n))
  {
    var d := pre + e + post;
    assert forall i :: 0 <= i < |e| ==> d[|pre| + i] == e[i];
    assert d[|pre|] == e[0] && d[|pre| + 1] == e[1];
    if e[1] == 0x81 {
      assert d[|pre| + 2] == e[2];
    } else if e[1] == 0x82 {
      assert d[|pre| + 2] == e[2] && d[|pre| + 3] == e[3];
    }
  }

  predicate AllWhole(parts: seq<Bytes>, tags: seq<byte>) {
    |parts| == |tags| && forall i :: 0 <= i < |parts| ==> Whole(parts[i], tags[i])
  }

  function Prepend(parts: seq<Bytes>, r: Option<seq<Bytes>>): Option<seq<Bytes>> {
    match r
    case None => None
    case Some(rest) => Some(parts + rest)
  }

  /** Whole elements are read one by one; then comes what follows them. */
  lemma {:induction false} PartsRead(pre: Bytes, parts: seq<Bytes>, tags: seq<byte>, post: Bytes, more: seq<byte>)
    requires AllWhole(parts, tags)
    ensures var d := pre + Joined(parts) + post;
      ReadFrom(d, |pre|, tags + more) == Prepend(parts, ReadFrom(d, |pre| + |Joined(parts)|, more))
    decreases |parts|
  {
    hide Element, ReadFrom;
    var d := pre + Joined(parts) + post;
    if parts == [] {
      assert tags + more == more;
      NothingRead(ReadFrom(d, |pre|, more));
    } else {
      var rest := Joined(parts[1..]);
      assert (tags + more)[1..] == tags[1..] + more && (tags + more)[0] == tags[0];
      ElementShifts(pre, parts[0], rest + post, tags[0]);
      assert d == pre + parts[0] + (rest + post) == (pre + parts[0]) + rest + post;
      PartsRead(pre + parts[0], parts[1..], tags[1..], post, more);
      assert d[|pre|..|pre| + |parts[0]|] == parts[0];
      FirstRead(d, |pre|, tags + more, parts[0]);
      OneMore(parts, ReadFrom(d, |pre| + |Joined(parts)|, more));
    }
  }

  lemma FirstRead(d: Bytes, pos: nat, tags: seq<byte>, e: Bytes)
    requires tags != [] && pos + |e| <= |d| && d[pos..pos + |e|] == e
    requires Element(d, pos, tags[0]).Some? && Element(d, pos, tags[0]).value.0 + Element(d, pos, tags[0]).value.1 == pos + |e|
    ensures ReadFrom(d, pos, tags) == Prepend([e], ReadFrom(d, pos + |e|, tags[1..]))
  {
    hide Element;
  }

  lemma NothingRead(r: Option<seq<Bytes>>)
    ensures Prepend([], r) == r
  {
    if r.Some? {
      assert [] + r.value == r.value;
    }
  }

  lemma OneMore(parts: seq<Bytes>, r: Option<seq<Bytes>>)
    requires parts != []
    ensures Prepend(parts, r) == Prepend([parts[0]], Prepend(parts[1..], r))
  {
    if r.Some? {
      assert [parts[0]] + (parts[1..] + r.value) == parts + r.value;
    }
  }

  lemma TlvWhole(tag: byte, content: Bytes)
    requires |content| < 0x1_0000
    ensures Whole(Tlv(tag, content), tag)
    ensures Element(Tlv(tag, content), 0, tag).value.1 == |content|
    ensures Tlv(tag, content)[Element(Tlv(tag, content), 0, tag).value.0..] == content
  {
    hide LenBytes, Element, Tlv;
    var e := Tlv(tag, content);
    TlvReads([], tag, content, []);
    TlvSize(tag, content);
    assert [] + e + [] == e;
    assert e[1 + |LenBytes(|content|)|..] == e[1 + |LenBytes(|content|)|..1 + |LenBytes(|content|)| + |content|];
  }

  /** An element built around whole elements is taken apart into them. */
  lemma InsideTlv(tag: byte, parts: seq<Bytes>, tags: seq<byte>)
    requires AllWhole(parts, tags) && |Joined(parts)| < 0x1_0000
    ensures Inside(Tlv(tag, Joined(parts)), tag, tags) == Some(parts)
  {
    hide LenBytes, Element, Tlv;
    var content := Joined(parts);
    var e := Tlv(tag, content);
    TlvWhole(tag, content);
    var start := Element(e, 0, tag).value.0;
    assert e == e[..start] + content + [] && |e[..start]| == start;
    PartsRead(e[..start], parts, tags, [], []);
    assert tags + [] == tags && parts + [] == parts;
  }

  // ------------------------------------------------------------------ the signed body

  const TBS_TAGS: seq<byte> := [0xA0, 0x02, 0x30, 0x30, 0x30, 0x30, 0x30, 0xA3]

  /** Version 3, serial 1, SHA-256 with RSA, no issuer, the validity, no subject, the key, the extensions. */
  function Parts(key: Bytes, ski: Digest): seq<Bytes> {
    Front() + ([key] + [Extensions(ski)])
  }

  function Front(): seq<Bytes> {
    [[0xA0, 3, 2, 1, 2], [2, 1, 1], SHA256_RSA, [0x30, 0], Validity(), [0x30, 0]]
  }

  lemma FrontWhole()
    ensures AllWhole(Front(), TBS_TAGS[..6])
  {
    TlvWhole(0x30, Tlv(0x17, NOT_BEFORE) + Tlv(0x17, NOT_AFTER));
  }

  lemma FrontJoined()
    ensures Joined(Front()) == Tlv(0xA0, [2, 1, 2]) + [2, 1, 1] + SHA256_RSA + [0x30, 0] + Validity() + [0x30, 0]
    ensures |Joined(Front())| == 59
  {
    hide Validity, SHA256_RSA, Joined;
    AlgorithmSize();
    ValiditySize();
    var name: Bytes := [0x30, 0];
    var v: seq<Bytes> := [name];
    JoinedMore(name, []);
    JoinedMore(Validity(), v);
    JoinedMore(name, [Validity()] + v);
    JoinedMore(SHA256_RSA, [name] + ([Validity()] + v));
    JoinedMore([2, 1, 1], [SHA256_RSA] + ([name] + ([Validity()] + v)));
    JoinedMore([0xA0, 3, 2, 1, 2], [[2, 1, 1]] + ([SHA256_RSA] + ([name] + ([Validity()] + v))));
    NothingJoined();
    assert [name] + [] == v;
    assert Front() == [[0xA0, 3, 2, 1, 2]] + ([[2, 1, 1]] + ([SHA256_RSA] + ([name] + ([Validity()] + v))));
    assert Tlv(0xA0, [2, 1, 2]) == [0xA0, 3, 2, 1, 2];
  }

  lemma JoinedMore(a: Bytes, rest: seq<Bytes>)
    ensures Joined([a] + rest) == a + Joined(rest)
  {
    assert ([a] + rest)[1..] == rest;
  }

  lemma NothingJoined()
    ensures Joined([]) == []
  {
  }

  lemma ValiditySize()
    ensures |Validity()| == 32
  {
  }

  lemma ExtensionsWhole(ski: Digest)
    ensures Whole(Extensions(ski), 0xA3)
  {
    hide Tlv, BasicConstraints, KeyIdentifier, KeyUsage;
    ExtensionSizes(ski);
    var inner := BasicConstraints() + KeyIdentifier(ski) + KeyUsage();
    TlvGrows(0x30, inner);
    TlvWhole(0xA3, Tlv(0x30, inner));
  }

  lemma TbsIs(spki: Bytes, ski: Digest)
    ensures Tbs(spki, ski) == Tlv(0x30, Joined(Front()) + (spki + Extensions(ski)))
  {
    hide Tlv, Validity, Extensions, SHA256_RSA, Joined;
    FrontJoined();
    var a := Tlv(0xA0, [2, 1, 2]) + [2, 1, 1] + SHA256_RSA + [0x30, 0] + Validity() + [0x30, 0];
    assert a + spki + Extensions(ski) == a + (spki + Extensions(ski));
  }

  /** Behind the front, the key and the extensions. */
  lemma BackRead(pre: Bytes, spki: Bytes, ski: Digest)
    requires Element(spki, 0, 0x30).Some?
    ensures ReadFrom(pre + (spki + Extensions(ski)), |pre|, [0x30, 0xA3]) == Some([spki] + [Extensions(ski)]) <==> Whole(spki, 0x30)
  {
    hide Element, Extensions, ReadFrom;
    if Whole(spki, 0x30) {
      ExtensionsWhole(ski);
      TwoRead(pre, spki, Extensions(ski));
    } else {
      var (start, n) := Element(spki, 0, 0x30).value;
      ElementShifts(pre, spki, Extensions(ski), 0x30);
      assert pre + (spki + Extensions(ski)) == pre + spki + Extensions(ski);
      ShorterRead(pre + (spki + Extensions(ski)), |pre|, |pre| + start, n, spki);
    }
  }

  lemma TwoRead(pre: Bytes, a: Bytes, b: Bytes)
    requires Whole(a, 0x30) && Whole(b, 0xA3)
    ensures ReadFrom(pre + (a + b), |pre|, [0x30, 0xA3]) == Some([a] + [b])
  {
    hide Element, Joined, ReadFrom, Whole;
    var d, parts, tags: seq<byte> := pre + (a + b), [a] + [b], [0x30, 0xA3];
    JoinedMore(b, []);
    NothingJoined();
    JoinedMore(a, [b]);
    assert [b] + [] == [b] && b + [] == b;
    PartsRead(pre, parts, tags, [], []);
    EndRead(d);
    assert pre + Joined(parts) + [] == d && tags + [] == tags && parts + [] == parts;
  }

  lemma EndRead(d: Bytes)
    ensures ReadFrom(d, |d|, []) == Some([])
  {
  }

  lemma ShorterRead(d: Bytes, pos: nat, start: nat, n: nat, e: Bytes)
    requires Element(d, pos, 0x30) == Some((start, n)) && start + n - pos != |e|
    ensures var r := ReadFrom(d, pos, [0x30, 0xA3]); r.Some? ==> r.value != [] && r.value[0] != e
  {
    hide Element;
  }

  /** Read back, the signed body has exactly its eight parts if and only if the key is one whole element. */
  lemma TbsPartsIff(spki: Bytes, ski: Digest)
    requires |spki| <= SPKI_MAX && Element(spki, 0, 0x30).Some?
    ensures Inside(Tbs(spki, ski), 0x30, TBS_TAGS) == Some(Parts(spki, ski)) <==> Whole(spki, 0x30)
  {
    hide Tlv, Tbs, Extensions, Element, Joined, Front, ReadFrom;
    var front, back := Joined(Front()), spki + Extensions(ski);
    var e := Tlv(0x30, front + back);
    TbsIs(spki, ski);
    ExtensionSizes(ski);
    FrontJoined();
    FrontWhole();
    TlvWhole(0x30, front + back);
    var start := Element(e, 0, 0x30).value.0;
    assert e == e[..start] + front + back && e == (e[..start] + front) + back && |e[..start]| == start;
    PartsRead(e[..start], Front(), TBS_TAGS[..6], back, [0x30, 0xA3]);
    assert TBS_TAGS[..6] + [0x30, 0xA3] == TBS_TAGS;
    BackRead(e[..start] + front, spki, ski);
    SamePrefix(Front(), ReadFrom(e, start + |front|, [0x30, 0xA3]), [spki] + [Extensions(ski)]);
  }

  lemma SamePrefix(a: seq<Bytes>, r: Option<seq<Bytes>>, b: seq<Bytes>)
    ensures Prepend(a, r) == Some(a + b) <==> r == Some(b)
  {
    if r.Some? && a + r.value == a + b {
      assert (a + r.value)[|a|..] == r.value && (a + b)[|a|..] == b;
    }
  }

  // ------------------------------------------------------------------ the extensions

  /** The digest in the extension 2.5.29.14 of an extensions element. */
  function SubjectKeyId(ext: Bytes): Option<Bytes> {
    match Inside(ext, 0xA3, [0x30])
    case None => None
    case Some(outer) =>
      match Inside(outer[0], 0x30, [0x30, 0x30, 0x30])
      case None => None
      case Some(list) =>
        match Inside(list[1], 0x30, [0x06, 0x04])
        case None => None
        case Some(entry) =>
          if entry[0] != [0x06, 3, 0x55, 0x1D, 0x0E] then None
          else
            match Inside(entry[1], 0x04, [0x04])
            case None => None
            case Some(value) =>
              var e := Element(value[0], 0, 0x04);
              if e.None? then None else Some(value[0][e.value.0..])
  }

  lemma ThreeWhole(ski: Digest)
    ensures AllWhole([BasicConstraints(), KeyIdentifier(ski), KeyUsage()], [0x30, 0x30, 0x30])
    ensures Joined([BasicConstraints(), KeyIdentifier(ski), KeyUsage()]) == BasicConstraints() + KeyIdentifier(ski) + KeyUsage()
  {
    hide Tlv, Element;
    BasicWhole();
    IdentifierWhole(ski);
    UsageWhole();
    ThreeJoined(BasicConstraints(), KeyIdentifier(ski), KeyUsage());
  }

  lemma ThreeJoined(a: Bytes, b: Bytes, c: Bytes)
    ensures Joined([a, b, c]) == a + b + c
  {
    NothingJoined();
    JoinedMore(c, []);
    JoinedMore(b, [c]);
    JoinedMore(a, [b, c]);
    assert [c] + [] == [c] && [b] + [c] == [b, c] && [a] + [b, c] == [a, b, c] && c + [] == c;
    assert a + (b + c) == a + b + c;
  }

  lemma BasicWhole()
    ensures Whole(BasicConstraints(), 0x30)
  {
    ExtensionSizes(Zeros(20));
    TlvWhole(0x30, Tlv(0x06, [0x55, 0x1D, 0x13]) + Tlv(0x01, [0xFF]) + Tlv(0x04, [0x30, 0x00]));
  }

  lemma UsageWhole()
    ensures Whole(KeyUsage(), 0x30)
  {
    ExtensionSizes(Zeros(20));
    TlvWhole(0x30, Tlv(0x06, [0x55, 0x1D, 0x0F]) + Tlv(0x01, [0xFF]) + Tlv(0x04, [0x03, 0x02, 0x05, 0xA0]));
  }

  lemma IdentifierWhole(ski: Digest)
    ensures Whole(KeyIdentifier(ski), 0x30)
  {
    hide Tlv, Element;
    TlvGrows(0x04, ski);
    TlvGrows(0x04, Tlv(0x04, ski));
    TlvGrows(0x06, [0x55, 0x1D, 0x0E]);
    TlvWhole(0x30, Tlv(0x06, [0x55, 0x1D, 0x0E]) + Tlv(0x04, Tlv(0x04, ski)));
  }

  /** The digest put into the extensions is read from them. */
  lemma KeyIdRead(ski: Digest)
    ensures SubjectKeyId(Extensions(ski)) == Some(ski)
  {
    hide Tlv, Element, BasicConstraints, KeyIdentifier, KeyUsage, Inside;
    var list := [BasicConstraints(), KeyIdentifier(ski), KeyUsage()];
    var outer := Tlv(0x30, BasicConstraints() + KeyIdentifier(ski) + KeyUsage());
    ThreeWhole(ski);
    ExtensionSizes(ski);
    TlvGrows(0x30, BasicConstraints() + KeyIdentifier(ski) + KeyUsage());
    TlvWhole(0x30, BasicConstraints() + KeyIdentifier(ski) + KeyUsage());
    OneInside(0xA3, outer, 0x30);
    InsideTlv(0x30, list, [0x30, 0x30, 0x30]);
    IdentifierRead(ski);
  }

  lemma OneInside(tag: byte, e: Bytes, inner: byte)
    requires Whole(e, inner) && |e| < 0x1_0000
    ensures Inside(Tlv(tag, e), tag, [inner]) == Some([e])
  {
    hide Tlv, Element, Inside;
    NothingJoined();
    JoinedMore(e, []);
    assert [e] + [] == [e] && e + [] == e;
    InsideTlv(tag, [e], [inner]);
  }

  lemma IdentifierRead(ski: Digest)
    ensures Inside(KeyIdentifier(ski), 0x30, [0x06, 0x04]) == Some([[0x06, 3, 0x55, 0x1D, 0x0E], Tlv(0x04, Tlv(0x04, ski))])
    ensures Inside(Tlv(0x04, Tlv(0x04, ski)), 0x04, [0x04]) == Some([Tlv(0x04, ski)])
    ensures Element(Tlv(0x04, ski), 0, 0x04).Some? && Tlv(0x04, ski)[Element(Tlv(0x04, ski), 0, 0x04).value.0..] == ski
  {
    hide Element, Inside, Tlv;
    var oid, octets := Tlv(0x06, [0x55, 0x1D, 0x0E]), Tlv(0x04, Tlv(0x04, ski));
    TlvGrows(0x04, ski);
    TlvGrows(0x04, Tlv(0x04, ski));
    TlvGrows(0x06, [0x55, 0x1D, 0x0E]);
    TlvWhole(0x04, ski);
    TlvWhole(0x04, Tlv(0x04, ski));
    TlvWhole(0x06, [0x55, 0x1D, 0x0E]);
    OneInside(0x04, Tlv(0x04, ski), 0x04);
    OidBytes();
    NothingJoined();
    JoinedMore(octets, []);
    JoinedMore(oid, [octets]);
    assert [octets] + [] == [octets] && [oid] + [octets] == [oid, octets] && octets + [] == octets;
    InsideTlv(0x30, [oid, octets], [0x06, 0x04]);
  }

  lemma OidBytes()
    ensures Tlv(0x06, [0x55, 0x1D, 0x0E]) == [0x06, 3, 0x55, 0x1D, 0x0E]
  {
  }

  // -------------------------------------------------------------------- the certificate

  /** The RSA key that a PEM text holds. */
  function RsaOf(pem: string): Option<Bytes> {
    match KeyDer(pem)
    case None => None
    case Some((der, pkcs1)) => if pkcs1 then Some(der) else if Unwrapped(der).None? then None else Some(Unwrapped(der).value.rsa)
  }

  /** The text holds a bare RSA key, or a key info with nothing behind it. */
  predicate Exact(pem: string) {
    KeyDer(pem).Some? && (KeyDer(pem).value.1 || Whole(KeyDer(pem).value.0, 0x30))
  }

  /** The signed body of a certificate for the key `rsa`, part by part. */
  predicate Certifies(tbs: Bytes, rsa: Bytes, digest: Bytes) {
    match Inside(tbs, 0x30, TBS_TAGS)
    case None => false
    case Some(parts) =>
      && |parts| == 8 && parts[0] == [0xA0, 3, 2, 1, 2] && parts[1] == [2, 1, 1] && parts[2] == SHA256_RSA
      && parts[3] == [0x30, 0] && parts[5] == [0x30, 0]
      && Inside(parts[4], 0x30, [0x17, 0x17]) == Some([[0x17, 13] + NOT_BEFORE, [0x17, 13] + NOT_AFTER])
      && Unwrapped(parts[6]) == Some(Key(parts[6], rsa)) && SubjectKeyId(parts[7]) == Some(digest)
  }

  lemma ValidityRead()
    ensures Inside(Validity(), 0x30, [0x17, 0x17]) == Some([[0x17, 13] + NOT_BEFORE, [0x17, 13] + NOT_AFTER])
  {
    hide Inside;
    var a, b := Tlv(0x17, NOT_BEFORE), Tlv(0x17, NOT_AFTER);
    assert a == [0x17, 13] + NOT_BEFORE && b == [0x17, 13] + NOT_AFTER;
    TlvWhole(0x17, NOT_BEFORE);
    TlvWhole(0x17, NOT_AFTER);
    NothingJoined();
    JoinedMore(b, []);
    JoinedMore(a, [b]);
    assert [b] + [] == [b] && [a] + [b] == [a, b] && b + [] == b;
    InsideTlv(0x30, [a, b], [0x17, 0x17]);
  }

  lemma WrappedWhole(der: Bytes)
    requires Wrapped(der).Some?
    ensures Whole(Wrapped(der).value.spki, 0x30)
  {
    hide Tlv, Element, RSA_ALGORITHM;
    var body := RSA_ALGORITHM + Tlv(0x03, [0] + der);
    TlvGrows(0x30, body);
    TlvWhole(0x30, body);
  }

  /** The key info put into the certificate is a whole element exactly when the text holds nothing behind it. */
  lemma ExactIff(pem: string)
    requires KeyDer(pem).Some? && Normalized(KeyDer(pem).value.0, KeyDer(pem).value.1).Some?
    ensures var (der, pkcs1) := KeyDer(pem).value;
            var key := Normalized(der, pkcs1).value;
      && der != [] && Element(key.spki, 0, 0x30).Some? && (Whole(key.spki, 0x30) <==> Exact(pem)) && RsaOf(pem) == Some(key.rsa)
  {
    hide Element, Tlv, Wrapped, Decoded, Between, FindFrom;
    var (der, pkcs1) := KeyDer(pem).value;
    if pkcs1 {
      WrappedWhole(der);
      WrappedKey(der);
    }
  }

  lemma WrappedKey(der: Bytes)
    requires Wrapped(der).Some?
    ensures Wrapped(der).value.rsa == der
  {
    hide Tlv, RSA_ALGORITHM;
  }

  lemma PartsCertify(spki: Bytes, ski: Digest, rsa: Bytes)
    requires Inside(Tbs(spki, ski), 0x30, TBS_TAGS) == Some(Parts(spki, ski)) && Unwrapped(spki) == Some(Key(spki, rsa))
    ensures Certifies(Tbs(spki, ski), rsa, ski)
  {
    hide Inside, Tbs, Unwrapped, Extensions, Validity, SubjectKeyId, SHA256_RSA;
    KeyIdRead(ski);
    ValidityRead();
  }

  /**
   Every certificate that is issued certifies the phone's own key: read back, its signed
   body is version 3, serial 1, the algorithm, no names, the validity, a key info that
   holds the RSA key of the PEM text, and extensions with the digest of that key. It reads
   back as exactly these parts if and only if the text held nothing behind the key info.
   */
  lemma CertificateHoldsKey(pem: string, sha1: Bytes -> Option<Digest>, sign: Bytes -> Option<Signature>)
    requires Issued(pem, sha1, sign).Some?
    ensures RsaOf(pem).Some? && sha1(RsaOf(pem).value).Some?
    ensures var (_, tbs, _) := Issued(pem, sha1, sign).value;
            var rsa, digest := RsaOf(pem).value, sha1(RsaOf(pem).value).value;
      && (Exact(pem) ==> Certifies(tbs, rsa, digest))
      && (Exact(pem) <==>
          Inside(tbs, 0x30, TBS_TAGS) == Some(Parts(Normalized(KeyDer(pem).value.0, KeyDer(pem).value.1).value.spki, digest)))
  {
    hide KeyDer, Normalized, Tbs, Certificate, Inside, Element, Certifies, RsaOf, Exact, Parts, Whole, Unwrapped;
    var (der, pkcs1) := KeyDer(pem).value;
    var key := Normalized(der, pkcs1).value;
    ExactIff(pem);
    NormalizedFits(der, pkcs1);
    NormalizedReadable(der, pkcs1);
    NormalizedKey(der, pkcs1);
    var digest := sha1(key.rsa).value;
    TbsPartsIff(key.spki, digest);
    if Exact(pem) {
      PartsCertify(key.spki, digest, key.rsa);
    }
  }

  lemma NormalizedKey(der: Bytes, pkcs1: bool)
    requires Normalized(der, pkcs1).Some?
    ensures var key := Normalized(der, pkcs1).value; key == Key(key.spki, key.rsa)
  {
  }

  /** A key info with a byte behind it is accepted, and its certificate does not read back. */
  lemma TrailingByteAccepted(der: Bytes)
    requires 0 < |der| <= 970
    ensures Wrapped(der).Some?
    ensures var d := Wrapped(der).value.spki + [0];
            var pem := KeyPem(d);
      && KeyDer(pem) == Some((d, false)) && Unwrapped(d) == Some(Key(d, der)) && !Exact(pem)
  {
    hide Element, Tlv, RSA_ALGORITHM, Encoded, KeyDer, KeyPem, Unwrapped;
    WrappedFits(der);
    WrappedShort(der);
    WrappedWhole(der);
    WrappedKey(der);
    KeyRoundTrip(der);
    var spki := Wrapped(der).value.spki;
    KeyPemRead(spki + [0]);
    UnwrapsAlike(spki, der);
  }

  lemma WrappedShort(der: Bytes)
    requires |der| <= 970 && Wrapped(der).Some?
    ensures |Wrapped(der).value.spki| <= 1000
  {
    hide Tlv, RSA_ALGORITHM;
    AlgorithmReads(RSA_ALGORITHM, []);
    TlvGrows(0x03, [0] + der);
    TlvGrows(0x30, RSA_ALGORITHM + Tlv(0x03, [0] + der));
  }

  lemma UnwrapsAlike(spki: Bytes, rsa: Bytes)
    requires Whole(spki, 0x30) && Unwrapped(spki) == Some(Key(spki, rsa)) && |spki| < SPKI_MAX
    ensures Unwrapped(spki + [0]) == Some(Key(spki + [0], rsa)) && !Whole(spki + [0], 0x30)
  {
    hide Element, Unwrapped;
    var (start, n) := Element(spki, 0, 0x30).value;
    ElementShifts([], spki, [0], 0x30);
    assert [] + spki + [0] == spki + [0];
    assert (spki + [0])[start..start + n] == spki[start..start + n];
    SameBody(spki, spki + [0], start, n);
  }

  lemma SameBody(d: Bytes, e: Bytes, start: nat, n: nat)
    requires Element(d, 0, 0x30) == Some((start, n)) == Element(e, 0, 0x30) && d[start..start + n] == e[start..start + n]
    requires Unwrapped(d).Some? && |e| <= SPKI_MAX
    ensures Unwrapped(e) == Some(Key(e, Unwrapped(d).value.rsa))
  {
    hide Element;
  }
}
