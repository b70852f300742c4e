/**
 The device certificate (src/der_x509.cpp): DER elements written into fixed
 buffers (section 8.1.3 of ITU-T X.690), the readers that take them apart, the
 key formats, and the certificate (section 4.1 of RFC 5280) with its PEM text.
 SHA-1 and the RSA signature are functions the caller passes.
 */
module DerX509 {
  import opened Bytes
  import opened Base64
  import opened PairProtocol

  // --------------------------------------------------------------------- elements

  /** Longer contents have their length truncated to 16 bits. */
  function LenBytes(n: nat): (r: Bytes)
    ensures 1 <= |r| <= 3
  {
    if n < 128 then [n]
    else if n <= 255 then [0x81, n]
    else [0x82, n / 0x100 % 0x100, n % 0x100]
  }

  function Tlv(tag: byte, content: Bytes): (r: Bytes)
    ensures |r| == 1 + |LenBytes(|content|)| + |content|
  {
    [tag] + LenBytes(|content|) + content
  }

  /** The position after the length at `pos`, and the length. */
  function Length(d: Bytes, pos: nat): (r: Option<(nat, nat)>)
    ensures r.Some? ==> pos < r.value.0 && r.value.0 + r.value.1 <= |d|
  {
    if pos >= |d| then None
    else
      var b := d[pos];
      if b < 0x80 then
        if pos + 1 + b <= |d| then Some((pos + 1, b)) else None
      else
        var c := b - 0x80;
        if c == 0 || c > 2 || pos + 1 + c > |d| then None
        else
          var v: nat := if c == 1 then d[pos + 1] else Read16(d, pos + 1);
          if pos + 1 + c + v <= |d| then Some((pos + 1 + c, v)) else None
  }

  /** Where the content of the element at `pos` starts, and its length. */
  function Element(d: Bytes, pos: nat, tag: byte): (r: Option<(nat, nat)>)
    ensures r.Some? ==> pos + 1 < r.value.0 && r.value.0 + r.value.1 <= |d|
  {
    if pos >= |d| || d[pos] != tag then None else Length(d, pos + 1)
  }

  method ReadLen(d: Bytes, pos: nat) returns (r: Option<(nat, nat)>)
    ensures r == Length(d, pos)
  {
    if pos >= |d| {
      return None;
    }
    var b, p := d[pos], pos + 1;
    if b < 0x80 {
      return if p + b <= |d| then Some((p, b)) else None;
    }
    var c: nat := b - 0x80;
    if c == 0 || c > 2 || p + c > |d| {
      return None;
    }
    var v: nat := 0;
    ghost var first, count := p, c;
    while c > 0
      invariant c <= count <= 2 && p + c == first + count <= |d|
      invariant p == first ==> v == 0
      invariant p == first + 1 ==> v == d[first] as int
      invariant p == first + 2 ==> v == Read16(d, first)
    {
      v := v * 0x100 + d[p] as int;
      p := p + 1;
      c := c - 1;
    }
    return if p + v <= |d| then Some((p, v)) else None;
  }

  method ReadTlv(d: Bytes, pos: nat, tag: byte) returns (r: Option<(nat, nat)>)
    ensures r == Element(d, pos, tag)
  {
    if pos >= |d| || d[pos] != tag {
      return None;
    }
    r := ReadLen(d, pos + 1);
  }

  /** An element is read back wherever it stands. */
  lemma TlvReads(pre: Bytes, tag: byte, content: Bytes, post: Bytes)
    requires |content| < 0x1_0000
    ensures var d := pre + Tlv(tag, content) + post;
            var start := |pre| + 1 + |LenBytes(|content|)|;
      Element(d, |pre|, tag) == Some((start, |content|)) && d[start..start + |content|] == content
  {
    hide LenBytes, Length;
    var d := pre + Tlv(tag, content) + post;
    var l := LenBytes(|content|);
    var head := pre + [tag];
    assert d == head + l + (content + post);
    assert d[|pre|] == tag;
    LengthReads(head, |content|, content + post);
    assert d == (head + l) + content + post;
    assert d[|head + l|..|head + l| + |content|] == content;
  }

  lemma LengthReads(pre: Bytes, n: nat, post: Bytes)
    requires n < 0x1_0000 && n <= |post|
    ensures Length(pre + LenBytes(n) + post, |pre|) == Some((|pre| + |LenBytes(n)|, n))
  {
    var d, l := pre + LenBytes(n) + post, LenBytes(n);
    assert forall i :: 0 <= i < |l| ==> d[|pre| + i] == l[i];
    assert d[|pre|] == l[0];
    if n >= 0x100 {
      assert d[|pre| + 1] == l[1] && d[|pre| + 2] == l[2];
    }
  }

  // ---------------------------------------------------------------------- writing

  /** A writer over a buffer of `cap` bytes; `data` is the part written so far. */
  class Writer {
    const cap: nat
    var data: Bytes

    constructor (cap: nat)
      ensures this.cap == cap && data == []
    {
      this.cap := cap;
      data := [];
    }

    method Add(x: Bytes) returns (ok: bool)
      modifies this
      ensures ok == (|old(data)| + |x| <= cap)
      ensures data == if ok then old(data) + x else old(data)
    {
      if |data| + |x| > cap {
        return false;
      }
      data := data + x;
      return true;
    }

    method AddTlv(tag: byte, content: Bytes) returns (ok: bool)
      modifies this
      ensures ok == (|old(data)| + |Tlv(tag, content)| <= cap)
      ensures ok ==> data == old(data) + Tlv(tag, content)
    {
      var l := LenBytes(|content|);
      ok := Add([tag]);
      if ok {
        ok := Add(l);
      }
      if ok {
        ok := Add(content);
      }
      assert old(data) + [tag] + l + content == old(data) + ([tag] + l + content);
    }
  }

  // ------------------------------------------------------------------------- keys

  const RSA_ALGORITHM: Bytes := [0x30, 0x0D, 0x06, 0x09, 0x2A, 0x86, 0x48, 0x86, 0xF7, 0x0D, 0x01, 0x01, 0x01, 0x05, 0x00]
  const SHA256_RSA: Bytes := [0x30, 0x0D, 0x06, 0x09, 0x2A, 0x86, 0x48, 0x86, 0xF7, 0x0D, 0x01, 0x01, 0x0B, 0x05, 0x00]
  const SPKI_MAX := 1200

  /** The subject public key info and the bare RSA key. */
  datatype Key = Key(spki: Bytes, rsa: Bytes)

  function Wrapped(der: Bytes): Option<Key> {
    var bits := Tlv(0x03, [0] + der);
    if |der| + 1 > 1024 || |RSA_ALGORITHM| + |bits| > SPKI_MAX then None
    else
      var spki := Tlv(0x30, RSA_ALGORITHM + bits);
      if |spki| > SPKI_MAX then None else Some(Key(spki, der))
  }

  function Unwrapped(der: Bytes): Option<Key> {
    var outer := Element(der, 0, 0x30);
    if |der| > SPKI_MAX || outer.None? then None
    else
      var body := der[outer.value.0..outer.value.0 + outer.value.1];
      var alg := Element(body, 0, 0x30);
      if alg.None? then None
      else
        var bits := Element(body, alg.value.0 + alg.value.1, 0x03);
        if bits.None? || bits.value.1 < 2 || body[bits.value.0] != 0 then None
        else Some(Key(der, body[bits.value.0 + 1..bits.value.0 + bits.value.1]))
  }

  function Normalized(der: Bytes, pkcs1: bool): Option<Key> {
    if pkcs1 then Wrapped(der) else Unwrapped(der)
  }

  method NormalizeSpki(der: Bytes, pkcs1: bool) returns (r: Option<Key>)
    ensures r == Normalized(der, pkcs1)
  {
    hide Element, Wrapped;
    if pkcs1 {
      r := WrapKey(der);
      return;
    }
    if |der| > SPKI_MAX {
      return None;
    }
    var outer := ReadTlv(der, 0, 0x30);
    if outer.None? {
      return None;
    }
    var body := der[outer.value.0..outer.value.0 + outer.value.1];
    var alg := ReadTlv(body, 0, 0x30);
    if alg.None? {
      return None;
    }
    var bits := ReadTlv(body, alg.value.0 + alg.value.1, 0x03);
    if bits.None? || bits.value.1 < 2 || body[bits.value.0] != 0 {
      return None;
    }
    return Some(Key(der, body[bits.value.0 + 1..bits.value.0 + bits.value.1]));
  }

  method WrapKey(der: Bytes) returns (r: Option<Key>)
    ensures r == Wrapped(der)
  {
    hide LenBytes;
    var bw := new Writer(1024);
    var ok := bw.Add([0]);
    if ok {
      ok := bw.Add(der);
    }
    if !ok {
      return None;
    }
    assert [] + [0] + der == [0] + der;
    var body := new Writer(1200);
    ok := body.Add(RSA_ALGORITHM);
    if ok {
      ok := body.AddTlv(0x03, bw.data);
    }
    if !ok {
      return None;
    }
    var outer := new Writer(SPKI_MAX);
    assert [] + RSA_ALGORITHM == RSA_ALGORITHM;
    ok := outer.AddTlv(0x30, body.data);
    if !ok {
      return None;
    }
    assert [] + Tlv(0x30, body.data) == Tlv(0x30, body.data);
    return Some(Key(outer.data, der));
  }

  /** A PKCS#1 key that was wrapped is read back through the other branch, byte for byte. */
  lemma KeyRoundTrip(der: Bytes)
    requires der != [] && Wrapped(der).Some?
    ensures Unwrapped(Wrapped(der).value.spki) == Wrapped(der)
  {
    hide LenBytes, Element, RSA_ALGORITHM, Tlv, Unwrapped;
    var content := [0] + der;
    var body := RSA_ALGORITHM + Tlv(0x03, content);
    BodyOf(content);
    OuterOf(body);
    UnwrapIs(Tlv(0x30, body), (1 + |LenBytes(|body|)|, |body|), body, (2, 13), (16 + |LenBytes(|content|)|, |content|), content);
    assert content[1..] == der;
  }

  lemma OuterOf(body: Bytes)
    requires |body| < 0x1_0000
    ensures var spki, at := Tlv(0x30, body), 1 + |LenBytes(|body|)|;
      && Element(spki, 0, 0x30) == Some((at, |body|)) && at + |body| <= |spki| && spki[at..at + |body|] == body
  {
    hide LenBytes, Element, Tlv;
    TlvReads([], 0x30, body, []);
    assert [] + Tlv(0x30, body) + [] == Tlv(0x30, body);
  }

  lemma BodyOf(content: Bytes)
    requires |content| < 0x1_0000
    ensures var body, at := RSA_ALGORITHM + Tlv(0x03, content), 16 + |LenBytes(|content|)|;
      && Element(body, 0, 0x30) == Some((2, 13)) && Element(body, 15, 0x03) == Some((at, |content|))
      && at + |content| <= |body| && body[at..at + |content|] == content
  {
    hide LenBytes, Element, RSA_ALGORITHM, Tlv;
    var bits := Tlv(0x03, content);
    AlgorithmReads(RSA_ALGORITHM, bits);
    TlvReads(RSA_ALGORITHM, 0x03, content, []);
    assert RSA_ALGORITHM + bits + [] == RSA_ALGORITHM + bits;
  }

  /** The key put into a certificate can be read from it: it is the key whose digest is taken. */
  lemma NormalizedReadable(der: Bytes, pkcs1: bool)
    requires der != [] && Normalized(der, pkcs1).Some?
    ensures Unwrapped(Normalized(der, pkcs1).value.spki) == Normalized(der, pkcs1)
  {
    hide Element, Tlv;
    if pkcs1 {
      KeyRoundTrip(der);
    }
  }

  lemma UnwrapIs(d: Bytes, outer: (nat, nat), body: Bytes, alg: (nat, nat), bits: (nat, nat), content: Bytes)
    requires |d| <= SPKI_MAX && Element(d, 0, 0x30) == Some(outer) && body == d[outer.0..outer.0 + outer.1]
    requires Element(body, 0, 0x30) == Some(alg) && Element(body, alg.0 + alg.1, 0x03) == Some(bits)
    requires body[bits.0..bits.0 + bits.1] == content && |content| >= 2 && content[0] == 0
    ensures Unwrapped(d) == Some(Key(d, content[1..]))
  {
    hide Element;
    assert body[bits.0] == content[0];
    assert body[bits.0 + 1..bits.0 + bits.1] == content[1..];
  }

  lemma AlgorithmReads(alg: Bytes, rest: Bytes)
    requires alg == RSA_ALGORITHM || alg == SHA256_RSA
    ensures Element(alg + rest, 0, 0x30) == Some((2, 13)) && |alg| == 15
  {
    var d := alg + rest;
    assert d[0] == 0x30 && d[1] == 0x0D;
  }

  // ------------------------------------------------------------------ certificate

  type Digest = d: Bytes | |d| == 20 witness Zeros(20)
  type Signature = s: Bytes | |s| == 256 witness Zeros(256)

  const NOT_BEFORE: Bytes := [0x32, 0x36, 0x30, 0x38, 0x31, 0x30, 0x30, 0x30, 0x30, 0x30, 0x30, 0x30, 0x5A]
  const NOT_AFTER: Bytes := [0x33, 0x36, 0x30, 0x38, 0x30, 0x38, 0x30, 0x30, 0x30, 0x30, 0x30, 0x30, 0x5A]

  function Validity(): Bytes {
    Tlv(0x30, Tlv(0x17, NOT_BEFORE) + Tlv(0x17, NOT_AFTER))
  }

  function BasicConstraints(): Bytes {
    Tlv(0x30, Tlv(0x06, [0x55, 0x1D, 0x13]) + Tlv(0x01, [0xFF]) + Tlv(0x04, [0x30, 0x00]))
  }

  function KeyUsage(): Bytes {
    Tlv(0x30, Tlv(0x06, [0x55, 0x1D, 0x0F]) + Tlv(0x01, [0xFF]) + Tlv(0x04, [0x03, 0x02, 0x05, 0xA0]))
  }

  function KeyIdentifier(ski: Digest): Bytes {
    Tlv(0x30, Tlv(0x06, [0x55, 0x1D, 0x0E]) + Tlv(0x04, Tlv(0x04, ski)))
  }

  function Extensions(ski: Digest): Bytes {
    Tlv(0xA3, Tlv(0x30, BasicConstraints() + KeyIdentifier(ski) + KeyUsage()))
  }

  /** What is signed: version 3, serial 1, empty names, the device's key. */
  function Tbs(spki: Bytes, ski: Digest): Bytes {
    Tlv(0x30, Tlv(0xA0, [0x02, 0x01, 0x02]) + [0x02, 0x01, 0x01] + SHA256_RSA + [0x30, 0x00] + Validity()
              + [0x30, 0x00] + spki + Extensions(ski))
  }

  function Certificate(tbs: Bytes, signature: Signature): Bytes {
    Tlv(0x30, tbs + SHA256_RSA + Tlv(0x03, [0] + signature))
  }

  lemma ExtensionSizes(ski: Digest)
    ensures |BasicConstraints()| == 14 && |KeyUsage()| == 16 && |KeyIdentifier(ski)| == 31
    ensures |Extensions(ski)| == 65 && |Validity()| == 32
  {
  }

  method AddBasicConstraints(w: Writer) returns (ok: bool)
    modifies w
    ensures ok == (|old(w.data)| + |BasicConstraints()| <= w.cap)
    ensures ok ==> w.data == old(w.data) + BasicConstraints()
  {
    var x := new Writer(32);
    ok := x.AddTlv(0x06, [0x55, 0x1D, 0x13]);
    if ok {
      ok := x.AddTlv(0x01, [0xFF]);
    }
    if ok {
      ok := x.AddTlv(0x04, [0x30, 0x00]);
    }
    assert ok && x.data == Tlv(0x06, [0x55, 0x1D, 0x13]) + Tlv(0x01, [0xFF]) + Tlv(0x04, [0x30, 0x00]);
    ok := w.AddTlv(0x30, x.data);
  }

  method AddKeyUsage(w: Writer) returns (ok: bool)
    modifies w
    ensures ok == (|old(w.data)| + |KeyUsage()| <= w.cap)
    ensures ok ==> w.data == old(w.data) + KeyUsage()
  {
    var x := new Writer(32);
    ok := x.AddTlv(0x06, [0x55, 0x1D, 0x0F]);
    if ok {
      ok := x.AddTlv(0x01, [0xFF]);
    }
    if ok {
      ok := x.AddTlv(0x04, [0x03, 0x02, 0x05, 0xA0]);
    }
    assert ok && x.data == Tlv(0x06, [0x55, 0x1D, 0x0F]) + Tlv(0x01, [0xFF]) + Tlv(0x04, [0x03, 0x02, 0x05, 0xA0]);
    ok := w.AddTlv(0x30, x.data);
  }

  method AddKeyIdentifier(w: Writer, ski: Digest) returns (ok: bool)
    modifies w
    ensures ok == (|old(w.data)| + |KeyIdentifier(ski)| <= w.cap)
    ensures ok ==> w.data == old(w.data) + KeyIdentifier(ski)
  {
    hide Tlv;
    TlvGrows(0x04, ski);
    TlvGrows(0x04, Tlv(0x04, ski));
    TlvGrows(0x06, [0x55, 0x1D, 0x0E]);
    var inner := new Writer(24);
    var x := new Writer(64);
    ok := inner.AddTlv(0x04, ski);
    assert ok && inner.data == Tlv(0x04, ski);
    ok := x.AddTlv(0x06, [0x55, 0x1D, 0x0E]);
    if ok {
      ok := x.AddTlv(0x04, inner.data);
    }
    assert ok && x.data == Tlv(0x06, [0x55, 0x1D, 0x0E]) + Tlv(0x04, Tlv(0x04, ski));
    ok := w.AddTlv(0x30, x.data);
  }

  method BuildValidity() returns (r: Bytes)
    ensures r == Validity()
  {
    var vb := new Writer(64);
    var vv := new Writer(80);
    var ok := vb.AddTlv(0x17, NOT_BEFORE);
    if ok {
      ok := vb.AddTlv(0x17, NOT_AFTER);
    }
    assert vb.data == Tlv(0x17, NOT_BEFORE) + Tlv(0x17, NOT_AFTER);
    ok := vv.AddTlv(0x30, vb.data);
    assert ok && [] + Validity() == Validity();
    return vv.data;
  }

  method BuildExtensions(ski: Digest) returns (r: Bytes)
    ensures r == Extensions(ski)
  {
    hide Tlv, BasicConstraints, KeyUsage, KeyIdentifier;
    ExtensionSizes(ski);
    var ex := new Writer(256);
    var es := new Writer(280);
    var ee := new Writer(300);
    var ok := AddBasicConstraints(ex);
    if ok {
      ok := AddKeyIdentifier(ex, ski);
    }
    if ok {
      ok := AddKeyUsage(ex);
    }
    assert ok && ex.data == BasicConstraints() + KeyIdentifier(ski) + KeyUsage();
    TlvGrows(0x30, ex.data);
    ok := es.AddTlv(0x30, ex.data);
    assert ok && es.data == Tlv(0x30, BasicConstraints() + KeyIdentifier(ski) + KeyUsage());
    TlvGrows(0xA3, es.data);
    ok := ee.AddTlv(0xA3, es.data);
    assert ok && [] + Extensions(ski) == Extensions(ski);
    return ee.data;
  }

  lemma TlvGrows(tag: byte, content: Bytes)
    ensures |content| + 2 <= |Tlv(tag, content)| <= |content| + 4
  {
  }

  /** The scratch buffers suffice for every key that was accepted. */
  method BuildTbs(spki: Bytes, ski: Digest) returns (r: Bytes)
    requires |spki| <= SPKI_MAX
    ensures r == Tbs(spki, ski)
  {
    hide Tlv, Validity, Extensions, SHA256_RSA;
    var validity := BuildValidity();
    var explicit := BuildExtensions(ski);
    ExtensionSizes(ski);
    AlgorithmSize();
    TlvGrows(0xA0, [0x02, 0x01, 0x02]);
    var tb := new Writer(1800);
    var ok := tb.AddTlv(0xA0, [0x02, 0x01, 0x02]);
    if ok {
      ok := tb.Add([0x02, 0x01, 0x01]);
    }
    if ok {
      ok := tb.Add(SHA256_RSA);
    }
    if ok {
      ok := tb.Add([0x30, 0x00]);
    }
    if ok {
      ok := tb.Add(validity);
    }
    if ok {
      ok := tb.Add([0x30, 0x00]);
    }
    if ok {
      ok := tb.Add(spki);
    }
    if ok {
      ok := tb.Add(explicit);
    }
    assert ok;
    assert [] + Tlv(0xA0, [0x02, 0x01, 0x02]) == Tlv(0xA0, [0x02, 0x01, 0x02]);
    r := Boxed(tb.data, 1900);
  }

  lemma AlgorithmSize()
    ensures |SHA256_RSA| == 15
  {
  }

  /** A sequence element around a body, in a buffer of its own. */
  method Boxed(body: Bytes, cap: nat) returns (r: Bytes)
    requires |body| + 4 <= cap
    ensures r == Tlv(0x30, body)
  {
    hide Tlv;
    var w := new Writer(cap);
    TlvGrows(0x30, body);
    var ok := w.AddTlv(0x30, body);
    assert ok && [] + Tlv(0x30, body) == Tlv(0x30, body);
    return w.data;
  }

  method BuildCertificate(tbs: Bytes, signature: Signature) returns (r: Bytes)
    requires |tbs| <= 1900
    ensures r == Certificate(tbs, signature)
  {
    hide Tlv, SHA256_RSA;
    AlgorithmSize();
    var bits := [0] + signature;
    TlvGrows(0x03, bits);
    var cb := new Writer(2400);
    var ok := cb.Add(tbs);
    if ok {
      ok := cb.Add(SHA256_RSA);
    }
    if ok {
      ok := cb.AddTlv(0x03, bits);
    }
    assert ok && [] + tbs == tbs;
    r := Boxed(cb.data, 2500);
  }

  // -------------------------------------------------------------------------- PEM

  const PUBLIC_BEGIN := "-----BEGIN PUBLIC KEY-----"
  const PUBLIC_END := "-----END PUBLIC KEY-----"
  const RSA_BEGIN := "-----BEGIN RSA PUBLIC KEY-----"
  const RSA_END := "-----END RSA PUBLIC KEY-----"
  const CERT_BEGIN := "-----BEGIN CERTIFICATE-----\n"
  const CERT_END := "-----END CERTIFICATE-----\n"

  /** The text between the first opening marker and the next closing one. */
  function Between(s: string, open: string, close: string): Option<string> {
    var h := FindFrom(s, open, 0);
    if h.None? then None
    else
      var e := FindFrom(s, close, h.value + |open|);
      if e.None? then None else Some(s[h.value + |open|..e.value])
  }

  /** The DER bytes of a PEM key, and whether they are a bare PKCS#1 key. */
  function KeyDer(pem: string): Option<(Bytes, bool)> {
    var pkcs1 := FindFrom(pem, PUBLIC_BEGIN, 0).None?;
    var body := if pkcs1 then Between(pem, RSA_BEGIN, RSA_END) else Between(pem, PUBLIC_BEGIN, PUBLIC_END);
    if body.None? then None
    else
      var der := Decoded(body.value);
      if der.None? || der.value == [] || |der.value| > 1024 then None else Some((der.value, pkcs1))
  }

  method FindN(s: string, from: nat, q: string) returns (r: Option<nat>)
    requires from <= |s|
    ensures r == FindFrom(s, q, from)
  {
    var i := from;
    while i + |q| <= |s|
      invariant from <= i
      invariant FindFrom(s, q, i) == FindFrom(s, q, from)
    {
      if s[i..i + |q|] == q {
        return Some(i);
      }
      i := i + 1;
    }
    return None;
  }

  method PemDer(pem: string) returns (r: Option<(Bytes, bool)>)
    ensures r == KeyDer(pem)
  {
    hide FindFrom, Decoded;
    var pkcs1, open, close := false, PUBLIC_BEGIN, PUBLIC_END;
    var h := FindN(pem, 0, open);
    if h.None? {
      pkcs1, open, close := true, RSA_BEGIN, RSA_END;
      h := FindN(pem, 0, open);
      if h.None? {
        return None;
      }
    }
    var b := h.value + |open|;
    var e := FindN(pem, b, close);
    if e.None? {
      return None;
    }
    var der := Decode(pem[b..e.value], 1024);
    return if der == [] then None else Some((der, pkcs1));
  }

  /** The certificate for a key, its signed part, and its signature; None when any part refuses. */
  function Issued(pem: string, sha1: Bytes -> Option<Digest>, sign: Bytes -> Option<Signature>):
    Option<(Bytes, Bytes, Signature)>
  {
    var der := KeyDer(pem);
    if der.None? then None
    else
      var key := Normalized(der.value.0, der.value.1);
      if key.None? || sha1(key.value.rsa).None? then None
      else
        var tbs := Tbs(key.value.spki, sha1(key.value.rsa).value);
        if sign(tbs).None? then None
        else Some((Certificate(tbs, sign(tbs).value), tbs, sign(tbs).value))
  }

  function Armored(cert: Bytes): string {
    CERT_BEGIN + Text(cert, true) + CERT_END
  }

  method BuildDeviceCertificatePem(pem: string, sha1: Bytes -> Option<Digest>, sign: Bytes -> Option<Signature>, cap: nat)
    returns (r: Option<string>)
    ensures var issued := Issued(pem, sha1, sign);
      r.Some? <==> issued.Some? && |Armored(issued.value.0)| + 1 <= cap
    ensures r.Some? ==> r.value == Armored(Issued(pem, sha1, sign).value.0)
  {
    hide KeyDer, Normalized, Tbs, Certificate, Text, Tlv;
    var der := PemDer(pem);
    if der.None? {
      return None;
    }
    var key := NormalizeSpki(der.value.0, der.value.1);
    if key.None? {
      return None;
    }
    NormalizedFits(der.value.0, der.value.1);
    var ski := sha1(key.value.rsa);
    if ski.None? {
      return None;
    }
    var tbs := BuildTbs(key.value.spki, ski.value);
    var signature := sign(tbs);
    if signature.None? {
      return None;
    }
    TbsFits(key.value.spki, ski.value);
    var cert := BuildCertificate(tbs, signature.value);
    CertificateText(tbs, signature.value);
    var hn, fn := |CERT_BEGIN|, |CERT_END|;
    if cap < hn + fn + 16 {
      return None;
    }
    var body := Encode(cert, cap - hn - fn, true);
    if body == "" {
      return None;
    }
    var total := hn + |body| + fn;
    if total >= cap {
      return None;
    }
    return Some(CERT_BEGIN + body + CERT_END);
  }

  lemma NormalizedFits(der: Bytes, pkcs1: bool)
    ensures Normalized(der, pkcs1).Some? ==> |Normalized(der, pkcs1).value.spki| <= SPKI_MAX
  {
    hide Element, Tlv;
  }

  lemma TbsFits(spki: Bytes, ski: Digest)
    requires |spki| <= SPKI_MAX
    ensures |Tbs(spki, ski)| <= 1900
  {
    hide Tlv, Validity, Extensions, SHA256_RSA;
    ExtensionSizes(ski);
    AlgorithmSize();
    TlvGrows(0xA0, [0x02, 0x01, 0x02]);
    TlvGrows(0x30, Tlv(0xA0, [0x02, 0x01, 0x02]) + [0x02, 0x01, 0x01] + SHA256_RSA + [0x30, 0x00] + Validity()
                   + [0x30, 0x00] + spki + Extensions(ski));
  }

  /** The text of a certificate is longer than the least room asked for. */
  lemma CertificateText(tbs: Bytes, signature: Signature)
    ensures |Text(Certificate(tbs, signature), true)| >= 16
  {
    hide Tlv, Text, SHA256_RSA;
    TlvGrows(0x03, [0] + signature);
    TlvGrows(0x30, tbs + SHA256_RSA + Tlv(0x03, [0] + signature));
    TextLength(Certificate(tbs, signature));
  }

  lemma TextLength(b: Bytes)
    ensures |b| <= |Text(b, true)|
  {
    EncodedLength(b);
    var e := Encoded(b);
    assert "" + e == e;
    LaidGrows("", e, true);
  }

  lemma {:induction false} EncodedLength(b: Bytes)
    ensures |b| <= |Encoded(b)|
  {
    if b != [] {
      EncodedLength(b[|Base64.Head(b)|..]);
    }
  }

  // ------------------------------------------------------------------- round trip

  /** A reader of certificates: the first of the three elements whole, and the content of the third. */
  function ReadCertificate(cert: Bytes): Option<(Bytes, Bytes)> {
    var outer := Element(cert, 0, 0x30);
    if outer.None? || outer.value.0 + outer.value.1 != |cert| then None
    else ReadBody(cert[outer.value.0..])
  }

  function ReadBody(body: Bytes): Option<(Bytes, Bytes)> {
    var tbs := Element(body, 0, 0x30);
    if tbs.None? then None
    else
      var alg := Element(body, tbs.value.0 + tbs.value.1, 0x30);
      if alg.None? then None
      else
        var bits := Element(body, alg.value.0 + alg.value.1, 0x03);
        if bits.None? || bits.value.0 + bits.value.1 != |body| then None
        else Some((body[..tbs.value.0 + tbs.value.1], body[bits.value.0..]))
  }

  lemma BodyReads(content: Bytes, signature: Signature)
    requires |content| < 0x1_0000
    ensures var tbs := Tlv(0x30, content);
      ReadBody(tbs + SHA256_RSA + Tlv(0x03, [0] + signature)) == Some((tbs, [0] + signature))
  {
    hide Tlv, SHA256_RSA, Element, LenBytes, ReadBody;
    var tbs, bits := Tlv(0x30, content), [0] + signature;
    var body := tbs + SHA256_RSA + Tlv(0x03, bits);
    assert body == [] + tbs + (SHA256_RSA + Tlv(0x03, bits)) == (tbs + SHA256_RSA) + Tlv(0x03, bits) + [];
    TlvReads([], 0x30, content, SHA256_RSA + Tlv(0x03, bits));
    AlgorithmIsTlv();
    TlvReads(tbs, 0x30, SHA256_RSA[2..], Tlv(0x03, bits));
    TlvReads(tbs + SHA256_RSA, 0x03, bits, []);
    TlvSize(0x30, content);
    TlvSize(0x30, SHA256_RSA[2..]);
    TlvSize(0x03, bits);
    var t, a, b := 1 + |LenBytes(|content|)|, |tbs| + 2, |tbs| + 15 + 1 + |LenBytes(257)|;
    ReadBodyIs(body, (t, |content|), (a, 13), (b, 257), tbs, bits);
  }

  lemma ReadBodyIs(body: Bytes, t: (nat, nat), a: (nat, nat), b: (nat, nat), tbs: Bytes, bits: Bytes)
    requires Element(body, 0, 0x30) == Some(t) && Element(body, t.0 + t.1, 0x30) == Some(a)
    requires Element(body, a.0 + a.1, 0x03) == Some(b) && b.0 + b.1 == |body|
    requires body[..t.0 + t.1] == tbs && body[b.0..b.0 + b.1] == bits
    ensures ReadBody(body) == Some((tbs, bits))
  {
    hide Element;
    assert body[b.0..] == body[b.0..b.0 + b.1];
  }

  lemma AlgorithmIsTlv()
    ensures |SHA256_RSA| == 15 && SHA256_RSA == Tlv(0x30, SHA256_RSA[2..]) && |LenBytes(13)| == 1
  {
  }

  lemma TlvSize(tag: byte, content: Bytes)
    ensures |Tlv(tag, content)| == 1 + |LenBytes(|content|)| + |content|
  {
  }

  lemma CertificateReads(content: Bytes, signature: Signature)
    requires |content| < 0x8000
    ensures ReadCertificate(Certificate(Tlv(0x30, content), signature)) == Some((Tlv(0x30, content), [0] + signature))
  {
    hide Tlv, SHA256_RSA, Element, LenBytes, ReadBody;
    var tbs := Tlv(0x30, content);
    var body := tbs + SHA256_RSA + Tlv(0x03, [0] + signature);
    AlgorithmSize();
    TlvGrows(0x30, content);
    TlvGrows(0x03, [0] + signature);
    TlvReads([], 0x30, body, []);
    TlvSize(0x30, body);
    assert [] + Tlv(0x30, body) + [] == Tlv(0x30, body);
    var start := 1 + |LenBytes(|body|)|;
    assert Tlv(0x30, body)[start..] == Tlv(0x30, body)[start..start + |body|] == body;
    BodyReads(content, signature);
  }

  /**
   Reading back the certificate of a PEM text: its base64 body decodes to three
   elements, the first the very bytes that were signed, the third 0 and the signature.
   */
  lemma CertificateRoundTrip(pem: string, sha1: Bytes -> Option<Digest>, sign: Bytes -> Option<Signature>)
    requires Issued(pem, sha1, sign).Some?
    ensures var (cert, tbs, signature) := Issued(pem, sha1, sign).value;
            var text := Armored(cert);
            var body := text[|CERT_BEGIN|..|text| - |CERT_END|];
      && sign(tbs) == Some(signature) && Decoded(body) == Some(cert)
      && ReadCertificate(cert) == Some((tbs, [0] + signature))
  {
    hide KeyDer, Normalized, Tlv, Text, ReadCertificate, Certificate, Decoded;
    var (cert, tbs, signature) := Issued(pem, sha1, sign).value;
    var text := Armored(cert);
    assert text[|CERT_BEGIN|..|text| - |CERT_END|] == Text(cert, true);
    RoundTrip(cert, true);
    var der := KeyDer(pem).value;
    var key := Normalized(der.0, der.1).value;
    NormalizedFits(der.0, der.1);
    TbsReads(key.spki, sha1(key.rsa).value, signature);
  }

  lemma TbsReads(spki: Bytes, ski: Digest, signature: Signature)
    requires |spki| <= SPKI_MAX
    ensures ReadCertificate(Certificate(Tbs(spki, ski), signature)) == Some((Tbs(spki, ski), [0] + signature))
  {
    hide Tlv, Validity, Extensions, SHA256_RSA, ReadCertificate, Certificate;
    TbsFits(spki, ski);
    var content := Tlv(0xA0, [0x02, 0x01, 0x02]) + [0x02, 0x01, 0x01] + SHA256_RSA + [0x30, 0x00] + Validity()
              + [0x30, 0x00] + spki + Extensions(ski);
    TlvGrows(0x30, content);
    CertificateReads(content, signature);
  }
}
