/**
 The identity a phone is paired with (src/pair_identity.cpp): two random UUIDs and
 the certificates and keys as base64 of their PEM texts, the device certificate
 made for the key the phone sent. The crypto backend's answers are parameters.
 */
module PairIdentity {
  import opened Bytes
  import opened Base64
  import opened PairProtocol
  import opened DerX509

  datatype Identity = Identity(hostId: string, systemBuid: string,
                               rootCertificate: string, rootKey: string,
                               hostCertificate: string, hostKey: string, deviceCertificate: string)

  const NO_IDENTITY := Identity("", "", "", "", "", "", "")

  type Random = b: Bytes | |b| == 16 witness Zeros(16)

  /** What the backend answers: randomness, whether it still issues keys, PEM texts (empty for a refusal), digests, signatures. */
  datatype Backend = Backend(host: Random, system: Random, keys: bool,
                             rootKey: Bytes, root: Bytes, hostKey: Bytes, hostCertificate: Bytes,
                             sha1: Bytes -> Option<Digest>, sign: Bytes -> Option<Signature>)

  // ------------------------------------------------------------------------- UUIDs

  const HEX := "0123456789ABCDEF"

  /** Version and variant are stored over six of the random bits. */
  function Marked(b: Random): Random {
    b[6 := 0x40 + b[6] % 0x10][8 := 0x80 + b[8] % 0x40]
  }

  predicate DashBefore(i: nat) {
    i == 4 || i == 6 || i == 8 || i == 10
  }

  /** One byte's digits, with the dash that goes before them. */
  function Group(v: byte, i: nat): string {
    (if DashBefore(i) then "-" else "") + [HEX[v / 0x10], HEX[v % 0x10]]
  }

  function HexFrom(b: Random, i: nat): string
    requires i <= 16
    decreases 16 - i
  {
    if i == 16 then "" else Group(b[i], i) + HexFrom(b, i + 1)
  }

  function Uuid(b: Random): string {
    HexFrom(Marked(b), 0)
  }

  method FormatUuidV4(input: Random) returns (out: string)
    ensures out == Uuid(input)
  {
    var b: Random := input[6 := 0x40 + input[6] % 0x10];
    b := b[8 := 0x80 + b[8] % 0x40];
    out := "";
    var i := 0;
    assert b == Marked(input);
    hide Marked, HexFrom;
    while i < 16
      invariant 0 <= i <= 16 && out + HexFrom(b, i) == HexFrom(b, 0)
    {
      Snoc(out, b, i);
      out := AppendGroup(out, b[i], i);
      i := i + 1;
    }
    NoMore(b);
    assert out + "" == out;
  }

  method AppendGroup(before: string, v: byte, i: nat) returns (out: string)
    ensures out == before + Group(v, i)
  {
    out := before;
    if i == 4 || i == 6 || i == 8 || i == 10 {
      out := out + "-";
    }
    out := out + [HEX[v / 0x10], HEX[v % 0x10]];
  }

  lemma NoMore(b: Random)
    ensures HexFrom(b, 16) == ""
  {
  }

  lemma Snoc(out: string, b: Random, i: nat)
    requires i < 16
    ensures out + HexFrom(b, i) == (out + Group(b[i], i)) + HexFrom(b, i + 1)
  {
    hide Group;
  }

  /** Text that no plist has to escape. */
  predicate Quiet(s: string) {
    forall i :: 0 <= i < |s| ==> s[i] == '-' || '0' <= s[i] <= '9' || 'A' <= s[i] <= 'F'
  }

  lemma HexQuiet(v: nat)
    requires v < 16
    ensures '0' <= HEX[v] <= '9' || 'A' <= HEX[v] <= 'F'
  {
  }

  lemma GroupShape(v: byte, i: nat)
    ensures Quiet(Group(v, i)) && |Group(v, i)| == if DashBefore(i) then 3 else 2
  {
    hide HEX;
    HexQuiet(v / 0x10);
    HexQuiet(v % 0x10);
  }

  lemma QuietAppend(a: string, b: string)
    requires Quiet(a) && Quiet(b)
    ensures Quiet(a + b)
  {
  }

  lemma {:induction false} HexFromShape(b: Random, i: nat)
    requires i <= 16
    ensures Quiet(HexFrom(b, i)) && |HexFrom(b, i)| == 2 * (16 - i) + Dashes(i)
    decreases 16 - i
  {
    hide Group, Quiet;
    if i < 16 {
      GroupShape(b[i], i);
      HexFromShape(b, i + 1);
      QuietAppend(Group(b[i], i), HexFrom(b, i + 1));
    } else {
      NothingQuiet();
    }
  }

  lemma NothingQuiet()
    ensures Quiet("")
  {
  }

  function Dashes(i: nat): nat {
    if i <= 4 then 4 else if i <= 6 then 3 else if i <= 8 then 2 else if i <= 10 then 1 else 0
  }

  lemma HexDistinct(v: nat, w: nat)
    requires v < 16 && w < 16 && HEX[v] == HEX[w]
    ensures v == w
  {
    assert forall i :: 0 <= i < 16 ==> HEX[i] as int == if i < 10 then 48 + i else 55 + i;
  }

  lemma GroupDistinct(v: byte, w: byte, i: nat)
    ensures Group(v, i) == Group(w, i) <==> v == w
    ensures |Group(v, i)| == |Group(w, i)|
  {
    var n := if DashBefore(i) then 1 else 0;
    assert Group(v, i)[n] == HEX[v / 0x10] && Group(v, i)[n + 1] == HEX[v % 0x10];
    assert Group(w, i)[n] == HEX[w / 0x10] && Group(w, i)[n + 1] == HEX[w % 0x10];
    if Group(v, i) == Group(w, i) {
      HexDistinct(v / 0x10, w / 0x10);
      HexDistinct(v % 0x10, w % 0x10);
    }
  }

  lemma {:induction false} HexFromDistinct(a: Random, b: Random, i: nat)
    requires i <= 16 && HexFrom(a, i) == HexFrom(b, i)
    ensures forall k :: i <= k < 16 ==> a[k] == b[k]
    decreases 16 - i
  {
    hide Group;
    if i < 16 {
      GroupDistinct(a[i], b[i], i);
      var n := |Group(a[i], i)|;
      assert HexFrom(a, i)[..n] == Group(a[i], i) && HexFrom(b, i)[..n] == Group(b[i], i);
      assert HexFrom(a, i)[n..] == HexFrom(a, i + 1) && HexFrom(b, i)[n..] == HexFrom(b, i + 1);
      HexFromDistinct(a, b, i + 1);
    }
  }

  /** The random bits that reach the UUID are the same. */
  predicate SameBits(a: Random, b: Random) {
    forall i :: 0 <= i < 16 ==>
      if i == 6 then a[i] % 0x10 == b[i] % 0x10 else if i == 8 then a[i] % 0x40 == b[i] % 0x40 else a[i] == b[i]
  }

  lemma MarkedSame(a: Random, b: Random)
    ensures Marked(a) == Marked(b) <==> SameBits(a, b)
  {
    if Marked(a) == Marked(b) {
      forall i | 0 <= i < 16
        ensures if i == 6 then a[i] % 0x10 == b[i] % 0x10 else if i == 8 then a[i] % 0x40 == b[i] % 0x40 else a[i] == b[i]
      {
        assert Marked(a)[i] == Marked(b)[i];
      }
    }
  }

  /** Two draws give the same UUID exactly when they agree outside of the six stored bits. */
  lemma UuidUnique(a: Random, b: Random)
    ensures |Uuid(a)| == 36 && Quiet(Uuid(a))
    ensures Uuid(a) == Uuid(b) <==> SameBits(a, b)
  {
    hide Marked, HexFrom, SameBits, Quiet;
    HexFromShape(Marked(a), 0);
    MarkedSame(a, b);
    if Uuid(a) == Uuid(b) {
      HexFromDistinct(Marked(a), Marked(b), 0);
    }
  }

  // -------------------------------------------------------------------- generation

  /** Bytes as the characters they are, and back. */
  function Chars(b: Bytes): string {
    seq(|b|, i requires 0 <= i < |b| => b[i] as char)
  }

  function Codes(s: string): Bytes {
    seq(|s|, i requires 0 <= i < |s| => s[i] as int % 0x100)
  }

  const PEM_MAX := 6144
  const FIELD_MAX := 8192
  const CERTIFICATE_MAX := 4096

  /** A PEM text as a field of the identity. */
  function Exported(pem: Bytes): Option<string> {
    if pem == [] || |pem| > PEM_MAX || |Encoded(pem)| + 1 > FIELD_MAX then None else Some(Encoded(pem))
  }

  /** The PEM text of the certificate made for the device's key; empty for a refusal. */
  function DevicePem(key: Bytes, b: Backend): Bytes {
    var issued := Issued(Chars(key), b.sha1, b.sign);
    if issued.None? || |Armored(issued.value.0)| + 1 > CERTIFICATE_MAX then [] else Codes(Armored(issued.value.0))
  }

  function Generated(key: Bytes, b: Backend): Option<Identity> {
    var rootKey, root := Exported(b.rootKey), Exported(b.root);
    var hostKey, host := Exported(b.hostKey), Exported(b.hostCertificate);
    var device := Exported(DevicePem(key, b));
    if key == [] || !b.keys || rootKey.None? || root.None? || hostKey.None? || host.None? || device.None? then None
    else Some(Identity(Uuid(b.host), Uuid(b.system), root.value, rootKey.value, host.value, hostKey.value, device.value))
  }

  /** The identity's own base64 encoder lays out what the shared one does without line breaks. */
  method ExportB64(pem: Bytes) returns (r: Option<string>)
    ensures r == Exported(pem)
  {
    hide Encoded;
    if |pem| == 0 || |pem| > PEM_MAX {
      return None;
    }
    var text := Encode(pem, FIELD_MAX, false);
    TextLength(pem);
    EncodedLength(pem);
    return if text == "" then None else Some(text);
  }

  method MakeDeviceCert(key: Bytes, b: Backend) returns (pem: Bytes)
    ensures pem == DevicePem(key, b)
  {
    hide Issued, Armored;
    var r := BuildDeviceCertificatePem(Chars(key), b.sha1, b.sign, CERTIFICATE_MAX);
    return if r.None? then [] else Codes(r.value);
  }

  method GeneratePairIdentity(key: Bytes, b: Backend) returns (r: Option<Identity>)
    ensures r == Generated(key, b)
  {
    hide Exported, DevicePem, Uuid;
    if |key| == 0 {
      return None;
    }
    var hostId := FormatUuidV4(b.host);
    var systemBuid := FormatUuidV4(b.system);
    if !b.keys {
      return None;
    }
    var pem := MakeDeviceCert(key, b);
    var rootKey := ExportB64(b.rootKey);
    var root := ExportB64(b.root);
    var hostKey := ExportB64(b.hostKey);
    var host := ExportB64(b.hostCertificate);
    var device := ExportB64(pem);
    if rootKey.None? || root.None? || hostKey.None? || host.None? || device.None? {
      return None;
    }
    return Some(Identity(hostId, systemBuid, root.value, rootKey.value, host.value, hostKey.value, device.value));
  }

  /** A field of base64 text: nothing to escape, within its array. */
  predicate Field(s: string) {
    s != "" && DataText(s) && |s| < FIELD_MAX
  }

  lemma ExportedField(pem: Bytes)
    ensures Exported(pem).Some? ==> Field(Exported(pem).value)
  {
    hide DataText, Encoded;
    Base64IsDataText(pem);
    EncodedLength(pem);
  }

  /**
   Whatever is generated: the ids are UUIDs, the fields fit their arrays and any plist,
   and the device certificate, decoded, is the PEM text of a certificate that reads
   back as what was signed for the device's own key.
   */
  lemma GeneratedIdentity(key: Bytes, b: Backend)
    requires Generated(key, b).Some?
    ensures var i := Generated(key, b).value;
      && i.hostId == Uuid(b.host) && i.systemBuid == Uuid(b.system)
      && Field(i.rootCertificate) && Field(i.hostCertificate) && Field(i.deviceCertificate)
    ensures KeyDer(Chars(key)).Some? && Issued(Chars(key), b.sha1, b.sign).Some?
    ensures var (cert, tbs, signature) := Issued(Chars(key), b.sha1, b.sign).value;
      && Decoded(Generated(key, b).value.deviceCertificate) == Some(Codes(Armored(cert)))
      && ReadCertificate(cert) == Some((tbs, [0] + signature)) && b.sign(tbs) == Some(signature)
  {
    hide Uuid, Issued, Armored, Encoded, Decoded, Field, ReadCertificate;
    ExportedField(b.root);
    ExportedField(b.hostCertificate);
    ExportedField(DevicePem(key, b));
    NotIssued(key, b);
    CertificateRoundTrip(Chars(key), b.sha1, b.sign);
    RoundTrip(DevicePem(key, b), false);
  }

  /** Host and root, key and certificate, each decode to what the backend gave for it, and the ids are those of its two draws. */
  lemma FieldsRead(key: Bytes, b: Backend)
    requires Generated(key, b).Some?
    ensures var i := Generated(key, b).value;
      && Decoded(i.rootKey) == Some(b.rootKey) && Decoded(i.rootCertificate) == Some(b.root)
      && Decoded(i.hostKey) == Some(b.hostKey) && Decoded(i.hostCertificate) == Some(b.hostCertificate)
      && i.hostId == Uuid(b.host) && i.systemBuid == Uuid(b.system)
  {
    hide Encoded, Decoded, DevicePem, Uuid;
    RoundTrip(b.rootKey, false);
    RoundTrip(b.root, false);
    RoundTrip(b.hostKey, false);
    RoundTrip(b.hostCertificate, false);
  }

  lemma NotIssued(key: Bytes, b: Backend)
    ensures Issued(Chars(key), b.sha1, b.sign).Some? ==> KeyDer(Chars(key)).Some?
  {
    hide KeyDer, Tbs, Certificate, Normalized;
  }

  // ------------------------------------------------------ a key that is accepted

  lemma {:induction false} EncodedText(b: Bytes)
    ensures forall i :: 0 <= i < |Encoded(b)| ==> '+' <= Encoded(b)[i] <= 'z' && Encoded(b)[i] != '-'
    ensures |Encoded(b)| == (|b| + 2) / 3 * 4
  {
    if b != [] {
      QuadText(Base64.Head(b));
      EncodedText(b[|Base64.Head(b)|..]);
    }
  }

  lemma QuadText(b: Triple)
    ensures forall i :: 0 <= i < 4 ==> '+' <= Quad(b)[i] <= 'z' && Quad(b)[i] != '-'
  {
    hide Packed, Digit;
    var v := Packed(b);
    DigitText(v / 0x4_0000 % 64);
    DigitText(v / 0x1000 % 64);
    DigitText(v / 0x40 % 64);
    DigitText(v % 64);
  }

  lemma DigitText(v: sextet)
    ensures '+' <= Digit(v) <= 'z' && Digit(v) != '-'
  {
  }

  lemma {:induction false} LinesLength(s: string)
    ensures |Lines(s)| <= |s| + |s| / 64
  {
    if |s| >= 64 {
      LinesLength(s[64..]);
    }
  }

  lemma CharsOfCodes(s: string)
    requires forall i :: 0 <= i < |s| ==> s[i] <= 'z'
    ensures Chars(Codes(s)) == s
  {
  }

  /** The PEM text of a key as a phone sends it. */
  function KeyPem(spki: Bytes): string {
    PUBLIC_BEGIN + Encoded(spki) + PUBLIC_END
  }

  lemma MarkersText()
    ensures forall i :: 0 <= i < |PUBLIC_BEGIN| ==> PUBLIC_BEGIN[i] <= 'z'
    ensures forall i :: 0 <= i < |PUBLIC_END| ==> PUBLIC_END[i] <= 'z'
    ensures |PUBLIC_BEGIN| == 26 && |PUBLIC_END| == 24 && PUBLIC_END[0] == '-'
  {
  }

  lemma KeyPemText(spki: Bytes)
    ensures Chars(Codes(KeyPem(spki))) == KeyPem(spki)
  {
    hide Encoded;
    MarkersText();
    EncodedText(spki);
    CharsOfCodes(KeyPem(spki));
  }

  lemma ClosingFound(spki: Bytes)
    ensures FindFrom(KeyPem(spki), PUBLIC_END, 26) == Some(26 + |Encoded(spki)|)
  {
    hide Encoded, FindFrom, PUBLIC_BEGIN, PUBLIC_END;
    MarkersText();
    EncodedText(spki);
    var pem, e := KeyPem(spki), Encoded(spki);
    forall k | 26 <= k < 26 + |e| ensures !OccursAt(pem, PUBLIC_END, k) {
      assert pem[k] == e[k - 26];
    }
    FindSkips(pem, PUBLIC_END, 26, 26 + |e|);
    assert pem[26 + |e|..26 + |e| + 24] == PUBLIC_END;
    FoundHere(pem, PUBLIC_END, 26 + |e|);
  }

  lemma KeyPemRead(spki: Bytes)
    requires 0 < |spki| <= 1024
    ensures KeyDer(KeyPem(spki)) == Some((spki, false))
  {
    hide Encoded, FindFrom, PUBLIC_BEGIN, PUBLIC_END, Decoded;
    MarkersText();
    var pem, e := KeyPem(spki), Encoded(spki);
    assert pem[0..26] == PUBLIC_BEGIN;
    FoundHere(pem, PUBLIC_BEGIN, 0);
    ClosingFound(spki);
    assert pem[26..26 + |e|] == e;
    RoundTrip(spki, false);
  }

  /** The backend issues keys and PEM texts that fit, and digests and signs what it is given. */
  ghost predicate Works(b: Backend) {
    && b.keys && (forall d :: b.sha1(d).Some?) && (forall d :: b.sign(d).Some?)
    && 0 < |b.rootKey| <= 6000 && 0 < |b.root| <= 6000 && 0 < |b.hostKey| <= 6000 && 0 < |b.hostCertificate| <= 6000
  }

  lemma PemExported(pem: Bytes)
    requires 0 < |pem| <= 6000
    ensures Exported(pem).Some?
  {
    hide Encoded;
    EncodedText(pem);
  }

  lemma ArmoredFits(cert: Bytes)
    requires |cert| <= 2400
    ensures 0 < |Armored(cert)| < CERTIFICATE_MAX
  {
    hide Encoded;
    EncodedText(cert);
    LinesLength(Encoded(cert));
  }

  lemma CertificateFits(tbs: Bytes, signature: Signature)
    requires |tbs| <= 1900
    ensures |Certificate(tbs, signature)| <= 2400
  {
    hide Tlv, SHA256_RSA;
    AlgorithmSize();
    TlvGrows(0x03, [0] + signature);
    TlvGrows(0x30, tbs + SHA256_RSA + Tlv(0x03, [0] + signature));
  }

  lemma WrappedFits(der: Bytes)
    requires |der| <= 980
    ensures Wrapped(der).Some? && 0 < |Wrapped(der).value.spki| <= 1024
  {
    hide Tlv, RSA_ALGORITHM;
    AlgorithmReads(RSA_ALGORITHM, []);
    TlvGrows(0x03, [0] + der);
    TlvGrows(0x30, RSA_ALGORITHM + Tlv(0x03, [0] + der));
  }

  /** For every RSA key of ordinary size and every working backend an identity is generated. */
  lemma GenerationSucceeds(der: Bytes, b: Backend)
    requires 0 < |der| <= 980 && Works(b)
    ensures var key := Codes(KeyPem(Wrapped(der).value.spki));
      0 < |key| <= 1500 && Generated(key, b).Some?
  {
    hide Issued, Armored, Exported, Wrapped, Uuid, Encoded, PUBLIC_BEGIN, PUBLIC_END;
    WrappedFits(der);
    var spki := Wrapped(der).value.spki;
    MarkersText();
    EncodedText(spki);
    var key := Codes(KeyPem(spki));
    KeyPemText(spki);
    DeviceCertified(der, b);
    var cert := Issued(KeyPem(spki), b.sha1, b.sign).value.0;
    ArmoredFits(cert);
    PemExported(DevicePem(key, b));
    PemExported(b.rootKey);
    PemExported(b.root);
    PemExported(b.hostKey);
    PemExported(b.hostCertificate);
  }

  lemma DeviceCertified(der: Bytes, b: Backend)
    requires 0 < |der| <= 980 && Wrapped(der).Some? && Works(b)
    ensures var issued := Issued(KeyPem(Wrapped(der).value.spki), b.sha1, b.sign);
      issued.Some? && |issued.value.0| <= 2400
  {
    hide KeyDer, KeyPem, Tbs, Certificate, Unwrapped, Wrapped;
    WrappedFits(der);
    var spki := Wrapped(der).value.spki;
    KeyPemRead(spki);
    KeyRoundTrip(der);
    var key := Unwrapped(spki).value;
    NormalizedFits(spki, false);
    var ski := b.sha1(key.rsa).value;
    TbsFits(key.spki, ski);
    CertificateFits(Tbs(key.spki, ski), b.sign(Tbs(key.spki, ski)).value);
  }

  // ----------------------------------------------------------------- what a UUID is

  /** The text ends with the digits of the bytes from `i` on. */
  lemma {:induction false} EndsWith(b: Random, i: nat)
    requires i <= 16
    ensures exists before: string :: HexFrom(b, 0) == before + HexFrom(b, i)
  {
    hide Group, HexFrom;
    if i == 0 {
      assert HexFrom(b, 0) == "" + HexFrom(b, 0);
    } else {
      EndsWith(b, i - 1);
      var before :| HexFrom(b, 0) == before + HexFrom(b, i - 1);
      var g := Group(b[i - 1], i - 1);
      HexStep(b, i - 1);
      assert before + (g + HexFrom(b, i)) == (before + g) + HexFrom(b, i);
    }
  }

  lemma GroupAt(b: Random, i: nat)
    requires i < 16 && DashBefore(i)
    ensures var u, at := HexFrom(b, 0), |HexFrom(b, 0)| - |HexFrom(b, i)|;
      at >= 0 && at + 3 <= |u| && u[at] == '-' && u[at + 1] == HEX[b[i] / 0x10]
  {
    hide HexFrom, HEX;
    EndsWith(b, i);
    var before :| HexFrom(b, 0) == before + HexFrom(b, i);
    OneGroup(b, i);
  }

  lemma OneGroup(b: Random, i: nat)
    requires i < 16 && DashBefore(i)
    ensures |HexFrom(b, i)| >= 3 && HexFrom(b, i)[0] == '-' && HexFrom(b, i)[1] == HEX[b[i] / 0x10]
  {
    hide HEX, HexFrom;
    HexStep(b, i);
  }

  lemma HexStep(b: Random, i: nat)
    requires i < 16
    ensures HexFrom(b, i) == Group(b[i], i) + HexFrom(b, i + 1)
  {
    hide Group;
  }

  lemma DashesLeft()
    ensures Dashes(0) == Dashes(4) == 4 && Dashes(6) == 3 && Dashes(8) == 2 && Dashes(10) == 1
  {
  }

  lemma Digits(v: byte)
    ensures v / 0x10 == 4 ==> HEX[v / 0x10] == '4'
    ensures 8 <= v / 0x10 <= 11 ==> HEX[v / 0x10] in "89AB"
  {
  }

  /** A UUID is 36 characters, dashes where they belong, version 4 and the variant of RFC 4122 (section 4.4). */
  lemma UuidShape(b: Random)
    ensures var u := Uuid(b);
      |u| == 36 && u[8] == '-' && u[13] == '-' && u[18] == '-' && u[23] == '-' && u[14] == '4' && u[19] in "89AB"
  {
    hide HexFrom, Dashes, Quiet;
    var m := Marked(b);
    DashesLeft();
    HexFromShape(m, 0);
    HexFromShape(m, 4);
    HexFromShape(m, 6);
    HexFromShape(m, 8);
    HexFromShape(m, 10);
    GroupAt(m, 4);
    GroupAt(m, 6);
    GroupAt(m, 8);
    GroupAt(m, 10);
    Digits(m[6]);
    Digits(m[8]);
  }
}
