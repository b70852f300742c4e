/**
 The pairing session (src/pair_session.cpp): it asks for the device's public key,
 sends one Pair request built from the identity generated for that key, and waits
 for the reply that names the request.
 */
module PairSession {
  import opened Bytes
  import opened Base64
  import opened DerX509
  import opened PairIdentity
  import opened PairProtocol

  function MaterialOf(i: Identity): Material {
    Material(i.hostId, i.systemBuid, i.hostCertificate, i.deviceCertificate, i.rootCertificate)
  }

  /** A plist behind its big-endian length. */
  datatype Frame = Frame(length: dword, xml: string)

  function Framed(xml: string): Frame {
    Frame(Wrap32(|xml|), xml)
  }

  function GetValueXml(key: string): string {
    Render(HeadTags()[..4] + Entry("string", "Label", "iPhoneTether360")
           + Entry("string", "Request", "GetValue") + Entry("string", "Key", key) + Ends())
  }

  function GetValueFrame(key: string, cap: nat): Option<Frame> {
    if key == "" || cap < 5 || |GetValueXml(key)| + 1 > cap - 4 then None else Some(Framed(GetValueXml(key)))
  }

  method BuildPairingFrame(i: Identity, validate: bool, cap: nat) returns (r: Option<Frame>)
    ensures r == PairingFrame(i, validate, cap)
  {
    hide Buildable, RequestXml;
    if cap < 5 {
      return None;
    }
    var xml := BuildPairingRequestXml(if validate then "ValidatePair" else "Pair", MaterialOf(i), !validate, cap - 4);
    return if xml.None? then None else Some(Framed(xml.value));
  }

  function PairingFrame(i: Identity, validate: bool, cap: nat): Option<Frame> {
    var request := if validate then "ValidatePair" else "Pair";
    var xml := RequestXml(request, MaterialOf(i), !validate);
    if cap < 5 || !Buildable(request, MaterialOf(i)) || |xml| + 1 > cap - 4 then None else Some(Framed(xml))
  }

  function PublicKey(xml: string, cap: nat): Bytes {
    var encoded := DataValue(xml, "Value", 6144);
    if cap < 2 || encoded.None? then []
    else
      var key := Decoded(encoded.value);
      if key.None? || |key.value| > cap - 1 then [] else key.value
  }

  method ParseDevicePublicKeyXml(xml: string, cap: nat) returns (key: Bytes)
    ensures key == PublicKey(xml, cap)
  {
    hide DataValue, Decoded;
    if cap < 2 {
      return [];
    }
    var encoded := XmlExtractDataB64Value(xml, "Value", 6144);
    if encoded.None? {
      return [];
    }
    key := Decode(encoded.value, cap - 1);
  }

  const KEY_MAX := 4096

  datatype SessionState = Idle | GetValueSent | PairSent | TrustAsked | SessionPaired | SessionDenied | SessionFailed

  datatype Session = Session(state: SessionState, identity: Identity)

  const FRESH := Session(Idle, NO_IDENTITY)

  function Begun(s: Session, cap: nat): (Session, Option<Frame>) {
    var frame := GetValueFrame("DevicePublicKey", cap);
    if s.state != Idle then (s, None)
    else if frame.None? then (s, None)
    else (s.(state := GetValueSent), frame)
  }

  function AfterKey(s: Session, xml: string, backend: Backend, cap: nat): (Session, Option<Frame>) {
    var key := PublicKey(xml, KEY_MAX);
    var generated := Generated(key, backend);
    if s.state != GetValueSent then (s, None)
    else if key == [] then (s.(state := SessionFailed), None)
    else if generated.None? then (Session(SessionFailed, NO_IDENTITY), None)
    else
      var t := s.(identity := generated.value);
      var frame := PairingFrame(generated.value, false, cap);
      if frame.None? then (t.(state := SessionFailed), None) else (t.(state := PairSent), frame)
  }

  function AfterReply(s: Session, xml: string): (Session, PairReply) {
    var r := ParsePairingReplyXml(xml, "Pair");
    if s.state != PairSent && s.state != TrustAsked then (s, Invalid)
    else (s.(state := match r
                      case Success => SessionPaired
                      case PendingTrust => TrustAsked
                      case Denied => SessionDenied
                      case _ => SessionFailed), r)
  }

  class PairSession {
    var state: SessionState
    var identity: Identity

    function View(): Session
      reads this
    {
      Session(state, identity)
    }

    constructor ()
      ensures View() == FRESH
    {
      state, identity := Idle, NO_IDENTITY;
    }

    method Reset()
      modifies this
      ensures View() == FRESH
    {
      state, identity := Idle, NO_IDENTITY;
    }

    method Begin(cap: nat) returns (frame: Option<Frame>)
      modifies this
      ensures (View(), frame) == Begun(old(View()), cap)
    {
      hide GetValueFrame;
      if state != Idle {
        return None;
      }
      frame := GetValueFrame("DevicePublicKey", cap);
      if frame.Some? {
        state := GetValueSent;
      }
    }

    method OnDevicePublicKeyReply(xml: string, backend: Backend, cap: nat) returns (frame: Option<Frame>)
      modifies this
      ensures (View(), frame) == AfterKey(old(View()), xml, backend, cap)
    {
      hide PublicKey, PairingFrame, Generated;
      if state != GetValueSent {
        return None;
      }
      var key := ParseDevicePublicKeyXml(xml, KEY_MAX);
      if key == [] {
        state := SessionFailed;
        return None;
      }
      var generated := GeneratePairIdentity(key, backend);
      if generated.None? {
        identity, state := NO_IDENTITY, SessionFailed;
        return None;
      }
      identity := generated.value;
      frame := BuildPairingFrame(identity, false, cap);
      state := if frame.None? then SessionFailed else PairSent;
    }

    method OnPairReply(xml: string) returns (r: PairReply)
      modifies this
      ensures (View(), r) == AfterReply(old(View()), xml)
    {
      hide ParsePairingReplyXml;
      if state != PairSent && state != TrustAsked {
        return Invalid;
      }
      r := ParsePairingReplyXml(xml, "Pair");
      match r {
        case Success => state := SessionPaired;
        case PendingTrust => state := TrustAsked;
        case Denied => state := SessionDenied;
        case _ => state := SessionFailed;
      }
    }
  }

  /** What is generated can be put in a request, and every field is plain base64 text of its array's size. */
  lemma GeneratedMaterial(key: Bytes, backend: Backend)
    requires Generated(key, backend).Some?
    ensures var i := Generated(key, backend).value;
      && Buildable("Pair", MaterialOf(i)) && Certificates(MaterialOf(i))
      && Escaped(i.hostId) == i.hostId && Escaped(i.systemBuid) == i.systemBuid
      && |i.hostId| == |i.systemBuid| == 36
      && |i.rootCertificate| < FIELD_MAX && |i.hostCertificate| < FIELD_MAX && |i.deviceCertificate| < FIELD_MAX
  {
    hide Generated, Uuid, Issued, Armored, Decoded, Escaped, ReadCertificate, KeyDer;
    GeneratedIdentity(key, backend);
    UuidUnique(backend.host, backend.host);
    UuidUnique(backend.system, backend.system);
    QuietEscapes(Uuid(backend.host));
    QuietEscapes(Uuid(backend.system));
  }

  lemma {:induction false} QuietEscapes(s: string)
    requires Quiet(s)
    ensures Escaped(s) == s
  {
    if s != "" {
      QuietEscapes(s[1..]);
      assert [s[0]] + s[1..] == s;
    }
  }

  /**
   The request sent for a device key is a Pair request that carries the identity
   generated for it: a reader of the frame extracts exactly its fields.
   */
  lemma RequestCarriesIdentity(s: Session, xml: string, backend: Backend, cap: nat)
    ensures var (t, frame) := AfterKey(s, xml, backend, cap);
      frame.Some? ==>
        var i := Generated(PublicKey(xml, KEY_MAX), backend);
        && i.Some? && t == Session(PairSent, i.value) && s.state == GetValueSent
        && StringValue(frame.value.xml, "Request", 64) == Some("Pair")
        && StringValue(frame.value.xml, "HostID", 256) == Some(i.value.hostId)
        && StringValue(frame.value.xml, "SystemBUID", 256) == Some(i.value.systemBuid)
        && DataValue(frame.value.xml, "RootCertificate", 8192) == Some(i.value.rootCertificate)
        && DataValue(frame.value.xml, "HostCertificate", 8192) == Some(i.value.hostCertificate)
        && DataValue(frame.value.xml, "DeviceCertificate", 8192) == Some(i.value.deviceCertificate)
  {
    hide PublicKey, StringValue, DataValue, RequestXml, Buildable, Certificates, Generated, Escaped;
    if AfterKey(s, xml, backend, cap).1.Some? {
      var key := PublicKey(xml, KEY_MAX);
      var m := MaterialOf(Generated(key, backend).value);
      GeneratedMaterial(key, backend);
      PairingRoundTrip("Pair", m, true, 64);
      PairingRoundTrip("Pair", m, true, 256);
      PairingRoundTrip("Pair", m, true, 8192);
    }
  }
}
