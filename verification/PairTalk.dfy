/**
 The pairing conversation with a phone that answers what it is asked (src/usbmux_probe.cpp,
 src/pair_session.cpp, src/lockdown_probe.cpp). The phone reads every frame the probe sends
 and replies to the request it finds there; from the installed driver on such a phone is
 paired, and this is what it has been asked.
 */
module PairTalk {
  import opened Bytes
  import opened Base64
  import opened PairIdentity
  import opened PairProtocol
  import opened PairSession
  import opened PairGate
  import opened PairRace

  // ------------------------------------------------------------- reading a request

  /** The request of a frame whose length is that of its document. */
  function RequestOf(q: Frame): Option<string> {
    if q.length != |q.xml| then None else StringValue(q.xml, "Request", 64)
  }

  function KeyAsked(q: Frame): Option<string> {
    StringValue(q.xml, "Key", 64)
  }

  predicate Asks(q: Frame, key: string) {
    RequestOf(q) == Some("GetValue") && KeyAsked(q) == Some(key)
  }

  /** The tags in front of the request. */
  function Prolog(): seq<Tag> {
    HeadTags()[..4] + Entry("string", "Label", "iPhoneTether360")
  }

  lemma PrologPlain(key: string)
    requires key != "Label" && key != "PairRecord"
    ensures AllClean(Prolog()) && KeyFree(Prolog(), key)
  {
    hide Clean;
    HeadClean();
    HeadKeyFree(key);
    assert Prolog() == HeadTags()[..8];
  }

  lemma Words()
    ensures Plain("string") && Without("Request", '<') && Without("Key", '<') && Plain("GetValue") && Plain("QueryType")
    ensures '&' !in "GetValue" && '&' !in "QueryType"
  {
  }

  /** The first entry behind the prolog is the request. */
  lemma RequestFound(doc: string, request: string, rest: seq<Tag>)
    requires doc == Render(Prolog() + Entry("string", "Request", request) + rest)
    requires Plain(request) && '&' !in request && |request| < 64
    ensures StringValue(doc, "Request", 64) == Some(request)
  {
    hide Render, Entry, Prolog, AllClean, KeyFree, FindValue;
    Words();
    PrologPlain("Request");
    RenderAppend(Prolog() + Entry("string", "Request", request), rest);
    RenderAppend(Prolog(), Entry("string", "Request", request));
    ValueFound(doc, Prolog(), "string", "Request", request);
    UnescapePlain(request);
  }

  lemma KeyFound(doc: string, key: string, rest: seq<Tag>)
    requires doc == Render(Prolog() + Entry("string", "Request", "GetValue") + Entry("string", "Key", key) + rest)
    requires Plain(key) && '&' !in key && |key| < 64
    ensures StringValue(doc, "Key", 64) == Some(key)
  {
    hide Render, Entry, Prolog, AllClean, KeyFree, FindValue, Plain;
    Words();
    PrologPlain("Key");
    var before := Prolog() + Entry("string", "Request", "GetValue");
    RequestEntry();
    KeyFreeAppend(Prolog(), Entry("string", "Request", "GetValue"), "Key");
    RenderAppend(before + Entry("string", "Key", key), rest);
    RenderAppend(before, Entry("string", "Key", key));
    assert Without(key, '<') by {
      PlainWithout(key);
    }
    ValueFound(doc, before, "string", "Key", key);
    UnescapePlain(key);
  }

  lemma PlainWithout(s: string)
    requires Plain(s)
    ensures Without(s, '<')
  {
  }

  lemma RequestEntry()
    ensures var e := Entry("string", "Request", "GetValue"); AllClean(e) && KeyFree(e, "Key")
  {
    hide AllClean, KeyFree;
    Words();
    EntryClean("string", "Request", "GetValue");
    EntryKeyFree("string", "Request", "GetValue", "Key");
  }

  /** A phone that reads a query finds the request and the key that was asked for. */
  lemma QueryReads(key: string, q: Frame)
    requires GetValueFrame(key, QUERY_MAX) == Some(q) && Plain(key) && '&' !in key && |key| < 64
    ensures Asks(q, key)
  {
    hide Render, Entry, FindValue, Plain, Ends;
    Words();
    var a, b, c := Prolog(), Entry("string", "Request", "GetValue"), Entry("string", "Key", key);
    assert a + b + (c + Ends()) == a + b + c + Ends();
    assert q.xml == Render(a + b + c + Ends());
    RequestFound(q.xml, "GetValue", c + Ends());
    KeyFound(q.xml, key, Ends());
  }

  lemma QueryTypeFits()
    ensures |QueryType().xml| + 4 <= QUERY_MAX && QueryType().length == |QueryType().xml|
  {
    hide Render, Entry, Ends, Size;
    var a, b := Prolog(), Entry("string", "Request", "QueryType");
    PrologSize();
    EntrySize("string", "Label", "iPhoneTether360");
    EntrySize("string", "Request", "QueryType");
    EndsSize();
    SizeAppend(HeadTags()[..4], Entry("string", "Label", "iPhoneTether360"));
    SizeAppend(a, b);
    SizeAppend(a + b, Ends());
    RenderSize(a + b + Ends());
  }

  lemma QueryTypeReads()
    ensures RequestOf(QueryType()) == Some("QueryType") && |QueryType().xml| + 4 <= QUERY_MAX
  {
    hide Render, Entry, FindValue, Plain, Ends;
    Words();
    QueryTypeFits();
    RequestFound(QueryType().xml, "QueryType", Ends());
  }

  lemma PairReads(i: Identity, validate: bool, q: Frame)
    requires PairingFrame(i, validate, PAIR_FRAME_MAX) == Some(q) && Certificates(MaterialOf(i))
    ensures RequestOf(q) == Some(if validate then "ValidatePair" else "Pair") && Carries(q, i)
  {
    hide RequestXml, Buildable, Certificates, StringValue, DataValue;
    var request := if validate then "ValidatePair" else "Pair";
    PairWords();
    PairingRoundTrip(request, MaterialOf(i), !validate, 64);
    PairingRoundTrip(request, MaterialOf(i), !validate, 8192);
  }

  lemma PairWords()
    ensures Without("Pair", '<') && Without("ValidatePair", '<') && '&' !in "Pair" && '&' !in "ValidatePair"
  {
  }

  /** The frame carries the identity, read field by field. */
  predicate Carries(q: Frame, i: Identity) {
    && (|i.hostId| < 8192 ==> StringValue(q.xml, "HostID", 8192) == Some(i.hostId))
    && (|i.systemBuid| < 8192 ==> StringValue(q.xml, "SystemBUID", 8192) == Some(i.systemBuid))
    && (|i.deviceCertificate| < 8192 ==> DataValue(q.xml, "DeviceCertificate", 8192) == Some(i.deviceCertificate))
    && (|i.hostCertificate| < 8192 ==> DataValue(q.xml, "HostCertificate", 8192) == Some(i.hostCertificate))
    && (|i.rootCertificate| < 8192 ==> DataValue(q.xml, "RootCertificate", 8192) == Some(i.rootCertificate))
  }

  // ------------------------------------------------------------------- the phone

  /** What a phone replies to a request, by what it reads there. */
  function Says(f: Phone, trusts: bool, q: Frame): string {
    if RequestOf(q) == Some("QueryType") then TypeReply()
    else if Asks(q, "UniqueDeviceID") then Answer("string", f.udid)
    else if Asks(q, "WiFiAddress") then f.wifi
    else if Asks(q, "DevicePublicKey") then Answer("data", Encoded(f.key))
    else if RequestOf(q) == Some("Pair") then if trusts then SuccessReply() else TrustReply()
    else if RequestOf(q) == Some("ValidatePair") then KnownReply()
    else ""
  }

  /** The probe, and all that the phone has been asked. */
  datatype Talk = Talk(probe: Probe, heard: seq<Frame>)

  function Hear(t: Talk, e: Event): Talk {
    Talk(Step(t.probe, e), t.heard + Asked(t.probe, e))
  }

  function Last(t: Talk): Frame
    requires t.heard != []
  {
    t.heard[|t.heard| - 1]
  }

  /** The phone answers the last request. */
  function Turn(f: Phone, b: Backend, trusts: bool, t: Talk): Talk
    requires t.heard != []
  {
    Hear(t, Got(Says(f, trusts, Last(t)), b))
  }

  /** The phone is attached and the link to lockdownd set up; the first request goes out. */
  function Linked(): Talk {
    Hear(Hear(Hear(Hear(Talk(START, []), Attach(true, true, true)), ControlDone(true, Queued)),
              VersionReply(true, Queued, Queued)), SynReply(true, Queued, Queued))
  }

  lemma LinkedAsks()
    ensures Linked() == Talk(At(QuerySent, FRESH, None), [QueryType()])
  {
    hide AskedAfterPlist, AfterPlist, QueryType;
    assert [] + [QueryType()] == [QueryType()];
  }

  lemma KeyWords()
    ensures Plain("UniqueDeviceID") && '&' !in "UniqueDeviceID" && Plain("WiFiAddress") && '&' !in "WiFiAddress"
  {
  }

  lemma PublicKeyWord()
    ensures Plain("DevicePublicKey") && '&' !in "DevicePublicKey"
  {
  }

  function QueryFor(key: string): Frame {
    Framed(GetValueXml(key))
  }

  /** The three queries fit, and read as what they ask. */
  lemma Queries()
    ensures forall key | key in {"UniqueDeviceID", "WiFiAddress", "DevicePublicKey"} ::
              GetValueFrame(key, QUERY_MAX) == Some(QueryFor(key)) && Asks(QueryFor(key), key)
  {
    hide GetValueXml, Plain, StringValue;
    KeyWords();
    PublicKeyWord();
    forall key | key in {"UniqueDeviceID", "WiFiAddress", "DevicePublicKey"}
      ensures GetValueFrame(key, QUERY_MAX) == Some(QueryFor(key)) && Asks(QueryFor(key), key)
    {
      QueryFits(key);
      QueryReads(key, QueryFor(key));
    }
  }

  lemma FirstTurn(f: Phone, b: Backend, t: Talk)
    requires t == Talk(At(QuerySent, FRESH, None), [QueryType()])
    ensures Turn(f, b, false, t) == Talk(At(GetUdidSent, FRESH, None), [QueryType(), QueryFor("UniqueDeviceID")])
  {
    hide Step, GetValueFrame, GetValueXml, TypeReply, StringValue, QueryType, Contains;
    QueryTypeReads();
    Queries();
    AsksUdid(t.probe, b);
    TypeAnswer();
    assert Asked(t.probe, Got(TypeReply(), b)) == [QueryFor("UniqueDeviceID")];
  }

  lemma UdidTurn(f: Phone, b: Backend, t: Talk)
    requires Pairable(f, b) && t.probe == At(GetUdidSent, FRESH, None) && t.heard != [] && Last(t) == QueryFor("UniqueDeviceID")
    ensures Turn(f, b, false, t) == Talk(At(GetWifiSent, FRESH, None), t.heard + [QueryFor("WiFiAddress")])
  {
    hide Step, GetValueFrame, GetValueXml, StringValue, Answer, CString, Generated;
    Queries();
    AsksWifi(t.probe, f.udid, b);
    UdidAnswer(f.udid);
    AnswerWhole("string", f.udid);
    assert Asked(t.probe, Got(Answer("string", f.udid), b)) == [QueryFor("WiFiAddress")];
  }

  lemma WifiTurn(f: Phone, b: Backend, t: Talk)
    requires Pairable(f, b) && t.probe == At(GetWifiSent, FRESH, None) && t.heard != [] && Last(t) == QueryFor("WiFiAddress")
    ensures Turn(f, b, false, t)
         == Talk(At(PublicKeySent, FRESH.(state := GetValueSent), None), t.heard + [QueryFor("DevicePublicKey")])
  {
    hide Step, GetValueFrame, GetValueXml, StringValue, Generated;
    Queries();
    AsksKey(t.probe, f.wifi, b);
    assert Asked(t.probe, Got(f.wifi, b)) == [QueryFor("DevicePublicKey")];
  }

  lemma KeyTurn(f: Phone, b: Backend, t: Talk)
    requires Pairable(f, b) && t.heard != [] && Last(t) == QueryFor("DevicePublicKey")
    requires t.probe == At(PublicKeySent, FRESH.(state := GetValueSent), None)
    ensures var i := Generated(f.key, b).value;
            var frame := PairingFrame(i, false, PAIR_FRAME_MAX);
      && frame.Some? && RequestOf(frame.value) == Some("Pair") && Carries(frame.value, i)
      && Turn(f, b, false, t) == Talk(At(PairRequested, Session(PairSent, i), frame), t.heard + [frame.value])
  {
    hide Step, GetValueFrame, GetValueXml, StringValue, Generated, Answer, Encoded, AfterKey, PairingFrame, CString, Certificates,
         Carries, Escaped, Buildable;
    Queries();
    AsksPair(t.probe, f.key, b);
    KeyWhole(f.key);
    AnswerWhole("data", Encoded(f.key));
    KeyTaken(f.key, b);
    var i := Generated(f.key, b).value;
    GeneratedMaterial(f.key, b);
    PairReads(i, false, PairingFrame(i, false, PAIR_FRAME_MAX).value);
    assert Asked(t.probe, Got(Answer("data", Encoded(f.key)), b)) == [PairingFrame(i, false, PAIR_FRAME_MAX).value];
  }

  /** A phone that does not trust yet leaves the probe waiting; one that trusts is paired. Neither is asked anything more. */
  lemma PairTurn(f: Phone, b: Backend, trusts: bool, t: Talk, i: Identity)
    requires t.probe.attached && t.probe.state == PairRequested && t.heard != [] && RequestOf(Last(t)) == Some("Pair")
    requires t.probe.session == Session(PairSent, i) || t.probe.session == Session(TrustAsked, i)
    ensures Turn(f, b, trusts, t) ==
      if trusts then Talk(t.probe.(state := Paired, ready := true, session := Session(SessionPaired, i)), t.heard)
      else Talk(t.probe.(state := TrustPending, session := Session(TrustAsked, i)), t.heard)
  {
    hide ParsePairingReplyXml, TrustReply, SuccessReply, CString, StringValue;
    TrustAnswer();
    TrustWhole();
    SuccessAnswer();
    SuccessWhole();
    assert t.heard + [] == t.heard;
  }

  /** One attempt of the retry thread, undisturbed: the same frame goes out again. */
  function Retried(t: Talk): Talk {
    Hear(Hear(Hear(t, RetryTest(true)), RetryStore), RetrySend(Queued))
  }

  lemma RetryTurn(t: Talk, frame: Frame)
    requires t.probe.attached && t.probe.state == TrustPending && t.probe.pairFrame == Some(frame) && !t.probe.armed
    ensures Retried(t) == Talk(t.probe.(state := PairRequested), t.heard + [frame])
  {
    hide AskedAfterPlist, AfterPlist;
    assert t.heard + [] + [] == t.heard;
  }

  /** All that a phone is asked until it is trusted. */
  function Requests(i: Identity): seq<Frame>
    requires PairingFrame(i, false, PAIR_FRAME_MAX).Some?
  {
    [QueryType(), QueryFor("UniqueDeviceID"), QueryFor("WiFiAddress"), QueryFor("DevicePublicKey"),
     PairingFrame(i, false, PAIR_FRAME_MAX).value]
  }

  /** Five answers later. */
  function Introduced(f: Phone, b: Backend): Talk {
    LinkedAsks();
    var t := Turn(f, b, false, Linked());
    var u := Turn(f, b, false, t);
    var v := Turn(f, b, false, u);
    var w := Turn(f, b, false, v);
    Turn(f, b, false, w)
  }

  /**
   A phone that answers every request by what it reads in it, and can be paired: it is
   asked for its type, its identifier, its address and its key, and then to pair with the
   identity generated for that key; the probe waits for its user. Each retry sends the
   same frame again, and once the phone trusts, the gate opens.
   */
  lemma Conversation(f: Phone, b: Backend)
    requires Pairable(f, b)
    ensures var i := Generated(f.key, b).value;
            var t := Introduced(f, b);
      && PairingFrame(i, false, PAIR_FRAME_MAX).Some? && t == Talk(Waiting(i), Requests(i))
      && RequestOf(Last(t)) == Some("Pair") && Carries(Last(t), i)
      && (var r := Retried(t);
          && r.heard == t.heard + [Last(t)] && Turn(f, b, false, r) == Talk(t.probe, r.heard)
          && Turn(f, b, true, r).heard == r.heard && Turn(f, b, true, r).probe.ready && Turn(f, b, true, r).probe.state == Paired)
  {
    hide Step, Hear, Turn, Linked, Generated, PairingFrame, QueryType, QueryFor, StringValue, Says, Retried, Carries;
    LinkedAsks();
    var i := Generated(f.key, b).value;
    var s := Linked();
    FirstTurn(f, b, s);
    var t := Turn(f, b, false, s);
    UdidTurn(f, b, t);
    var u := Turn(f, b, false, t);
    WifiTurn(f, b, u);
    var v := Turn(f, b, false, u);
    KeyTurn(f, b, v);
    var w := Turn(f, b, false, v);
    PairTurn(f, b, false, w, i);
    var x := Turn(f, b, false, w);
    RetryTurn(x, PairingFrame(i, false, PAIR_FRAME_MAX).value);
    PairTurn(f, b, false, Retried(x), i);
    PairTurn(f, b, true, Retried(x), i);
  }

  /** With a stored record, the answer to the identifier has the probe ask to validate it. */
  lemma RecordTurn(f: Phone, record: Identity, b: Backend, t: Talk)
    requires f.udid != "" && |f.udid| < 96 && '<' !in f.udid && '&' !in f.udid && '\0' !in f.udid
    requires t.probe == At(GetUdidSent, FRESH, None) && PairingFrame(record, true, PAIR_FRAME_MAX).Some?
    ensures var frame := PairingFrame(record, true, PAIR_FRAME_MAX);
      Hear(t, GotKnown(f.udid, record, b)) == Talk(At(ValidateSent, FRESH, frame), t.heard + [frame.value])
  {
    hide Step, PairingFrame, GetValueFrame, StringValue, Answer, CString;
    ValidationAsked(t.probe, f.udid, record, b);
    UdidAnswer(f.udid);
    AnswerWhole("string", f.udid);
    assert Asked(t.probe, GotKnown(f.udid, record, b)) == [PairingFrame(record, true, PAIR_FRAME_MAX).value];
  }

  lemma ValidTurn(f: Phone, b: Backend, t: Talk, frame: Option<Frame>)
    requires t.probe == At(ValidateSent, FRESH, frame) && t.heard != [] && RequestOf(Last(t)) == Some("ValidatePair")
    ensures Turn(f, b, false, t) == Talk(t.probe.(state := Validated, ready := true), t.heard)
  {
    hide Step, StringValue, KnownReply, ParsePairingReplyXml, CString, GetValueFrame;
    ValidationTaken(t.probe, frame, b);
    KnownAnswer();
    KnownWhole();
    XmlWhole(Got(KnownReply(), b).reply);
    assert t.heard + [] == t.heard;
  }

  lemma AsksIdentifier(f: Phone, t: Talk)
    requires t.heard != [] && Last(t) == QueryFor("UniqueDeviceID")
    ensures Says(f, false, Last(t)) == Answer("string", f.udid)
  {
    hide GetValueXml, GetValueFrame, StringValue;
    Queries();
  }

  /**
   A phone for which a record is stored is asked for its type and its identifier, and then
   to validate exactly that record; if it knows the record, the gate opens at once.
   */
  lemma KnownConversation(f: Phone, record: Identity, b: Backend)
    requires f.udid != "" && |f.udid| < 96 && '<' !in f.udid && '&' !in f.udid && '\0' !in f.udid
    requires PairingFrame(record, true, PAIR_FRAME_MAX).Some? && Certificates(MaterialOf(record))
    ensures Linked().heard != []
    ensures var t := Turn(f, b, false, Linked());
            var frame := PairingFrame(record, true, PAIR_FRAME_MAX).value;
      && t.heard == [QueryType(), QueryFor("UniqueDeviceID")] && Says(f, false, Last(t)) == Answer("string", f.udid)
      && var u := Hear(t, GotKnown(f.udid, record, b));
         && u.heard == t.heard + [frame] && RequestOf(frame) == Some("ValidatePair") && Carries(frame, record)
         && Turn(f, b, false, u).probe.ready && Turn(f, b, false, u).probe.state == Validated
         && Turn(f, b, false, u).heard == u.heard
  {
    hide Step, Hear, Turn, Linked, Says, PairingFrame, QueryType, QueryFor, StringValue, Answer, Carries, Certificates, GotKnown;
    LinkedAsks();
    FirstTurn(f, b, Linked());
    var t := Turn(f, b, false, Linked());
    AsksIdentifier(f, t);
    RecordTurn(f, record, b, t);
    var frame := PairingFrame(record, true, PAIR_FRAME_MAX);
    PairReads(record, true, frame.value);
    ValidTurn(f, b, Hear(t, GotKnown(f.udid, record, b)), frame);
  }
}
