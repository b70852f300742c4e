/**
 The races of the trust-retry thread (src/usbmux_probe.cpp, TrustRetryThread) happen
 from the installed driver on: for every device key from which an identity can be
 generated, runs with the replies of a phone that end with the pairing gate open in
 an unpaired state. On the way: every query and every pair request with fields of
 ordinary length fits its buffer.
 */
module PairRace {
  import opened Bytes
  import opened Base64
  import opened DerX509
  import opened PairIdentity
  import opened PairProtocol
  import opened PairSession
  import opened PairGate
  import PairStores

  // -------------------------------------------------------------- document lengths

  function Size(tags: seq<Tag>): nat {
    if tags == [] then 0 else |tags[0].name| + 2 + |tags[0].text| + Size(tags[1..])
  }

  lemma {:induction false} RenderSize(tags: seq<Tag>)
    ensures |Render(tags)| == Size(tags)
  {
    if tags != [] {
      RenderSize(tags[1..]);
    }
  }

  lemma {:induction false} SizeAppend(a: seq<Tag>, b: seq<Tag>)
    ensures Size(a + b) == Size(a) + Size(b)
  {
    if a == [] {
      assert a + b == b;
    } else {
      assert (a + b)[1..] == a[1..] + b;
      SizeAppend(a[1..], b);
    }
  }

  lemma SizeOne(a: Tag)
    ensures Size([a]) == |a.name| + 2 + |a.text|
  {
    assert [a][1..] == [];
  }

  lemma SizeFour(a: Tag, b: Tag, c: Tag, d: Tag)
    ensures Size([a, b, c, d])
         == |a.name| + |a.text| + |b.name| + |b.text| + |c.name| + |c.text| + |d.name| + |d.text| + 8
  {
    assert [a, b, c, d] == [a] + [b] + [c] + [d];
    SizeAppend([a] + [b] + [c], [d]);
    SizeAppend([a] + [b], [c]);
    SizeAppend([a], [b]);
    SizeOne(a);
    SizeOne(b);
    SizeOne(c);
    SizeOne(d);
  }

  lemma EntrySize(kind: string, key: string, value: string)
    ensures Size(Entry(kind, key, value)) == 16 + 2 * |kind| + |key| + |value|
  {
    SizeFour(Tag("key", key), Tag("/key", ""), Tag(kind, value), Tag("/" + kind, ""));
  }

  lemma PrologSize()
    ensures |HeadTags()| == 11 && Size(HeadTags()[..4]) <= 250
  {
    DoctypeSize();
    var h := HeadTags();
    SizeFour(h[0], h[1], h[2], h[3]);
    assert h[..4] == [h[0], h[1], h[2], h[3]];
  }

  lemma DoctypeSize()
    ensures |DOCTYPE| <= 120
  {
    assert |DOCTYPE_KIND| <= 30;
    assert |DOCTYPE_NAME| <= 32;
    assert |DOCTYPE_SITE| <= 30;
    assert |DOCTYPE_FILE| <= 28;
  }

  lemma EndsSize()
    ensures Size(Ends()) == 15
  {
    assert Ends()[1..] == [Tag("/plist", "")] && Ends()[1..][1..] == [];
  }

  /** Every query for a key of ordinary length fits the query buffer. */
  lemma QueryFits(key: string)
    requires key != "" && |key| <= 500
    ensures GetValueFrame(key, QUERY_MAX).Some?
  {
    hide Render, Size, HeadTags, Entry, Ends;
    PrologSize();
    var head := HeadTags()[..4];
    var a, b := Entry("string", "Label", "iPhoneTether360"), Entry("string", "Request", "GetValue");
    var c := Entry("string", "Key", key);
    EntrySize("string", "Label", "iPhoneTether360");
    EntrySize("string", "Request", "GetValue");
    EntrySize("string", "Key", key);
    EndsSize();
    SizeAppend(head, a);
    SizeAppend(head + a, b);
    SizeAppend(head + a + b, c);
    SizeAppend(head + a + b + c, Ends());
    RenderSize(head + a + b + c + Ends());
  }

  // ------------------------------------------------------------ the pair request

  lemma HeadSize()
    ensures Size(HeadTags()) <= 350
  {
    hide Size;
    PrologSize();
    var h := HeadTags();
    var entry := Entry("string", "Label", "iPhoneTether360");
    var last := [Tag("key", "PairRecord"), Tag("/key", ""), Tag("dict", "")];
    assert h == h[..4] + entry + last;
    SizeAppend(h[..4] + entry, last);
    SizeAppend(h[..4], entry);
    EntrySize("string", "Label", "iPhoneTether360");
    assert last == [last[0]] + [last[1]] + [last[2]];
    SizeAppend([last[0]] + [last[1]], [last[2]]);
    SizeAppend([last[0]], [last[1]]);
    SizeOne(last[0]);
    SizeOne(last[1]);
    SizeOne(last[2]);
  }

  /** The identity's buffers hold 64 and 8192 characters. */
  predicate Ordinary(request: string, m: Material) {
    && |request| <= 12 && |Escaped(m.hostId)| <= 255 && |Escaped(m.systemBuid)| <= 255
    && |m.deviceCertificate| < 8192 && |m.hostCertificate| < 8192 && |m.rootCertificate| < 8192
  }

  function PartMax(n: nat): nat {
    if n == 1 || n == 2 || n == 4 then 8250 else if n == 0 then 350 else 320
  }

  function TotalMax(n: nat): nat {
    if n == 0 then PartMax(0) else TotalMax(n - 1) + PartMax(n)
  }

  lemma PartSize(n: nat, request: string, m: Material)
    requires Ordinary(request, m)
    ensures Size(Part(n, request, m)) <= PartMax(n)
  {
    hide Size, HeadTags, Entry, Escaped;
    if n == 0 {
      HeadSize();
    } else if n == 6 {
      SizeOne(Tag("/dict", ""));
    } else {
      KeysPlain(n);
      EntrySize(KindOf(n), KeyOf(n), ValueOf(n, request, m));
    }
  }

  lemma {:induction false} ThroughSize(n: nat, request: string, m: Material)
    requires Ordinary(request, m)
    ensures Size(Through(n, request, m)) <= TotalMax(n)
  {
    hide Size, Part, Ordinary, PartMax;
    PartSize(n, request, m);
    if n > 0 {
      ThroughSize(n - 1, request, m);
      SizeAppend(Through(n - 1, request, m), Part(n, request, m));
    }
  }

  lemma OptionsSize(extended: bool)
    ensures Size(Options(extended)) <= 120
  {
    if extended {
      var o := Options(true);
      assert o == [o[0], o[1], o[2], o[3]] + ([o[4]] + [o[5]] + [o[6]]);
      SizeFour(o[0], o[1], o[2], o[3]);
      SizeAppend([o[0], o[1], o[2], o[3]], [o[4]] + [o[5]] + [o[6]]);
      SizeAppend([o[4]] + [o[5]], [o[6]]);
      SizeAppend([o[4]], [o[5]]);
      SizeOne(o[4]);
      SizeOne(o[5]);
      SizeOne(o[6]);
    }
  }

  lemma TailSize(extended: bool)
    ensures Size(TailTags(extended)) <= 250
  {
    hide Size, Options, Ends;
    SizeAppend(Version() + Options(extended), Ends());
    SizeAppend(Version(), Options(extended));
    EntrySize("string", "ProtocolVersion", "2");
    OptionsSize(extended);
    EndsSize();
  }

  lemma TotalIs()
    ensures TotalMax(7) == 26380
  {
    assert TotalMax(2) == 16850 && TotalMax(4) == 25420;
  }

  /** Every request made of what the identity's buffers can hold fits the pair frame. */
  lemma PairFrameFits(i: Identity, validate: bool)
    requires var request := if validate then "ValidatePair" else "Pair";
      Buildable(request, MaterialOf(i)) && Ordinary(request, MaterialOf(i))
    ensures PairingFrame(i, validate, PAIR_FRAME_MAX).Some?
  {
    hide Size, Through, TailTags, Render, Buildable, Ordinary;
    var request := if validate then "ValidatePair" else "Pair";
    var m := MaterialOf(i);
    ThroughSize(7, request, m);
    TotalIs();
    TailSize(!validate);
    SizeAppend(Through(7, request, m), TailTags(!validate));
    RenderSize(RequestTags(request, m, !validate));
  }

  // ---------------------------------------------------------------- the replies

  /** A GetValue reply. */
  function Answer(kind: string, value: string): string {
    Render(Entry(kind, "Value", value))
  }

  lemma ValueKey()
    ensures Without("Value", '<') && Plain("string") && Plain("data")
  {
  }

  lemma AnswerFound(kind: string, value: string)
    requires (kind == "string" || kind == "data") && '<' !in value
    ensures FindValue(Answer(kind, value), "Value", kind) == Some(value)
  {
    hide FindValue, Entry, Plain;
    ValueKey();
    var doc := Answer(kind, value);
    assert Render([]) + Render(Entry(kind, "Value", value)) == doc;
    ValueFound(doc, [], kind, "Value", value);
  }

  lemma UdidAnswer(udid: string)
    requires udid != "" && |udid| < 96 && '<' !in udid && '&' !in udid
    ensures StringValue(Answer("string", udid), "Value", 96) == Some(udid)
  {
    hide FindValue, Answer;
    AnswerFound("string", udid);
    UnescapePlain(udid);
  }

  lemma KeyAnswer(key: Bytes)
    requires 0 < |key| <= 1500
    ensures PublicKey(Answer("data", Encoded(key)), KEY_MAX) == key
  {
    hide FindValue, Answer, Encoded, Decoded, Stripped;
    RoundTrip(key, false);
    EncodedText(key);
    AnswerFound("data", Encoded(key));
  }

  lemma {:induction false} NoNul(body: string)
    requires Without(body, '\0')
    ensures CString(body) == body
  {
    if body != "" {
      NoNul(body[1..]);
      assert [body[0]] + body[1..] == body;
    }
  }

  lemma EntryWhole(kind: string, key: string, value: string)
    requires Without(kind, '\0') && Without(key, '\0') && Without(value, '\0')
    ensures Without(Render(Entry(kind, key, value)), '\0')
  {
    RenderEntry(kind, key, value);
    assert Without("<key>", '\0') && Without("</key>", '\0') && Without("<", '\0') && Without(">", '\0') && Without("/", '\0');
  }

  lemma KindsWhole()
    ensures Without("string", '\0') && Without("data", '\0') && Without("Value", '\0')
  {
  }

  lemma AnswerWhole(kind: string, value: string)
    requires (kind == "string" || kind == "data") && Without(value, '\0')
    ensures CString(Answer(kind, value)) == Answer(kind, value) && Answer(kind, value) != ""
  {
    hide CString, Entry, Without;
    KindsWhole();
    EntryWhole(kind, "Value", value);
    NoNul(Answer(kind, value));
    RenderEntry(kind, "Value", value);
  }

  /** The reply to the first query: it names lockdownd. */
  function TypeReply(): string {
    Render(Entry("string", "Type", "com.apple.mobile.lockdown"))
  }

  lemma TypeAnswer()
    ensures Contains(TypeReply(), "com.apple.mobile.lockdown") && TypeReply() != ""
  {
    hide FindFrom, Entry, Render;
    var doc, name := TypeReply(), "com.apple.mobile.lockdown";
    assert doc[0..|doc|] == doc;
    EntryParts(doc, 0, "string", "Type", name);
    FindFromFinds(doc, name, 0, |KeyNeedle("Type")| + |Open("string")|);
  }

  function PairEntry(): seq<Tag> {
    Entry("string", "Request", "Pair")
  }

  function TrustEntry(): seq<Tag> {
    Entry("string", "Error", "PairingDialogResponsePending")
  }

  function TrustReply(): string {
    Render([Tag("plist", "")]) + Render(PairEntry()) + Render(TrustEntry())
  }

  lemma ReplyNames()
    ensures Without("Request", '<') && Without("Pair", '<') && Plain("string") && Clean(Tag("plist", ""))
  {
  }

  lemma TrustRequest()
    ensures ReplyMatches(TrustReply(), "Pair")
  {
    hide FindValue, Render, Entry, Plain, Clean;
    ReplyNames();
    var before := [Tag("plist", "")];
    assert KeyFree(before, "Request");
    ValueFound(TrustReply(), before, "string", "Request", "Pair");
    UnescapePlain("Pair");
  }

  lemma TrustWords()
    ensures Contains(TrustReply(), "<plist") && Contains(TrustReply(), "<key>Error</key>")
    ensures Contains(TrustReply(), "PairingDialogResponsePending")
  {
    hide FindFrom, Entry, OccursAt, EndsOrOpens, Render, PairEntry;
    var doc, tag := TrustReply(), Tag("plist", "");
    var a := Render([tag]) + Render(PairEntry());
    SplitDoc(doc, a, Render(TrustEntry()));
    EntryParts(doc, |a|, "string", "Error", "PairingDialogResponsePending");
    assert KeyNeedle("Error") == "<key>Error</key>";
    FindFromFinds(doc, "<key>Error</key>", 0, |a|);
    FindFromFinds(doc, "PairingDialogResponsePending", 0, |a| + |KeyNeedle("Error")| + |Open("string")|);
    PlistFirst(doc, tag, Render(PairEntry()) + Render(TrustEntry()));
  }

  lemma PlistFirst(doc: string, tag: Tag, rest: string)
    requires tag == Tag("plist", "") && doc == Render([tag]) + rest
    ensures Contains(doc, "<plist")
  {
    hide FindFrom;
    RenderOne(tag);
    assert RenderTag(tag) == "<plist" + ">";
    assert doc == "" + "<plist" + (">" + rest);
    assert OccursAt(doc, doc, 0);
    SubOccurs(doc, 0, "", "<plist", ">" + rest);
    FindFromFinds(doc, "<plist", 0, 0);
  }

  lemma TrustAnswer()
    ensures ParsePairingReplyXml(TrustReply(), "Pair") == PendingTrust
  {
    hide Contains, ReplyMatches, TrustReply;
    TrustRequest();
    TrustWords();
  }

  lemma TrustWhole()
    ensures CString(TrustReply()) == TrustReply() && TrustReply() != ""
  {
    hide CString, Entry, Without, Render;
    TrustNames();
    EntryWhole("string", "Request", "Pair");
    EntryWhole("string", "Error", "PairingDialogResponsePending");
    PlistWhole();
    WholeAppend(Render([Tag("plist", "")]), Render(PairEntry()));
    WholeAppend(Render([Tag("plist", "")]) + Render(PairEntry()), Render(TrustEntry()));
    NoNul(TrustReply());
  }

  lemma TrustNames()
    ensures Without("string", '\0') && Without("Request", '\0') && Without("Pair", '\0')
    ensures Without("Error", '\0') && Without("PairingDialogResponsePending", '\0')
  {
  }

  lemma PlistWhole()
    ensures Without(Render([Tag("plist", "")]), '\0') && Render([Tag("plist", "")]) != ""
  {
    RenderOne(Tag("plist", ""));
    assert RenderTag(Tag("plist", "")) == "<plist>";
  }

  lemma WholeAppend(a: string, b: string)
    requires Without(a, '\0') && Without(b, '\0')
    ensures Without(a + b, '\0')
  {
  }

  /** The reply of a phone that has been told to trust: it names the request and no error. */
  function SuccessReply(): string {
    Render([Tag("plist", "")] + PairEntry())
  }

  lemma SuccessText()
    ensures SuccessReply() == Render([Tag("plist", "")]) + Render(PairEntry())
  {
    hide Render, PairEntry;
    RenderAppend([Tag("plist", "")], PairEntry());
  }

  lemma SuccessWhole()
    ensures CString(SuccessReply()) == SuccessReply() && SuccessReply() != ""
  {
    hide CString, Entry, Without, Render, SuccessReply;
    SuccessText();
    TrustNames();
    EntryWhole("string", "Request", "Pair");
    PlistWhole();
    WholeAppend(Render([Tag("plist", "")]), Render(PairEntry()));
    NoNul(SuccessReply());
  }

  lemma SuccessRequest()
    ensures ReplyMatches(SuccessReply(), "Pair")
  {
    hide FindValue, Render, Entry, Plain, Clean, SuccessReply;
    SuccessText();
    ReplyNames();
    var before := [Tag("plist", "")];
    assert KeyFree(before, "Request");
    ValueFound(SuccessReply(), before, "string", "Request", "Pair");
    UnescapePlain("Pair");
  }

  lemma SuccessNoError()
    ensures !Contains(SuccessReply(), "<key>Error</key>")
  {
    hide FindFrom, Render, Entry, Plain, Clean, Without, AllClean, KeyFree;
    var doc, tags := SuccessReply(), [Tag("plist", "")] + PairEntry();
    ReplyNames();
    PairKeys();
    EntryClean("string", "Request", "Pair");
    EntryKeyFree("string", "Request", "Pair", "Error");
    KeyFreeAppend([Tag("plist", "")], PairEntry(), "Error");
    assert doc[0..|doc|] == doc;
    FindKeyAfter(doc, 0, tags, "Error");
    NothingAtEnd(doc, KeyNeedle("Error"));
    assert KeyNeedle("Error") == "<key>Error</key>";
  }

  lemma PairKeys()
    ensures Without("Error", '<') && Plain("Request") && Plain("Pair")
    ensures AllClean([Tag("plist", "")]) && KeyFree([Tag("plist", "")], "Error")
  {
    OptionKeys();
    ReplyNames();
  }

  lemma SuccessAnswer()
    ensures ParsePairingReplyXml(SuccessReply(), "Pair") == Success
  {
    hide Contains, ReplyMatches, SuccessReply, Render, PairEntry;
    SuccessRequest();
    SuccessNoError();
    SuccessText();
    PlistFirst(SuccessReply(), Tag("plist", ""), Render(PairEntry()));
  }

  // -------------------------------------------------------------------- the run

  /** What a phone is and has: its identifier and the text of its key. */
  datatype Phone = Phone(udid: string, wifi: string, key: Bytes)

  /** An identity can be generated for the phone. */
  ghost predicate Pairable(f: Phone, b: Backend) {
    && f.udid != "" && |f.udid| < 96 && '<' !in f.udid && '&' !in f.udid && '\0' !in f.udid && f.wifi != ""
    && 0 < |f.key| <= 1500 && Generated(f.key, b).Some?
  }

  /** A reply that arrives while every send succeeds and no record is stored. */
  function Got(body: string, b: Backend): Event {
    Plist(Reply(body, None, Some(b), true, Queued))
  }

  function Pairing(f: Phone, b: Backend): seq<Event> {
    [Attach(true, true, true), ControlDone(true, Queued), VersionReply(true, Queued, Queued),
     SynReply(true, Queued, Queued), Got(TypeReply(), b), Got(Answer("string", f.udid), b), Got(f.wifi, b),
     Got(Answer("data", Encoded(f.key)), b), Got(TrustReply(), b)]
  }

  /** The run up to its `n`-th event. */
  lemma AfterFirst(f: Phone, b: Backend, n: nat)
    requires n < 9
    ensures After(Pairing(f, b)[..n + 1]) == Step(After(Pairing(f, b)[..n]), Pairing(f, b)[n])
  {
    hide Step, Pairing, After;
    PairingEvents(f, b);
    var run := Pairing(f, b);
    AfterEvent(run[..n], run[n]);
    assert run[..n] + [run[n]] == run[..n + 1];
  }

  function At(state: ProbeState, session: Session, frame: Option<Frame>): Probe {
    Probe(state, false, true, session, frame, false)
  }

  lemma Connects(f: Phone, b: Backend)
    ensures After(Pairing(f, b)[..4]) == At(QuerySent, FRESH, None)
  {
    hide AfterPlist, GetValueFrame, Answer, TrustReply, TypeReply, Encoded;
    AfterFirst(f, b, 0);
    AfterFirst(f, b, 1);
    AfterFirst(f, b, 2);
    AfterFirst(f, b, 3);
    assert Pairing(f, b)[..0] == [];
  }

  lemma AsksUdid(p: Probe, b: Backend)
    requires p == At(QuerySent, FRESH, None)
    ensures Step(p, Got(TypeReply(), b)) == At(GetUdidSent, FRESH, None)
  {
    hide GetValueFrame, TypeReply, Contains;
    TypeAnswer();
    QueryFits("UniqueDeviceID");
  }

  lemma AsksWifi(p: Probe, udid: string, b: Backend)
    requires p == At(GetUdidSent, FRESH, None)
    requires udid != "" && |udid| < 96 && '<' !in udid && '&' !in udid && '\0' !in udid
    ensures Step(p, Got(Answer("string", udid), b)) == At(GetWifiSent, FRESH, None)
  {
    hide GetValueFrame, StringValue, Answer, CString;
    UdidAnswer(udid);
    AnswerWhole("string", udid);
    QueryFits("WiFiAddress");
  }

  lemma AsksKey(p: Probe, wifi: string, b: Backend)
    requires p == At(GetWifiSent, FRESH, None) && wifi != ""
    ensures Step(p, Got(wifi, b)) == At(PublicKeySent, FRESH.(state := GetValueSent), None)
  {
    hide GetValueFrame;
    QueryFits("DevicePublicKey");
  }

  lemma AsksPair(p: Probe, key: Bytes, b: Backend)
    requires p == At(PublicKeySent, FRESH.(state := GetValueSent), None)
    requires 0 < |key| <= 1500 && Generated(key, b).Some?
    ensures var i := Generated(key, b).value;
      && PairingFrame(i, false, PAIR_FRAME_MAX).Some?
      && Step(p, Got(Answer("data", Encoded(key)), b))
         == At(PairRequested, Session(PairSent, i), PairingFrame(i, false, PAIR_FRAME_MAX))
  {
    hide AfterKey, PairingFrame, Answer, Encoded, Generated, CString;
    EncodedText(key);
    KeyWhole(key);
    AnswerWhole("data", Encoded(key));
    KeyTaken(key, b);
  }

  lemma KeyTaken(key: Bytes, b: Backend)
    requires 0 < |key| <= 1500 && Generated(key, b).Some?
    ensures var i := Generated(key, b).value;
            var frame := PairingFrame(i, false, PAIR_FRAME_MAX);
      && frame.Some?
      && AfterKey(FRESH.(state := GetValueSent), Answer("data", Encoded(key)), b, PAIR_FRAME_MAX) == (Session(PairSent, i), frame)
  {
    hide PublicKey, PairingFrame, Answer, Encoded, Buildable, Generated, Escaped, Certificates;
    KeyAnswer(key);
    GeneratedMaterial(key, b);
    PairFrameFits(Generated(key, b).value, false);
  }

  lemma KeyWhole(key: Bytes)
    ensures Without(Encoded(key), '\0')
  {
    hide Encoded;
    EncodedText(key);
  }

  lemma AwaitsTrust(p: Probe, i: Identity, b: Backend)
    requires p.attached && p.state == PairRequested && p.session == Session(PairSent, i)
    ensures Step(p, Got(TrustReply(), b)) == p.(state := TrustPending, session := Session(TrustAsked, i))
  {
    hide ParsePairingReplyXml, TrustReply, CString;
    TrustAnswer();
    TrustWhole();
  }

  /** The probe that waits until its user trusts it. */
  function Waiting(i: Identity): Probe {
    At(TrustPending, Session(TrustAsked, i), PairingFrame(i, false, PAIR_FRAME_MAX))
  }

  lemma WaitsForTrust(f: Phone, b: Backend)
    requires Pairable(f, b)
    ensures After(Pairing(f, b)) == Waiting(Generated(f.key, b).value)
    ensures PairingFrame(Generated(f.key, b).value, false, PAIR_FRAME_MAX).Some?
  {
    hide Step, After, Pairing, PairingFrame, Answer, TrustReply, TypeReply, Encoded, Got, Generated;
    Connects(f, b);
    PairingEvents(f, b);
    var run := Pairing(f, b);
    AfterFirst(f, b, 4);
    AfterFirst(f, b, 5);
    AfterFirst(f, b, 6);
    AfterFirst(f, b, 7);
    AfterFirst(f, b, 8);
    AsksUdid(After(run[..4]), b);
    AsksWifi(After(run[..5]), f.udid, b);
    AsksKey(After(run[..6]), f.wifi, b);
    AsksPair(After(run[..7]), f.key, b);
    AwaitsTrust(After(run[..8]), Generated(f.key, b).value, b);
    assert run[..9] == run;
  }

  lemma PairingEvents(f: Phone, b: Backend)
    ensures var run := Pairing(f, b);
      && |run| == 9 && run[4] == Got(TypeReply(), b) && run[5] == Got(Answer("string", f.udid), b)
      && run[6] == Got(f.wifi, b) && run[7] == Got(Answer("data", Encoded(f.key)), b) && run[8] == Got(TrustReply(), b)
      && forall i :: 0 <= i < 9 ==> !PairStores.OfThread(run[i])
  {
    hide Answer, TrustReply, TypeReply, Encoded;
  }

  lemma SuccessGot(b: Backend)
    ensures ParsePairingReplyXml(Xml(Got(SuccessReply(), b).reply), "Pair") == Success && Got(SuccessReply(), b).reply.body != ""
  {
    hide ParsePairingReplyXml, SuccessReply, CString;
    SuccessAnswer();
    SuccessWhole();
  }

  /** Left alone, the phone that trusts is paired. */
  lemma Pairs(f: Phone, b: Backend)
    requires Pairable(f, b)
    ensures var p := After(Pairing(f, b) + [Got(SuccessReply(), b)]); p.attached && p.ready && p.state == Paired
  {
    hide Step, After, Pairing, PairingFrame, SuccessReply, Generated, Xml;
    WaitsForTrust(f, b);
    AfterEvent(Pairing(f, b), Got(SuccessReply(), b));
    SuccessGot(b);
    SuccessStep(After(Pairing(f, b)), Got(SuccessReply(), b).reply);
  }

  /**
   From the installed driver on, the pairing run of any phone, followed by the retry
   thread's test, a success reply and the thread's store, ends with an open gate in an
   unpaired state.
   */
  lemma RaceReached(f: Phone, b: Backend)
    requires Pairable(f, b)
    ensures var p := After(Pairing(f, b) + [RetryTest(true)] + [Got(SuccessReply(), b)] + [RetryStore]);
      p.ready && p.state == PairRequested && !Gate(p)
  {
    hide Step, After, Pairing, PairingFrame, SuccessReply, Gate, Generated, Xml;
    WaitsForTrust(f, b);
    var run := Pairing(f, b);
    AfterEvent(run, RetryTest(true));
    AfterEvent(run + [RetryTest(true)], Got(SuccessReply(), b));
    AfterEvent(run + [RetryTest(true)] + [Got(SuccessReply(), b)], RetryStore);
    SuccessGot(b);
    var success := Got(SuccessReply(), b).reply;
    RetryRace(After(run), success, success);
  }

  /**
   And store by store: the same run followed by an attempt of the retry thread whose
   failure falls between the two stores of the success ends with the gate open on a
   failed probe.
   */
  lemma FailureRaceReached(f: Phone, b: Backend)
    requires Pairable(f, b)
    ensures var success := Got(SuccessReply(), b).reply;
            var moves := PairStores.Meet(success) + [PairStores.ThreadWrite] + [PairStores.ThreadWrite] + [PairStores.Write];
            var s := PairStores.After(PairStores.Finely(Pairing(f, b)) + moves);
      s.probe.ready && s.probe.state == ProbeFailed && s.callback == [] && !PairStores.Guarded(s)
  {
    hide Step, After, Pairing, PairingFrame, SuccessReply, Generated, Xml, PairStores.After, PairStores.Finely, PairStores.Exec,
      PairStores.Meet, PairStores.Guarded;
    var success := Got(SuccessReply(), b).reply;
    var moves := PairStores.Meet(success) + [PairStores.ThreadWrite] + [PairStores.ThreadWrite] + [PairStores.Write];
    WaitsForTrust(f, b);
    PairingEvents(f, b);
    PairStores.FinelySame(Pairing(f, b));
    PairStores.AfterExec(PairStores.Finely(Pairing(f, b)), moves);
    SuccessGot(b);
    PairStores.FailureBetweenStores(Waiting(Generated(f.key, b).value), success);
  }

  /** Such phones are the ordinary ones: any RSA key that fits, with any backend that works. */
  lemma OrdinaryPhones(udid: string, der: Bytes, b: Backend)
    requires udid != "" && |udid| < 96 && '<' !in udid && '&' !in udid && '\0' !in udid
    requires 0 < |der| <= 980 && Works(b)
    ensures exists key: Bytes :: Pairable(Phone(udid, udid, key), b)
  {
    hide Generated, Works, KeyPem, Wrapped;
    GenerationSucceeds(der, b);
    WrappedFits(der);
    assert Pairable(Phone(udid, udid, Codes(KeyPem(Wrapped(der).value.spki))), b);
  }

  // ------------------------------------------------------------- a phone with a record

  /** The reply of a phone that knows the record. */
  function KnownReply(): string {
    Render([Tag("plist", "")] + KnownEntry())
  }

  function KnownEntry(): seq<Tag> {
    Entry("string", "Request", "ValidatePair")
  }

  lemma KnownNames()
    ensures Without("ValidatePair", '<') && Without("ValidatePair", '\0') && Plain("ValidatePair") && '&' !in "ValidatePair"
  {
  }

  lemma KnownText()
    ensures KnownReply() == Render([Tag("plist", "")]) + Render(KnownEntry())
  {
    hide Render, KnownEntry;
    RenderAppend([Tag("plist", "")], KnownEntry());
  }

  lemma KnownWhole()
    ensures CString(KnownReply()) == KnownReply() && KnownReply() != ""
  {
    hide CString, Entry, Without, Render, KnownReply;
    KnownText();
    KnownNames();
    TrustNames();
    EntryWhole("string", "Request", "ValidatePair");
    PlistWhole();
    WholeAppend(Render([Tag("plist", "")]), Render(KnownEntry()));
    NoNul(KnownReply());
  }

  lemma KnownRequest()
    ensures ReplyMatches(KnownReply(), "ValidatePair")
  {
    hide FindValue, Render, Entry, Plain, Clean, KnownReply;
    KnownText();
    KnownNames();
    ReplyNames();
    var before := [Tag("plist", "")];
    assert KeyFree(before, "Request");
    ValueFound(KnownReply(), before, "string", "Request", "ValidatePair");
    UnescapePlain("ValidatePair");
  }

  lemma KnownNoError()
    ensures !Contains(KnownReply(), "<key>Error</key>")
  {
    hide FindFrom, Render, Entry, Plain, Clean, Without, AllClean, KeyFree;
    var doc, tags := KnownReply(), [Tag("plist", "")] + KnownEntry();
    KnownNames();
    ReplyNames();
    PairKeys();
    EntryClean("string", "Request", "ValidatePair");
    EntryKeyFree("string", "Request", "ValidatePair", "Error");
    KeyFreeAppend([Tag("plist", "")], KnownEntry(), "Error");
    assert doc[0..|doc|] == doc;
    FindKeyAfter(doc, 0, tags, "Error");
    NothingAtEnd(doc, KeyNeedle("Error"));
    assert KeyNeedle("Error") == "<key>Error</key>";
  }

  lemma KnownAnswer()
    ensures ParsePairingReplyXml(KnownReply(), "ValidatePair") == Success
  {
    hide Contains, ReplyMatches, KnownReply, Render, KnownEntry;
    KnownRequest();
    KnownNoError();
    KnownText();
    PlistFirst(KnownReply(), Tag("plist", ""), Render(KnownEntry()));
  }

  /** The reply with the identifier of a phone for which a record is stored. */
  function GotKnown(udid: string, record: Identity, b: Backend): Event {
    Plist(Reply(Answer("string", udid), Some(record), Some(b), true, Queued))
  }

  lemma ValidationAsked(p: Probe, udid: string, record: Identity, b: Backend)
    requires p == At(GetUdidSent, FRESH, None) && PairingFrame(record, true, PAIR_FRAME_MAX).Some?
    requires udid != "" && |udid| < 96 && '<' !in udid && '&' !in udid && '\0' !in udid
    ensures Step(p, GotKnown(udid, record, b)) == At(ValidateSent, FRESH, PairingFrame(record, true, PAIR_FRAME_MAX))
  {
    hide GetValueFrame, StringValue, Answer, CString, PairingFrame;
    UdidAnswer(udid);
    AnswerWhole("string", udid);
  }

  lemma ValidationTaken(p: Probe, frame: Option<Frame>, b: Backend)
    requires p == At(ValidateSent, FRESH, frame)
    ensures Step(p, Got(KnownReply(), b)) == p.(state := Validated, ready := true)
    ensures Step(p, Got(TrustReply(), b)) == p.(state := GetWifiSent)
  {
    hide GetValueFrame, ParsePairingReplyXml, KnownReply, TrustReply, Xml, Step;
    KnownAnswer();
    KnownWhole();
    TrustWhole();
    NotKnown();
    QueryFits("WiFiAddress");
    ValidateStep(p, Got(KnownReply(), b).reply);
    ValidateStep(p, Got(TrustReply(), b).reply);
    XmlWhole(Got(KnownReply(), b).reply);
    XmlWhole(Got(TrustReply(), b).reply);
  }

  lemma XmlWhole(r: Reply)
    requires CString(r.body) == r.body
    ensures Xml(r) == r.body
  {
    hide CString;
  }

  lemma ValidateStep(p: Probe, r: Reply)
    requires p.attached && p.state == ValidateSent && r.body != "" && r.sending == Queued
    requires GetValueFrame("WiFiAddress", QUERY_MAX).Some?
    ensures Step(p, Plist(r)) ==
      if ParsePairingReplyXml(Xml(r), "ValidatePair") == Success then p.(state := Validated, ready := true)
      else p.(state := GetWifiSent)
  {
    hide GetValueFrame, ParsePairingReplyXml, Xml;
  }

  lemma NotKnown()
    ensures ParsePairingReplyXml(TrustReply(), "ValidatePair") != Success
  {
    hide Contains, TrustReply, StringValue;
    TrustRequest();
  }

  /**
   From the installed driver on, a phone with a stored record is asked to validate it:
   its success opens the gate, and any other answer leads on to a new pairing.
   */
  lemma StoredPhoneValidates(f: Phone, record: Identity, b: Backend)
    requires f.udid != "" && |f.udid| < 96 && '<' !in f.udid && '&' !in f.udid && '\0' !in f.udid
    requires PairingFrame(record, true, PAIR_FRAME_MAX).Some?
    ensures var run := Pairing(f, b)[..5] + [GotKnown(f.udid, record, b)];
      && (var p := After(run + [Got(KnownReply(), b)]); p.attached && p.ready && p.state == Validated)
      && After(run + [Got(TrustReply(), b)]).state == GetWifiSent && !After(run + [Got(TrustReply(), b)]).ready
  {
    hide Step, After, Pairing, PairingFrame, KnownReply, TrustReply, TypeReply, Got, GotKnown;
    Connects(f, b);
    PairingEvents(f, b);
    AfterFirst(f, b, 4);
    var run := Pairing(f, b)[..5];
    AsksUdid(After(Pairing(f, b)[..4]), b);
    AfterEvent(run, GotKnown(f.udid, record, b));
    ValidationAsked(After(run), f.udid, record, b);
    var known := run + [GotKnown(f.udid, record, b)];
    AfterEvent(known, Got(KnownReply(), b));
    AfterEvent(known, Got(TrustReply(), b));
    ValidationTaken(After(known), PairingFrame(record, true, PAIR_FRAME_MAX), b);
  }
}
