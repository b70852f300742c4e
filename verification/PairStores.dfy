/**
 The pairing gate store by store (src/usbmux_probe.cpp, Fail, HandleCompleteLockdownPlist,
 AddDevice, RemoveDevice, TrustRetryThread). A callback reads the probe and then makes
 its stores one at a time, in the order of the code, and the trust-retry thread runs
 between any two of them. A callback left undisturbed makes the step of `PairGate`.
 */
module PairStores {
  import opened Bytes
  import opened PairIdentity
  import opened PairProtocol
  import opened PairSession
  import opened PairGate

  /** Stores to the probe and to the gate flag; a device's arrival and removal clear the whole probe. */
  datatype Store = ToState(state: ProbeState) | ToReady(ready: bool) | ToAttached(attached: bool) | Clear

  const FAIL := [ToState(ProbeFailed), ToReady(false)]

  function Put(p: Probe, w: Store): Probe {
    match w
    case ToState(s) => p.(state := s)
    case ToReady(b) => p.(ready := b)
    case ToAttached(b) => p.(attached := b)
    case Clear => p.(state := ProbeIdle, attached := false, pairFrame := None)
  }

  function PutAll(p: Probe, ws: seq<Store>): Probe
    decreases |ws|
  {
    if ws == [] then p else PutAll(Put(p, ws[0]), ws[1..])
  }

  // ------------------------------------------------------- the stores of a callback

  function SendStores(next: ProbeState, how: Sending): seq<Store> {
    match how
    case Queued => [ToState(next)]
    case SubmitFailed => FAIL + [ToState(next)]
    case Refused => FAIL
  }

  function AskStores(key: string, next: ProbeState, how: Sending): seq<Store> {
    if GetValueFrame(key, QUERY_MAX).None? then FAIL else SendStores(next, how)
  }

  function UdidStores(r: Reply): seq<Store> {
    var udid := StringValue(Xml(r), "Value", 96);
    if udid.None? || udid.value == "" then FAIL
    else if r.record.Some? then
      if PairingFrame(r.record.value, true, PAIR_FRAME_MAX).None? then FAIL else SendStores(ValidateSent, r.sending)
    else AskStores("WiFiAddress", GetWifiSent, r.sending)
  }

  function KeyStores(p: Probe, r: Reply): seq<Store> {
    if r.backend.None? then
      if PublicKey(Xml(r), KEY_MAX) == [] then FAIL else [ToState(CryptoBlocked)]
    else if AfterKey(p.session, Xml(r), r.backend.value, PAIR_FRAME_MAX).1.None? then FAIL
    else SendStores(PairRequested, r.sending)
  }

  function AnswerStores(p: Probe, r: Reply): seq<Store> {
    match AfterReply(p.session, Xml(r)).1
    case Success => [ToState(Paired), ToReady(true)]
    case PendingTrust => [ToState(TrustPending)] + if r.threadStarts then [] else FAIL
    case _ => FAIL
  }

  function ValidateStores(r: Reply): seq<Store> {
    if ParsePairingReplyXml(Xml(r), "ValidatePair") == Success then [ToState(Validated), ToReady(true)]
    else AskStores("WiFiAddress", GetWifiSent, r.sending)
  }

  function PlistStores(p: Probe, r: Reply): seq<Store> {
    if !p.attached || Closed(p.state) || r.body == "" then []
    else
      match p.state
      case QuerySent => if !IsLockdown(r) then FAIL else AskStores("UniqueDeviceID", GetUdidSent, r.sending)
      case GetUdidSent => UdidStores(r)
      case ValidateSent => ValidateStores(r)
      case GetWifiSent => if Begun(p.session, QUERY_MAX).1.None? then FAIL else SendStores(PublicKeySent, r.sending)
      case PublicKeySent => KeyStores(p, r)
      case PairRequested => AnswerStores(p, r)
      case TrustPending => AnswerStores(p, r)
      case _ => []
  }

  function AttachStores(descriptors: bool, endpoint: bool, configured: bool): seq<Store> {
    [Clear, ToReady(false), ToAttached(true)]
    + if !descriptors then FAIL + [ToAttached(false)]
      else if !endpoint then FAIL
      else [ToState(Configuring)] + if configured then [] else FAIL
  }

  function TwoSendStores(a: ProbeState, first: Sending, b: ProbeState, second: Sending): seq<Store> {
    SendStores(a, first) + if first == Refused then [] else SendStores(b, second)
  }

  predicate OfThread(e: Event) {
    e.RetryTest? || e.RetryStore? || e.RetrySend?
  }

  /** What the callback stores, in order, when it finds the probe like this. */
  function Stores(p: Probe, e: Event): seq<Store> {
    match e
    case Attach(descriptors, endpoint, configured) =>
      if p.attached then [] else AttachStores(descriptors, endpoint, configured)
    case Detach => [ToAttached(false), ToReady(false), Clear]
    case Failure => FAIL
    case ControlDone(ok, version) =>
      if !p.attached then []
      else if !ok || p.state != Configuring then FAIL
      else [ToState(UsbReady)] + SendStores(VersionSent, version)
    case VersionReply(ok, setup, syn) =>
      if !p.attached || p.state != VersionSent then []
      else if !ok then FAIL
      else TwoSendStores(MuxV2, setup, SynSent, syn)
    case SynReply(ok, ack, query) =>
      if !p.attached || p.state != SynSent then []
      else if !ok then FAIL
      else TwoSendStores(Connected, ack, QuerySent, query)
    case Plist(reply) => PlistStores(p, reply)
    case DataAck(ack) => if p.attached && p.state != ProbeFailed && ack != Queued then FAIL else []
    case _ => []
  }

  /** The session and the frame kept for retries, which only callbacks write, as they are in `q`. */
  function Kept(p: Probe, q: Probe): Probe {
    p.(session := q.session, pairFrame := q.pairFrame)
  }

  function Entered(p: Probe, e: Event): Probe {
    if e.Detach? then p else Kept(p, Step(p, e))
  }

  lemma PutTwo(p: Probe, a: Store, b: Store)
    ensures PutAll(p, [a, b]) == Put(Put(p, a), b)
    ensures PutAll(p, [a]) == Put(p, a)
    ensures PutAll(p, []) == p
  {
    hide Put;
    assert [a, b][1..] == [b];
    PutOne(p, a);
    PutOne(Put(p, a), b);
  }

  lemma PutOne(p: Probe, a: Store)
    ensures PutAll(p, [a]) == Put(p, a)
  {
    hide Put;
    assert [a][1..] == [];
  }

  lemma {:induction false} PutAppend(p: Probe, a: seq<Store>, b: seq<Store>)
    ensures PutAll(p, a + b) == PutAll(PutAll(p, a), b)
    decreases |a|
  {
    hide Put;
    if a == [] {
      assert a + b == b;
    } else {
      assert (a + b)[1..] == a[1..] + b;
      PutAppend(Put(p, a[0]), a[1..], b);
    }
  }

  lemma PutSends(p: Probe, next: ProbeState, how: Sending)
    ensures PutAll(p, FAIL) == Fails(p) && PutAll(p, [ToState(next)]) == p.(state := next) && PutAll(p, []) == p
    ensures PutAll(p, SendStores(next, how)) == Sends(p, next, how)
  {
    hide PutAll;
    PutTwo(p, ToState(ProbeFailed), ToReady(false));
    PutTwo(p, ToState(next), ToReady(false));
    PutAppend(p, FAIL, [ToState(next)]);
    PutTwo(Fails(p), ToState(next), ToReady(false));
  }

  lemma PutAsks(p: Probe, key: string, next: ProbeState, how: Sending)
    ensures PutAll(p, AskStores(key, next, how)) == AsksFor(p, key, next, how)
    ensures AsksFor(p, key, next, how) == Kept(AsksFor(p, key, next, how), p)
  {
    hide PutAll, GetValueFrame, SendStores, FAIL;
    PutSends(p, next, how);
  }

  lemma PutUdid(p: Probe, r: Reply)
    ensures PutAll(Kept(p, AfterUdid(p, r)), UdidStores(r)) == AfterUdid(p, r)
  {
    hide PutAll, PairingFrame, StringValue, SendStores, FAIL, AskStores, AsksFor, CString;
    PutAsks(p, "WiFiAddress", GetWifiSent, r.sending);
    PutSends(Kept(p, AfterUdid(p, r)), ValidateSent, r.sending);
  }

  lemma PutValidate(p: Probe, r: Reply)
    ensures PutAll(Kept(p, AfterValidate(p, r)), ValidateStores(r)) == AfterValidate(p, r)
  {
    hide PutAll, ParsePairingReplyXml, AskStores, AsksFor, CString;
    PutAsks(p, "WiFiAddress", GetWifiSent, r.sending);
    PutTwo(p, ToState(Validated), ToReady(true));
  }

  lemma PutKey(p: Probe, r: Reply)
    ensures PutAll(Kept(p, AfterPublicKey(p, r)), KeyStores(p, r)) == AfterPublicKey(p, r)
  {
    hide PutAll, PublicKey, AfterKey, SendStores, FAIL, CString;
    PutSends(p, CryptoBlocked, r.sending);
    PutSends(Kept(p, AfterPublicKey(p, r)), PairRequested, r.sending);
  }

  lemma PutAnswer(p: Probe, r: Reply)
    ensures PutAll(Kept(p, AfterPair(p, r)), AnswerStores(p, r)) == AfterPair(p, r)
  {
    hide PutAll, AfterReply, FAIL, CString;
    var q := Kept(p, AfterPair(p, r));
    PutTwo(q, ToState(Paired), ToReady(true));
    PutSends(q, TrustPending, r.sending);
    PutAppend(q, [ToState(TrustPending)], if r.threadStarts then [] else FAIL);
    PutSends(q.(state := TrustPending), TrustPending, r.sending);
  }

  lemma PutPublicKey(p: Probe, how: Sending)
    ensures PutAll(Kept(p, AsksPublicKey(p, how)),
                   if Begun(p.session, QUERY_MAX).1.None? then FAIL else SendStores(PublicKeySent, how)) == AsksPublicKey(p, how)
  {
    hide PutAll, SendStores, FAIL, Begun;
    PutSends(Kept(p, AsksPublicKey(p, how)), PublicKeySent, how);
  }

  lemma PutPlist(p: Probe, r: Reply)
    ensures PutAll(Kept(p, AfterPlist(p, r)), PlistStores(p, r)) == AfterPlist(p, r)
  {
    hide PutAll, FAIL, AskStores, AsksFor, UdidStores, AfterUdid, ValidateStores, AfterValidate, KeyStores, AfterPublicKey,
      AnswerStores, AfterPair, SendStores, AsksPublicKey, Begun, CString, IsLockdown;
    PutSends(p, QuerySent, r.sending);
    if p.attached && !Closed(p.state) && r.body != "" {
      match p.state {
        case QuerySent => PutAsks(p, "UniqueDeviceID", GetUdidSent, r.sending);
        case GetUdidSent => PutUdid(p, r);
        case ValidateSent => PutValidate(p, r);
        case GetWifiSent => PutPublicKey(p, r.sending);
        case PublicKeySent => PutKey(p, r);
        case PairRequested => PutAnswer(p, r);
        case TrustPending => PutAnswer(p, r);
        case _ =>
      }
    }
  }

  lemma PutTwoSends(p: Probe, a: ProbeState, first: Sending, b: ProbeState, second: Sending)
    ensures PutAll(p, TwoSendStores(a, first, b, second))
         == if first == Refused then Sends(p, a, first) else Sends(Sends(p, a, first), b, second)
  {
    hide PutAll, SendStores, FAIL;
    PutSends(p, a, first);
    PutAppend(p, SendStores(a, first), SendStores(b, second));
    PutSends(Sends(p, a, first), b, second);
    assert SendStores(a, first) + [] == SendStores(a, first);
  }

  lemma PutAttach(p: Probe, d: bool, e: bool, c: bool)
    requires !p.attached
    ensures PutAll(Kept(p, AfterAttach(p, d, e, c)), AttachStores(d, e, c)) == AfterAttach(p, d, e, c)
  {
    hide PutAll, FAIL;
    var q := Kept(p, AfterAttach(p, d, e, c));
    var head := [Clear, ToReady(false), ToAttached(true)];
    var clean := q.(state := ProbeIdle, attached := true, pairFrame := None, ready := false);
    assert PutAll(q, head) == clean by {
      assert head == [Clear, ToReady(false)] + [ToAttached(true)];
      PutAppend(q, [Clear, ToReady(false)], [ToAttached(true)]);
      PutTwo(q, Clear, ToReady(false));
      PutTwo(q.(state := ProbeIdle, attached := false, pairFrame := None, ready := false), ToAttached(true), Clear);
    }
    PutSends(clean, Configuring, Queued);
    PutSends(clean.(state := Configuring), Configuring, Queued);
    PutAppend(clean, FAIL, [ToAttached(false)]);
    PutTwo(Fails(clean), ToAttached(false), Clear);
    PutAppend(clean, [ToState(Configuring)], if c then [] else FAIL);
    PutAppend(q, head, if !d then FAIL + [ToAttached(false)] else if !e then FAIL else [ToState(Configuring)] + if c then [] else FAIL);
  }

  lemma PutDetach(p: Probe)
    ensures PutAll(p, [ToAttached(false), ToReady(false), Clear]) == Step(p, Detach)
  {
    hide PutAll;
    assert [ToAttached(false), ToReady(false), Clear] == [ToAttached(false), ToReady(false)] + [Clear];
    PutAppend(p, [ToAttached(false), ToReady(false)], [Clear]);
    PutTwo(p, ToAttached(false), ToReady(false));
    PutTwo(p.(attached := false, ready := false), Clear, Clear);
  }

  /** A callback whose stores nothing comes between makes the step of the probe. */
  lemma CallbackIsStep(p: Probe, e: Event)
    requires !OfThread(e)
    ensures PutAll(Entered(p, e), Stores(p, e)) == Step(p, e)
  {
    hide PutAll, FAIL, AfterPlist, PlistStores, AttachStores, TwoSendStores, SendStores, Sends;
    SendsKeep();
    PutSends(p, VersionSent, Queued);
    match e {
      case Attach(d, en, c) => if !p.attached { PutAttach(p, d, en, c); }
      case Detach => PutDetach(p);
      case ControlDone(ok, version) =>
        PutSends(p, UsbReady, Queued);
        PutAppend(p, [ToState(UsbReady)], SendStores(VersionSent, version));
        PutSends(p.(state := UsbReady), VersionSent, version);
      case VersionReply(ok, setup, syn) => PutTwoSends(p, MuxV2, setup, SynSent, syn);
      case SynReply(ok, ack, query) => PutTwoSends(p, Connected, ack, QuerySent, query);
      case Plist(reply) => PutPlist(p, reply);
      case _ =>
    }
  }

  lemma SendsKeep()
    ensures forall p, next, how :: Sends(p, next, how) == Kept(Sends(p, next, how), p)
  {
  }

  // --------------------------------------------------------------------- the system

  /** The retry thread: asleep, past its test, past its store, or in the failure of its send. */
  datatype Thread = Resting | Tested | Resending | Failing(left: seq<Store>)

  /** `callback` is what the running callback has still to store; there is none when it is empty. */
  datatype System = System(probe: Probe, callback: seq<Store>, thread: Thread)

  const INSTALLED := System(START, [], Resting)

  datatype Move = Callback(e: Event) | Write | Test(go: bool) | ThreadStore | ThreadSend(how: Sending) | ThreadWrite

  function Next(s: System, m: Move): System {
    match m
    case Callback(e) =>
      if s.callback != [] || OfThread(e) then s
      else s.(probe := Entered(s.probe, e), callback := Stores(s.probe, e))
    case Write => if s.callback == [] then s else s.(probe := Put(s.probe, s.callback[0]), callback := s.callback[1..])
    case Test(go) =>
      if s.thread == Resting && go && s.probe.attached && s.probe.state == TrustPending then s.(thread := Tested) else s
    case ThreadStore =>
      if s.thread == Tested then s.(probe := s.probe.(state := PairRequested), thread := Resending) else s
    case ThreadSend(how) =>
      if s.thread != Resending then s
      else s.(thread := if s.probe.pairFrame.Some? && how != Queued then Failing(FAIL) else Resting)
    case ThreadWrite =>
      if !s.thread.Failing? || s.thread.left == [] then s
      else s.(probe := Put(s.probe, s.thread.left[0]),
              thread := if |s.thread.left| == 1 then Resting else Failing(s.thread.left[1..]))
  }

  function After(run: seq<Move>): System {
    if run == [] then INSTALLED else Next(After(run[..|run| - 1]), run[|run| - 1])
  }

  // ----------------------------------------------------------------------- the gate

  predicate Open(p: Probe) {
    p.attached && (p.state == Paired || p.state == Validated)
  }

  /** Somebody is about to shut the gate. */
  predicate Closing(s: System) {
    ToReady(false) in s.callback || (s.thread.Failing? && ToReady(false) in s.thread.left)
  }

  /** A success callback has stored the state and not yet opened the gate. */
  predicate Opening(s: System) {
    s.callback == [ToReady(true)]
  }

  /** Unless somebody is about to shut it, the gate is open, or opens next, only in a paired state of an attached phone. */
  predicate Guarded(s: System) {
    s.probe.ready || Opening(s) ==> Open(s.probe) || Closing(s)
  }

  /**
   The retry thread gets between: it stores its state over one that a callback has
   paired, or the last store of its failure comes between the two of a success.
   */
  predicate Overtakes(s: System, m: Move) {
    || (m.ThreadStore? && s.thread == Tested && (s.probe.ready || Opening(s)) && !Closing(s))
    || (m.ThreadWrite? && s.thread == Failing([ToReady(false)]) && Opening(s) && !Open(s.probe))
  }

  predicate PairedState(st: ProbeState) {
    st == Paired || st == Validated
  }

  /** Stores that open nothing. */
  predicate Quiet(ws: seq<Store>) {
    forall w :: w in ws ==> w != ToReady(true) && (w.ToState? ==> !PairedState(w.state))
  }

  /** What is left of a callback: the stores of a success, or stores that open nothing and shut a gate they find open. */
  predicate Left(p: Probe, ws: seq<Store>) {
    || (p.attached && (ws == [ToReady(true)] || ws == [ToState(Paired), ToReady(true)] || ws == [ToState(Validated), ToReady(true)]))
    || (Quiet(ws)
        && (ws != [] && p.ready && Open(p) ==> ToReady(false) in ws)
        && (ToAttached(true) in ws ==> ws[0] == Clear || !PairedState(p.state)))
  }

  predicate Sane(s: System) {
    Left(s.probe, s.callback)
    && (s.thread.Failing? ==> s.thread.left == FAIL || s.thread.left == [ToReady(false)])
  }

  predicate Plain(ws: seq<Store>) {
    Quiet(ws) && ToAttached(true) !in ws
  }

  lemma PlainAppend(a: seq<Store>, b: seq<Store>)
    requires Plain(a) && Plain(b)
    ensures Plain(a + b)
  {
  }

  lemma PlainSends(next: ProbeState, how: Sending)
    requires !PairedState(next)
    ensures Plain(SendStores(next, how)) && Plain(FAIL) && Plain([]) && Plain([ToState(next)]) && ToReady(false) in FAIL
  {
  }

  lemma PlistLeft(p: Probe, r: Reply)
    ensures var ws := PlistStores(p, r);
      || (p.attached && (ws == [ToState(Paired), ToReady(true)] || ws == [ToState(Validated), ToReady(true)]))
      || (Plain(ws) && (Closed(p.state) ==> ws == []))
  {
    hide GetValueFrame, PairingFrame, PublicKey, StringValue, ParsePairingReplyXml, CString, IsLockdown, Begun, AfterKey,
      FAIL, SendStores, Plain;
    PlainSends(GetUdidSent, r.sending);
    PlainSends(GetWifiSent, r.sending);
    PlainSends(ValidateSent, r.sending);
    PlainSends(PublicKeySent, r.sending);
    PlainSends(PairRequested, r.sending);
    PlainSends(CryptoBlocked, r.sending);
    PlainSends(TrustPending, r.sending);
    PlainAppend([ToState(TrustPending)], if r.threadStarts then [] else FAIL);
  }

  lemma QuietAppend(a: seq<Store>, b: seq<Store>)
    requires Quiet(a) && Quiet(b)
    ensures Quiet(a + b)
  {
  }

  lemma AttachLeft(d: bool, e: bool, c: bool)
    ensures var ws := AttachStores(d, e, c); Quiet(ws) && |ws| >= 3 && ws[0] == Clear && ws[1] == ToReady(false)
  {
    hide FAIL, Quiet;
    assert Quiet([Clear, ToReady(false), ToAttached(true)]) && Quiet([ToAttached(false)]) by { ShortQuiet(); }
    PlainSends(Configuring, Queued);
    assert Quiet(FAIL) && Quiet([]) && Quiet([ToState(Configuring)]);
    QuietAppend(FAIL, [ToAttached(false)]);
    QuietAppend([ToState(Configuring)], if c then [] else FAIL);
    QuietAppend([Clear, ToReady(false), ToAttached(true)],
                if !d then FAIL + [ToAttached(false)] else if !e then FAIL else [ToState(Configuring)] + if c then [] else FAIL);
  }

  lemma ShortQuiet()
    ensures Quiet([Clear, ToReady(false), ToAttached(true)]) && Quiet([ToAttached(false)])
    ensures Plain([ToAttached(false), ToReady(false), Clear]) && Plain([])
  {
  }

  /** What a callback stores is as `Left` says from the start. */
  lemma StoresLeft(p: Probe, e: Event)
    ensures Left(Entered(p, e), Stores(p, e)) && Stores(p, e) != [ToReady(true)]
  {
    hide PlistStores, AfterPlist, AttachStores, FAIL, SendStores, Quiet;
    PlainSends(VersionSent, Queued);
    ShortQuiet();
    match e {
      case Attach(d, en, c) => AttachLeft(d, en, c);
      case Detach => ShortQuiet();
      case ControlDone(ok, version) =>
        PlainSends(UsbReady, Queued);
        PlainSends(VersionSent, version);
        PlainAppend([ToState(UsbReady)], SendStores(VersionSent, version));
      case VersionReply(ok, setup, syn) =>
        PlainSends(MuxV2, setup);
        PlainSends(SynSent, syn);
        PlainAppend(SendStores(MuxV2, setup), if setup == Refused then [] else SendStores(SynSent, syn));
      case SynReply(ok, ack, query) =>
        PlainSends(Connected, ack);
        PlainSends(QuerySent, query);
        PlainAppend(SendStores(Connected, ack), if ack == Refused then [] else SendStores(QuerySent, query));
      case Plist(reply) => PlistLeft(p, reply);
      case _ =>
    }
    NotOpening();
  }

  lemma NotOpening()
    ensures !Plain([ToReady(true)])
  {
    assert ToReady(true) in [ToReady(true)];
  }

  lemma WriteLeft(p: Probe, ws: seq<Store>)
    requires Left(p, ws) && ws != []
    ensures Left(Put(p, ws[0]), ws[1..])
  {
    if Quiet(ws) {
      assert forall w :: w in ws[1..] ==> w in ws;
      assert forall w :: w in ws ==> w == ws[0] || w in ws[1..];
    } else {
      assert [ToState(Paired), ToReady(true)][1..] == [ToReady(true)];
      assert [ToState(Validated), ToReady(true)][1..] == [ToReady(true)];
      assert [ToReady(true)][1..] == [];
    }
  }

  /** The retry thread never stores a paired state and only ever shuts the gate. */
  lemma ThreadLeft(p: Probe, q: Probe, ws: seq<Store>)
    requires Left(p, ws) && q.attached == p.attached && (q.ready ==> p.ready)
    requires q.state == p.state || !PairedState(q.state)
    ensures Left(q, ws)
  {
    hide Quiet;
  }

  lemma SaneStep(s: System, m: Move)
    requires Sane(s)
    ensures Sane(Next(s, m))
  {
    hide Left, Stores, Step, FAIL;
    FailTail();
    match m {
      case Callback(e) => StoresLeft(s.probe, e);
      case Write => if s.callback != [] { WriteLeft(s.probe, s.callback); }
      case ThreadStore => ThreadLeft(s.probe, s.probe.(state := PairRequested), s.callback);
      case ThreadWrite =>
        ThreadLeft(s.probe, s.probe.(state := ProbeFailed), s.callback);
        ThreadLeft(s.probe, s.probe.(ready := false), s.callback);
      case _ =>
    }
  }

  lemma FailTail()
    ensures FAIL != [] && |FAIL| == 2 && FAIL[0] == ToState(ProbeFailed) && FAIL[1..] == [ToReady(false)] && ToReady(false) in FAIL
  {
  }

  /** One store, test or callback keeps the gate guarded exactly when the retry thread does not get between. */
  lemma GuardStep(s: System, m: Move)
    requires Sane(s) && Guarded(s)
    ensures Guarded(Next(s, m)) <==> !Overtakes(s, m)
  {
    hide Left, Stores, Step, FAIL;
    FailTail();
    match m {
      case Callback(e) => StoresLeft(s.probe, e);
      case Write => if s.callback != [] { WriteGuarded(s); }
      case _ =>
    }
  }

  lemma WriteGuarded(s: System)
    requires Sane(s) && Guarded(s) && s.callback != []
    ensures Guarded(Next(s, Write))
  {
    hide FAIL;
    var ws := s.callback;
    if Quiet(ws) {
      QuietTail(ws);
    } else {
      assert [ToState(Paired), ToReady(true)][1..] == [ToReady(true)];
      assert [ToState(Validated), ToReady(true)][1..] == [ToReady(true)];
      assert [ToReady(true)][1..] == [];
    }
  }

  lemma QuietTail(ws: seq<Store>)
    requires Quiet(ws) && ws != []
    ensures ws[0] != ToReady(true) && (ws[0].ToState? ==> !PairedState(ws[0].state))
    ensures ws[1..] != [ToReady(true)] && ws != [ToReady(true)]
    ensures ToReady(false) in ws ==> ws[0] == ToReady(false) || ToReady(false) in ws[1..]
    ensures ToAttached(true) in ws[1..] ==> ToAttached(true) in ws
  {
    assert |ws| > 1 ==> ws[1] == ws[1..][0] && ws[1] in ws;
    assert ws[0] in ws;
  }

  // ------------------------------------------------------------------------- runs

  lemma {:induction false} AfterMove(run: seq<Move>, k: nat)
    requires k < |run|
    ensures After(run[..k + 1]) == Next(After(run[..k]), run[k])
  {
    hide Next;
    assert run[..k + 1][..k] == run[..k];
  }

  lemma {:induction false} AlwaysSane(run: seq<Move>)
    ensures Sane(After(run))
    decreases |run|
  {
    hide Next, Sane;
    if run == [] {
      StartsSane();
    } else {
      AlwaysSane(run[..|run| - 1]);
      SaneStep(After(run[..|run| - 1]), run[|run| - 1]);
    }
  }

  lemma StartsSane()
    ensures Sane(INSTALLED) && Guarded(INSTALLED)
  {
  }

  ghost predicate GuardedThroughout(run: seq<Move>) {
    forall k {:trigger run[..k]} :: 0 <= k <= |run| ==> Guarded(After(run[..k]))
  }

  ghost predicate NeverOvertaken(run: seq<Move>) {
    forall k {:trigger run[..k]} :: 0 <= k < |run| ==> !Overtakes(After(run[..k]), run[k])
  }

  /**
   Over any interleaving of the single stores: a reader finds the gate open only on a
   paired phone, or on one whose gate is just being shut, exactly when the retry
   thread never gets between a callback's stores.
   */
  lemma {:induction false} GateHoldsIff(run: seq<Move>)
    ensures GuardedThroughout(run) <==> NeverOvertaken(run)
  {
    hide Next, Guarded, Overtakes, Sane, After;
    if NeverOvertaken(run) {
      forall k | 0 <= k <= |run| ensures Guarded(After(run[..k])) {
        GuardedUpTo(run, k);
      }
    } else {
      var k :| 0 <= k < |run| && Overtakes(After(run[..k]), run[k]);
      AfterMove(run, k);
      AlwaysSane(run[..k]);
      if Guarded(After(run[..k])) {
        GuardStep(After(run[..k]), run[k]);
        assert !Guarded(After(run[..k + 1]));
      }
    }
  }

  lemma {:induction false} GuardedUpTo(run: seq<Move>, k: nat)
    requires NeverOvertaken(run) && k <= |run|
    ensures Guarded(After(run[..k]))
  {
    hide Next, Overtakes, Guarded, Sane;
    if k == 0 {
      StartsSane();
    } else {
      GuardedUpTo(run, k - 1);
      AfterMove(run, k - 1);
      AlwaysSane(run[..k - 1]);
      GuardStep(After(run[..k - 1]), run[k - 1]);
    }
  }

  // ------------------------------------------------- what a poll of the gate may find

  /** A poll that reads the gate now finds it open, and the phone is not paired. */
  predicate Misleading(p: Probe) {
    p.ready && !Open(p)
  }

  /** The store that a move makes. */
  function StoreOf(s: System, m: Move): Option<Store> {
    match m
    case Write => if s.callback == [] then None else Some(s.callback[0])
    case ThreadStore => if s.thread == Tested then Some(ToState(PairRequested)) else None
    case ThreadWrite => if s.thread.Failing? && s.thread.left != [] then Some(s.thread.left[0]) else None
    case _ => None
  }

  /** The store unpairs or detaches the phone under an open gate, or opens the gate over a phone that is not paired. */
  predicate Misleads(p: Probe, w: Store) {
    if p.ready then Open(p) && (w == Clear || w == ToAttached(false) || (w.ToState? && !PairedState(w.state)))
    else !Open(p) && w == ToReady(true)
  }

  /** The store shuts the gate, or pairs or attaches the phone behind it. */
  predicate Mends(p: Probe, w: Store) {
    || w == ToReady(false)
    || (w.ToState? && PairedState(w.state) && p.attached)
    || (w == ToAttached(true) && PairedState(p.state))
  }

  lemma StoreMisleads(p: Probe, w: Store)
    ensures Misleading(Put(p, w)) <==> if Misleading(p) then !Mends(p, w) else Misleads(p, w)
  {
  }

  lemma MoveIsStore(s: System, m: Move)
    ensures match StoreOf(s, m)
            case Some(w) => Next(s, m).probe == Put(s.probe, w)
            case None => Misleading(Next(s, m).probe) == Misleading(s.probe)
  {
    hide Stores, Step;
  }

  predicate MisleadsAt(run: seq<Move>, k: nat) {
    k < |run| &&
    var s := After(run[..k]);
    StoreOf(s, run[k]).Some? && Misleads(s.probe, StoreOf(s, run[k]).value)
  }

  predicate MendsAt(run: seq<Move>, k: nat) {
    k < |run| &&
    var s := After(run[..k]);
    StoreOf(s, run[k]).Some? && Mends(s.probe, StoreOf(s, run[k]).value)
  }

  /** Move `k` made such a store, and none since has made up for it. */
  ghost predicate MisledSince(run: seq<Move>, k: nat) {
    MisleadsAt(run, k) && forall i: nat :: k < i < |run| ==> !MendsAt(run, i)
  }

  lemma PrefixStores(before: seq<Move>, run: seq<Move>)
    requires before <= run
    ensures forall k: nat :: k < |before| ==> (MisleadsAt(before, k) <==> MisleadsAt(run, k))
    ensures forall k: nat :: k < |before| ==> (MendsAt(before, k) <==> MendsAt(run, k))
  {
    hide After, StoreOf, Misleads, Mends;
    forall k: nat | k < |before| ensures before[..k] == run[..k] && before[k] == run[k] {
    }
  }

  lemma MisledBefore(before: seq<Move>, run: seq<Move>)
    requires before <= run && |run| == |before| + 1
    ensures forall k: nat :: k < |before| ==>
              (MisledSince(run, k) <==> MisledSince(before, k) && !MendsAt(run, |before|))
  {
    hide MisleadsAt, MendsAt;
    PrefixStores(before, run);
  }

  lemma LastStore(run: seq<Move>)
    requires run != []
    ensures var n := |run| - 1;
      Misleading(After(run).probe) <==>
        if Misleading(After(run[..n]).probe) then !MendsAt(run, n) else MisleadsAt(run, n)
    ensures Misleading(After(run[..|run| - 1]).probe) ==> !MisleadsAt(run, |run| - 1)
  {
    hide Next, StoreOf, Mends;
    var n := |run| - 1;
    var s := After(run[..n]);
    MoveIsStore(s, run[n]);
    if StoreOf(s, run[n]).Some? {
      StoreMisleads(s.probe, StoreOf(s, run[n]).value);
    }
  }

  /**
   In every interleaving: the gate is found open on a phone that is not paired exactly
   when a store of a failure, of a removal or of the retry thread has unpaired or
   detached it under an open gate, or a success has opened the gate over such a store,
   and neither has been made up for since.
   */
  lemma {:induction false} MisleadingIff(run: seq<Move>)
    ensures Misleading(After(run).probe) <==> exists k: nat :: MisledSince(run, k)
    decreases |run|
  {
    hide Misleading, MisleadsAt, MendsAt, After;
    if run == [] {
      StartsShut();
    } else {
      var n := |run| - 1;
      var before := run[..n];
      MisleadingIff(before);
      MisledBefore(before, run);
      LastStore(run);
      if Misleading(After(before).probe) && !MendsAt(run, n) {
        var k: nat :| MisledSince(before, k);
        MisledWithin(before, k);
        assert MisledSince(run, k);
      } else if MisleadsAt(run, n) {
        assert MisledSince(run, n);
      } else {
        forall k: nat ensures !MisledSince(run, k) {
          MisledWithin(run, k);
          assert MisledSince(run, k) ==> k == n || MisledSince(before, k);
        }
      }
    }
  }

  lemma MisledWithin(run: seq<Move>, k: nat)
    ensures MisledSince(run, k) ==> k < |run|
  {
    hide After, StoreOf, Misleads, Mends;
  }

  lemma StartsShut()
    ensures !Misleading(After([]).probe) && forall k: nat :: !MisledSince([], k)
  {
  }

  /** So a poll of the tether worker starts its setup on a phone that is not paired exactly then. */
  lemma PollStartsUnpairedIff(run: seq<Move>, waitingPair: bool, controlBusy: bool)
    ensures StartsSetup(After(run).probe, waitingPair, controlBusy) && !Open(After(run).probe)
       <==> waitingPair && !controlBusy && exists k: nat :: MisledSince(run, k)
  {
    hide After, MisledSince, Open;
    MisleadingIff(run);
  }

  // --------------------------------------------------- undisturbed callbacks in runs

  function Exec(s: System, moves: seq<Move>): System
    decreases |moves|
  {
    if moves == [] then s else Exec(Next(s, moves[0]), moves[1..])
  }

  lemma {:induction false} AfterExec(run: seq<Move>, moves: seq<Move>)
    ensures After(run + moves) == Exec(After(run), moves)
    decreases |moves|
  {
    hide Next;
    if moves == [] {
      assert run + moves == run;
    } else {
      assert run + moves == (run + [moves[0]]) + moves[1..];
      assert (run + [moves[0]])[..|run|] == run;
      AfterExec(run + [moves[0]], moves[1..]);
    }
  }

  function Writes(n: nat): seq<Move> {
    seq(n, _ => Write)
  }

  lemma {:induction false} AllWrites(s: System)
    ensures Exec(s, Writes(|s.callback|)) == s.(probe := PutAll(s.probe, s.callback), callback := [])
    decreases |s.callback|
  {
    hide Put;
    if s.callback != [] {
      assert Writes(|s.callback|)[1..] == Writes(|s.callback| - 1);
      AllWrites(Next(s, Write));
    }
  }

  /** A callback that is left alone, store by store. */
  function Undisturbed(p: Probe, e: Event): seq<Move> {
    [Callback(e)] + Writes(|Stores(p, e)|)
  }

  lemma UndisturbedIsStep(s: System, e: Event)
    requires s.callback == [] && !OfThread(e)
    ensures Exec(s, Undisturbed(s.probe, e)) == s.(probe := Step(s.probe, e))
  {
    hide Stores, Step, PutAll, Entered;
    var moves := Undisturbed(s.probe, e);
    assert moves[1..] == Writes(|Stores(s.probe, e)|);
    AllWrites(Next(s, Callback(e)));
    CallbackIsStep(s.probe, e);
  }

  /** Every run of whole callbacks is a run of single stores. */
  function Finely(run: seq<Event>): seq<Move> {
    if run == [] then []
    else Finely(run[..|run| - 1]) + Undisturbed(PairGate.After(run[..|run| - 1]), run[|run| - 1])
  }

  lemma {:induction false} FinelySame(run: seq<Event>)
    requires forall i :: 0 <= i < |run| ==> !OfThread(run[i])
    ensures After(Finely(run)) == System(PairGate.After(run), [], Resting)
    decreases |run|
  {
    hide Undisturbed, Step;
    if run != [] {
      var before, e := run[..|run| - 1], run[|run| - 1];
      FinelySame(before);
      AfterExec(Finely(before), Undisturbed(PairGate.After(before), e));
      UndisturbedIsStep(After(Finely(before)), e);
    }
  }

  // ------------------------------------------------------- a failure between two stores

  lemma {:induction false} ExecSnoc(s: System, moves: seq<Move>, m: Move)
    ensures Exec(s, moves + [m]) == Next(Exec(s, moves), m)
    decreases |moves|
  {
    hide Next;
    if moves == [] {
      assert [m][1..] == [] && moves + [m] == [m];
    } else {
      assert (moves + [m])[1..] == moves[1..] + [m];
      ExecSnoc(Next(s, moves[0]), moves[1..], m);
    }
  }

  /** The retry thread's attempt up to the failure of its send, then a success reply whose first store is made. */
  function Meet(success: Reply): seq<Move> {
    [] + [Test(true)] + [ThreadStore] + [ThreadSend(Refused)] + [Callback(Plist(success))] + [Write]
  }

  lemma SuccessStores(p: Probe, success: Reply)
    requires p.attached && p.state == PairRequested && p.session.state == TrustAsked
    requires ParsePairingReplyXml(Xml(success), "Pair") == Success
    ensures Stores(p, Plist(success)) == [ToState(Paired), ToReady(true)]
    ensures Entered(p, Plist(success)) == p.(session := p.session.(state := SessionPaired))
  {
    hide ParsePairingReplyXml, CString;
    EmptyInvalid();
  }

  lemma Meets(p: Probe, success: Reply)
    requires p.attached && p.state == TrustPending && p.session.state == TrustAsked && p.pairFrame.Some?
    requires ParsePairingReplyXml(Xml(success), "Pair") == Success
    ensures Exec(System(p, [], Resting), Meet(success))
         == System(p.(state := Paired, session := p.session.(state := SessionPaired)), [ToReady(true)], Failing(FAIL))
  {
    hide ParsePairingReplyXml, Stores, Entered, Xml, FAIL, Exec;
    var s, m := System(p, [], Resting), [];
    StartExec(s);
    ExecSnoc(s, m, Test(true));
    m := m + [Test(true)];
    ExecSnoc(s, m, ThreadStore);
    m := m + [ThreadStore];
    ExecSnoc(s, m, ThreadSend(Refused));
    m := m + [ThreadSend(Refused)];
    var asked := p.(state := PairRequested);
    SuccessStores(asked, success);
    ExecSnoc(s, m, Callback(Plist(success)));
    m := m + [Callback(Plist(success))];
    ExecSnoc(s, m, Write);
    assert [ToState(Paired), ToReady(true)][1..] == [ToReady(true)];
  }

  lemma StartExec(s: System)
    ensures Exec(s, []) == s
  {
  }

  /**
   From any probe that waits for the trust of the user: the failure of the retry
   thread's send between the two stores of a success leaves the gate open for good
   on a failed probe, although no store of the thread went over an open gate.
   */
  lemma FailureBetweenStores(p: Probe, success: Reply)
    requires p.attached && p.state == TrustPending && p.session.state == TrustAsked && p.pairFrame.Some?
    requires ParsePairingReplyXml(Xml(success), "Pair") == Success
    ensures var s := Exec(System(p, [], Resting), Meet(success) + [ThreadWrite] + [ThreadWrite] + [Write]);
      && s.probe.ready && s.probe.state == ProbeFailed && s.callback == [] && s.thread == Resting && !Guarded(s)
  {
    hide ParsePairingReplyXml, Xml, Exec, Meet, FAIL;
    var s, m := System(p, [], Resting), Meet(success);
    Meets(p, success);
    FailTail();
    ExecSnoc(s, m, ThreadWrite);
    ExecSnoc(s, m + [ThreadWrite], ThreadWrite);
    ExecSnoc(s, m + [ThreadWrite] + [ThreadWrite], Write);
    assert [ToReady(true)][1..] == [];
  }
}
