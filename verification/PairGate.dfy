/**
 The pairing conversation of the usbmux probe and the gate it holds for the tether
 driver (src/usbmux_probe.cpp, src/pair_link.cpp). Each USB callback is one step
 here (`PairStores` takes it apart); the trust-retry thread runs beside the callbacks,
 and its test of the state, its store and its send are steps of their own. What the
 USB stack, the stored record and the crypto backend answer is part of the step.
 */
module PairGate {
  import opened Bytes
  import opened PairIdentity
  import opened PairProtocol
  import opened PairSession

  datatype ProbeState =
      ProbeIdle | Configuring | UsbReady | VersionSent | MuxV2 | SynSent | Connected | QuerySent
    | GetUdidSent | GetWifiSent | ValidateSent | PublicKeySent | PairRequested | TrustPending
    | Paired | Validated | CryptoBlocked | ProbeFailed

  /** `ready` is what the tether driver reads; `armed` says that the retry thread has passed its test and not yet stored. */
  datatype Probe = Probe(state: ProbeState, ready: bool, attached: bool, session: Session,
                         pairFrame: Option<Frame>, armed: bool)

  const START := Probe(ProbeIdle, false, false, FRESH, None, false)

  /** How a send ends: queued; queued, but the submit inside it failed (it still returns true); refused. */
  datatype Sending = Queued | SubmitFailed | Refused

  /** The body of a complete plist with what the callback learns while it handles it; no backend when its functions are missing. */
  datatype Reply = Reply(body: string, record: Option<Identity>, backend: Option<Backend>,
                         threadStarts: bool, sending: Sending)

  /** A body as the C string that the parsers read. */
  function CString(body: string): string {
    if body == "" || body[0] == '\0' then "" else [body[0]] + CString(body[1..])
  }

  function Xml(r: Reply): string {
    CString(r.body)
  }

  /** The QueryType reply names lockdownd, anywhere in its bytes. */
  predicate IsLockdown(r: Reply) {
    Contains(r.body, "com.apple.mobile.lockdown")
  }

  const QUERY_MAX := 1024
  const PAIR_FRAME_MAX := 32768

  function Fails(p: Probe): Probe {
    p.(state := ProbeFailed, ready := false)
  }

  /** Send, then enter `next` when the send reports success. */
  function Sends(p: Probe, next: ProbeState, how: Sending): Probe {
    match how
    case Queued => p.(state := next)
    case SubmitFailed => Fails(p).(state := next)
    case Refused => Fails(p)
  }

  function AsksFor(p: Probe, key: string, next: ProbeState, how: Sending): Probe {
    if GetValueFrame(key, QUERY_MAX).None? then Fails(p) else Sends(p, next, how)
  }

  function AsksPublicKey(p: Probe, how: Sending): Probe {
    var (s, frame) := Begun(p.session, QUERY_MAX);
    var q := p.(session := s);
    if frame.None? then Fails(q) else Sends(q, PublicKeySent, how)
  }

  function Validates(p: Probe, record: Identity, how: Sending): Probe {
    var frame := PairingFrame(record, true, PAIR_FRAME_MAX);
    var q := p.(pairFrame := frame);
    if frame.None? then Fails(q) else Sends(q, ValidateSent, how)
  }

  function AfterUdid(p: Probe, r: Reply): Probe {
    var udid := StringValue(Xml(r), "Value", 96);
    if udid.None? || udid.value == "" then Fails(p)
    else if r.record.Some? then Validates(p, r.record.value, r.sending)
    else AsksFor(p, "WiFiAddress", GetWifiSent, r.sending)
  }

  function AfterValidate(p: Probe, r: Reply): Probe {
    if ParsePairingReplyXml(Xml(r), "ValidatePair") == Success then p.(state := Validated, ready := true)
    else AsksFor(p, "WiFiAddress", GetWifiSent, r.sending)
  }

  function AfterPublicKey(p: Probe, r: Reply): Probe {
    if r.backend.None? then
      if PublicKey(Xml(r), KEY_MAX) == [] then Fails(p) else p.(state := CryptoBlocked)
    else
      var (s, frame) := AfterKey(p.session, Xml(r), r.backend.value, PAIR_FRAME_MAX);
      var q := p.(session := s, pairFrame := frame);
      if frame.None? then Fails(q) else Sends(q, PairRequested, r.sending)
  }

  function AfterPair(p: Probe, r: Reply): Probe {
    var (s, answer) := AfterReply(p.session, Xml(r));
    var q := p.(session := s);
    match answer
    case Success => q.(state := Paired, ready := true)
    case PendingTrust => if r.threadStarts then q.(state := TrustPending) else Fails(q.(state := TrustPending))
    case _ => Fails(q)
  }

  predicate Closed(s: ProbeState) {
    s == ProbeFailed || s == Paired || s == Validated || s == CryptoBlocked
  }

  function AfterPlist(p: Probe, r: Reply): Probe {
    if !p.attached || Closed(p.state) || r.body == "" then p
    else
      match p.state
      case QuerySent => if !IsLockdown(r) then Fails(p) else AsksFor(p, "UniqueDeviceID", GetUdidSent, r.sending)
      case GetUdidSent => AfterUdid(p, r)
      case ValidateSent => AfterValidate(p, r)
      case GetWifiSent => AsksPublicKey(p, r.sending)
      case PublicKeySent => AfterPublicKey(p, r)
      case PairRequested => AfterPair(p, r)
      case TrustPending => AfterPair(p, r)
      case _ => p
  }

  datatype Event =
      Attach(descriptors: bool, endpoint: bool, configured: bool)
    | Detach
    | Failure
    | ControlDone(ok: bool, version: Sending)
    | VersionReply(ok: bool, setup: Sending, syn: Sending)
    | SynReply(ok: bool, ack: Sending, query: Sending)
    | Plist(reply: Reply)
    | DataAck(ack: Sending)
    | RetryTest(go: bool)
    | RetryStore
    | RetrySend(sending: Sending)

  function AfterAttach(p: Probe, descriptors: bool, endpoint: bool, configured: bool): Probe {
    if p.attached then p
    else
      var q := Probe(ProbeIdle, false, true, FRESH, None, p.armed);
      if !descriptors then Fails(q).(attached := false)
      else if !endpoint then Fails(q)
      else if !configured then Fails(q.(state := Configuring))
      else q.(state := Configuring)
  }

  function AfterControl(p: Probe, ok: bool, version: Sending): Probe {
    if !p.attached then p
    else if !ok || p.state != Configuring then Fails(p)
    else Sends(p.(state := UsbReady), VersionSent, version)
  }

  function AfterVersion(p: Probe, ok: bool, setup: Sending, syn: Sending): Probe {
    if !p.attached || p.state != VersionSent then p
    else if !ok then Fails(p)
    else
      var q := Sends(p, MuxV2, setup);
      if setup == Refused then q else Sends(q, SynSent, syn)
  }

  function AfterSyn(p: Probe, ok: bool, ack: Sending, query: Sending): Probe {
    if !p.attached || p.state != SynSent then p
    else if !ok then Fails(p)
    else
      var q := Sends(p, Connected, ack);
      if ack == Refused then q else Sends(q, QuerySent, query)
  }

  function Step(p: Probe, e: Event): Probe {
    match e
    case Attach(descriptors, endpoint, configured) => AfterAttach(p, descriptors, endpoint, configured)
    case Detach => Probe(ProbeIdle, false, false, p.session, None, p.armed)
    case Failure => Fails(p)
    case ControlDone(ok, version) => AfterControl(p, ok, version)
    case VersionReply(ok, setup, syn) => AfterVersion(p, ok, setup, syn)
    case SynReply(ok, ack, query) => AfterSyn(p, ok, ack, query)
    case Plist(reply) => AfterPlist(p, reply)
    case DataAck(ack) => if p.attached && p.state != ProbeFailed && ack != Queued then Fails(p) else p
    case RetryTest(go) => p.(armed := p.armed || (go && p.attached && p.state == TrustPending))
    case RetryStore => if p.armed then p.(state := PairRequested, armed := false) else p
    case RetrySend(sending) => if p.pairFrame.Some? && sending != Queued then Fails(p) else p
  }

  // ------------------------------------------------------------------- what it asks

  /** The first request of the conversation. */
  function QueryType(): Frame {
    Framed(Render(HeadTags()[..4] + Entry("string", "Label", "iPhoneTether360") + Entry("string", "Request", "QueryType") + Ends()))
  }

  function Opt(f: Option<Frame>): seq<Frame> {
    if f.None? then [] else [f.value]
  }

  function AskedAfterUdid(r: Reply): seq<Frame> {
    var udid := StringValue(Xml(r), "Value", 96);
    if udid.None? || udid.value == "" then []
    else if r.record.Some? then Opt(PairingFrame(r.record.value, true, PAIR_FRAME_MAX))
    else Opt(GetValueFrame("WiFiAddress", QUERY_MAX))
  }

  function AskedAfterKey(p: Probe, r: Reply): seq<Frame> {
    if r.backend.None? then [] else Opt(AfterKey(p.session, Xml(r), r.backend.value, PAIR_FRAME_MAX).1)
  }

  function AskedAfterPlist(p: Probe, r: Reply): seq<Frame> {
    if !p.attached || Closed(p.state) || r.body == "" then []
    else
      match p.state
      case QuerySent => if IsLockdown(r) then Opt(GetValueFrame("UniqueDeviceID", QUERY_MAX)) else []
      case GetUdidSent => AskedAfterUdid(r)
      case ValidateSent =>
        if ParsePairingReplyXml(Xml(r), "ValidatePair") == Success then [] else Opt(GetValueFrame("WiFiAddress", QUERY_MAX))
      case GetWifiSent => Opt(Begun(p.session, QUERY_MAX).1)
      case PublicKeySent => AskedAfterKey(p, r)
      case _ => []
  }

  /** The frames that a step hands to SendTcpPayload. */
  function Asked(p: Probe, e: Event): seq<Frame> {
    match e
    case SynReply(ok, ack, _) => if p.attached && p.state == SynSent && ok && ack != Refused then [QueryType()] else []
    case Plist(reply) => AskedAfterPlist(p, reply)
    case RetrySend(_) => Opt(p.pairFrame)
    case _ => []
  }

  /** The state after a run of events since the driver was installed. */
  function After(run: seq<Event>): Probe {
    if run == [] then START else Step(After(run[..|run| - 1]), run[|run| - 1])
  }

  // ------------------------------------------------------------------ properties

  predicate Gate(p: Probe) {
    p.ready ==> p.attached && (p.state == Paired || p.state == Validated)
  }

  /** Probe and session agree on the pair request, and the frame kept for retries is the one of the identity. */
  predicate Coherent(p: Probe) {
    && (p.state == PairRequested || p.state == TrustPending ==>
          && (p.session.state == PairSent || p.session.state == TrustAsked)
          && p.pairFrame.Some? && p.pairFrame == PairingFrame(p.session.identity, false, PAIR_FRAME_MAX))
    && (p.state == TrustPending ==> p.session.state == TrustAsked)
  }

  /** The retry thread stores into the state although a callback has opened the gate since its test. */
  predicate Overruns(p: Probe, e: Event) {
    e.RetryStore? && p.armed && p.ready
  }

  /** One step keeps the gate exactly when it is no such store. */
  lemma GateStep(p: Probe, e: Event)
    requires Gate(p)
    ensures Gate(Step(p, e)) <==> !Overruns(p, e)
  {
    hide GetValueFrame, PairingFrame, PublicKey, Generated, StringValue, ParsePairingReplyXml, CString, IsLockdown;
  }

  lemma {:induction false} AfterPrefix(run: seq<Event>, k: nat)
    requires k < |run|
    ensures After(run[..k + 1]) == Step(After(run[..k]), run[k])
  {
    hide Step;
    assert run[..k + 1][..k] == run[..k];
  }

  ghost predicate GateThroughout(run: seq<Event>) {
    forall k {:trigger run[..k]} :: 0 <= k <= |run| ==> Gate(After(run[..k]))
  }

  ghost predicate NeverOverrun(run: seq<Event>) {
    forall k {:trigger run[..k]} :: 0 <= k < |run| ==> !Overruns(After(run[..k]), run[k])
  }

  /** Over any run of whole callbacks, the gate holds at every moment exactly when no store of the retry thread overruns it. */
  lemma {:induction false} GateHoldsIff(run: seq<Event>)
    ensures GateThroughout(run) <==> NeverOverrun(run)
  {
    hide Step, Gate, Overruns;
    if NeverOverrun(run) {
      forall k | 0 <= k <= |run| ensures Gate(After(run[..k])) {
        GateUpTo(run, k);
      }
    } else {
      var k :| 0 <= k < |run| && Overruns(After(run[..k]), run[k]);
      AfterPrefix(run, k);
      if Gate(After(run[..k])) {
        GateStep(After(run[..k]), run[k]);
        assert !Gate(After(run[..k + 1]));
      }
    }
  }

  lemma {:induction false} GateUpTo(run: seq<Event>, k: nat)
    requires NeverOverrun(run) && k <= |run|
    ensures Gate(After(run[..k]))
  {
    hide Step, Overruns;
    if k > 0 {
      GateUpTo(run, k - 1);
      AfterPrefix(run, k - 1);
      GateStep(After(run[..k - 1]), run[k - 1]);
    }
  }

  /** A store of the retry thread finds the state its test found. */
  predicate InOrder(p: Probe, e: Event) {
    e.RetryStore? && p.armed ==> p.state == TrustPending
  }

  ghost predicate Orderly(run: seq<Event>) {
    forall k {:trigger run[..k]} :: 0 <= k < |run| ==> InOrder(After(run[..k]), run[k])
  }

  lemma CoherentStep(p: Probe, e: Event)
    requires Coherent(p) && InOrder(p, e)
    ensures Coherent(Step(p, e))
  {
    hide GetValueFrame, PairingFrame, PublicKey, Generated, StringValue, ParsePairingReplyXml, CString, IsLockdown;
  }

  /**
   When the retry thread's test and store happen together, the gate is open only
   in a paired state, and a retry sends the frame of the session's identity.
   */
  lemma {:induction false} PairingGate(run: seq<Event>, k: nat)
    requires Orderly(run) && k <= |run|
    ensures Gate(After(run[..k])) && Coherent(After(run[..k]))
  {
    hide Step;
    if k > 0 {
      PairingGate(run, k - 1);
      AfterPrefix(run, k - 1);
      CoherentStep(After(run[..k - 1]), run[k - 1]);
      GateStep(After(run[..k - 1]), run[k - 1]);
    }
  }

  /** The step handles a success reply to the request the probe is waiting on. */
  predicate Answers(p: Probe, e: Event) {
    && e.Plist? && p.attached && e.reply.body != ""
    && if p.state == ValidateSent then ParsePairingReplyXml(Xml(e.reply), "ValidatePair") == Success
       else (p.state == PairRequested || p.state == TrustPending)
            && (p.session.state == PairSent || p.session.state == TrustAsked)
            && ParsePairingReplyXml(Xml(e.reply), "Pair") == Success
  }

  lemma OpensOnlyByAnswer(p: Probe, e: Event)
    requires Step(p, e).ready && !p.ready
    ensures Answers(p, e)
  {
    hide GetValueFrame, PairingFrame, PublicKey, Generated, StringValue, ParsePairingReplyXml, CString, IsLockdown;
  }

  ghost predicate AnsweredAt(run: seq<Event>, k: nat) {
    k < |run| && Answers(After(run[..k]), run[k])
    && forall j {:trigger run[..j]} :: k < j <= |run| ==> After(run[..j]).ready
  }

  /** In every run, raced or not, an open gate was opened by a success reply and stayed open since. */
  lemma {:induction false} ReadyMeansAnswered(run: seq<Event>)
    requires After(run).ready
    ensures exists k: nat :: AnsweredAt(run, k)
    decreases |run|
  {
    hide Step, Answers;
    assert run != [];
    var n := |run| - 1;
    var before := run[..n];
    assert run[..n + 1] == run;
    if After(before).ready {
      ReadyMeansAnswered(before);
      var k: nat :| AnsweredAt(before, k);
      assert before[..k] == run[..k];
      forall j | k < j <= |run| ensures After(run[..j]).ready {
        if j <= n {
          assert before[..j] == run[..j];
        }
      }
      assert AnsweredAt(run, k);
    } else {
      OpensOnlyByAnswer(After(before), run[n]);
      forall j | n < j <= |run| ensures After(run[..j]).ready {
        assert j == |run|;
      }
      assert AnsweredAt(run, n);
    }
  }

  /** What the tether worker tests before it starts its control setup. */
  predicate StartsSetup(p: Probe, waitingPair: bool, controlBusy: bool) {
    waitingPair && !controlBusy && p.ready
  }

  /** Tethering starts only on a paired phone, and after a reply that answered the request. */
  lemma SetupOnlyWhenPaired(run: seq<Event>, waitingPair: bool, controlBusy: bool)
    requires NeverOverrun(run) && StartsSetup(After(run), waitingPair, controlBusy)
    ensures After(run).state == Paired || After(run).state == Validated
    ensures exists k: nat :: AnsweredAt(run, k)
  {
    hide Step, Overruns, AnsweredAt;
    assert run[..|run|] == run;
    GateUpTo(run, |run|);
    ReadyMeansAnswered(run);
  }

  /**
   The race: a success reply between the retry thread's test and its store leaves
   the gate open in an unpaired state, and whatever the phone sends next is taken
   for an invalid reply and fails the pairing.
   */
  lemma RetryRace(p: Probe, success: Reply, next: Reply)
    requires p.attached && p.state == TrustPending && p.session.state == TrustAsked
    requires ParsePairingReplyXml(Xml(success), "Pair") == Success && next.body != ""
    ensures var raced := Step(Step(Step(p, RetryTest(true)), Plist(success)), RetryStore);
      && raced.ready && raced.state == PairRequested && !Gate(raced)
      && Step(raced, Plist(next)).state == ProbeFailed && !Step(raced, Plist(next)).ready
  {
    hide Step, AfterPlist, ParsePairingReplyXml;
    var tested := Step(p, RetryTest(true));
    assert tested == p.(armed := true) by { TestStep(p); }
    var answered := Step(tested, Plist(success));
    SuccessStep(tested, success);
    StoreStep(answered);
    UnexpectedStep(Step(answered, RetryStore), next);
  }

  lemma TestStep(p: Probe)
    requires p.attached && p.state == TrustPending
    ensures Step(p, RetryTest(true)) == p.(armed := true)
  {
  }

  lemma SuccessStep(p: Probe, r: Reply)
    requires p.attached && p.state == TrustPending && p.session.state == TrustAsked
    requires ParsePairingReplyXml(Xml(r), "Pair") == Success
    ensures Step(p, Plist(r)) == p.(state := Paired, ready := true, session := p.session.(state := SessionPaired))
  {
    hide ParsePairingReplyXml, CString;
    EmptyInvalid();
  }

  /** An empty text answers nothing. */
  lemma EmptyInvalid()
    ensures ParsePairingReplyXml("", "Pair") == Invalid && ParsePairingReplyXml("", "ValidatePair") == Invalid
    ensures CString("") == ""
  {
    assert FindFrom("", "<plist", 0) == None;
  }

  lemma StoreStep(p: Probe)
    requires p.armed
    ensures Step(p, RetryStore) == p.(state := PairRequested, armed := false)
  {
  }

  lemma UnexpectedStep(p: Probe, r: Reply)
    requires p.attached && p.state == PairRequested && p.session.state == SessionPaired && r.body != ""
    ensures Step(p, Plist(r)).state == ProbeFailed && !Step(p, Plist(r)).ready
  {
    hide ParsePairingReplyXml, CString;
  }

  // --------------------------------------------------------- the ways out of a failure

  /** A failed probe goes on: it is removed, or the retry thread stores, or a new phone is attached. */
  predicate Revives(p: Probe, e: Event) {
    || e.Detach?
    || (e.RetryStore? && p.armed)
    || (e.Attach? && !p.attached && e.descriptors && e.endpoint && e.configured)
  }

  /** Every other event leaves a failed probe failed. */
  lemma FailedStep(p: Probe, e: Event)
    requires p.state == ProbeFailed
    ensures Step(p, e).state == ProbeFailed <==> !Revives(p, e)
  {
    hide AfterPlist;
    if e.Plist? {
      ClosedStep(p, e.reply);
    }
  }

  lemma ClosedStep(p: Probe, r: Reply)
    requires Closed(p.state)
    ensures AfterPlist(p, r) == p
  {
  }

  ghost predicate FailedFrom(run: seq<Event>, k: nat) {
    forall j {:trigger run[..j]} :: k <= j <= |run| ==> After(run[..j]).state == ProbeFailed
  }

  ghost predicate NoRevival(run: seq<Event>, k: nat) {
    forall j {:trigger run[..j]} :: k <= j < |run| ==> !Revives(After(run[..j]), run[j])
  }

  /** In every run: a probe that has failed stays so to the end exactly when nothing revives it. */
  lemma {:induction false} FailedStaysIff(run: seq<Event>, k: nat)
    requires k <= |run| && After(run[..k]).state == ProbeFailed
    ensures FailedFrom(run, k) <==> NoRevival(run, k)
  {
    hide Step, Revives;
    if NoRevival(run, k) {
      forall j | k <= j <= |run| ensures After(run[..j]).state == ProbeFailed {
        FailedUpTo(run, k, j);
      }
    } else {
      var j :| k <= j < |run| && Revives(After(run[..j]), run[j]);
      AfterPrefix(run, j);
      if After(run[..j]).state == ProbeFailed {
        FailedStep(After(run[..j]), run[j]);
        assert After(run[..j + 1]).state != ProbeFailed;
      }
    }
  }

  lemma {:induction false} FailedUpTo(run: seq<Event>, k: nat, j: nat)
    requires k <= j <= |run| && After(run[..k]).state == ProbeFailed && NoRevival(run, k)
    ensures After(run[..j]).state == ProbeFailed
    decreases j
  {
    hide Step, Revives;
    if j > k {
      FailedUpTo(run, k, j - 1);
      AfterPrefix(run, j - 1);
      FailedStep(After(run[..j - 1]), run[j - 1]);
    }
  }

  /** Between the retry thread's test and its store a failure is undone, and a success reply then opens the gate. */
  lemma StoreRevives(p: Probe, success: Reply)
    requires p.attached && p.state == TrustPending && p.session.state == TrustAsked
    requires ParsePairingReplyXml(Xml(success), "Pair") == Success
    ensures var failed := Step(Step(p, RetryTest(true)), Failure);
      && failed.state == ProbeFailed && Revives(failed, RetryStore)
      && Step(failed, RetryStore).state == PairRequested
      && Step(Step(failed, RetryStore), Plist(success)).ready
      && Step(Step(failed, RetryStore), Plist(success)).state == Paired
  {
    hide ParsePairingReplyXml, CString;
    EmptyInvalid();
  }

  /** Sends one after another, each with the state that follows it; the first refusal ends them. */
  function SendsAll(p: Probe, sends: seq<(ProbeState, Sending)>): Probe
    decreases |sends|
  {
    if sends == [] then p
    else
      var q := Sends(p, sends[0].0, sends[0].1);
      if sends[0].1 == Refused then q else SendsAll(q, sends[1..])
  }

  /** The two replies that send twice. */
  lemma SendsTwice(p: Probe, setup: Sending, syn: Sending)
    requires p.attached
    ensures p.state == VersionSent ==>
      AfterVersion(p, true, setup, syn) == SendsAll(p, [(MuxV2, setup), (SynSent, syn)])
    ensures p.state == SynSent ==>
      AfterSyn(p, true, setup, syn) == SendsAll(p, [(Connected, setup), (QuerySent, syn)])
  {
    TwoSends(p, (MuxV2, setup), (SynSent, syn));
    TwoSends(p, (Connected, setup), (QuerySent, syn));
  }

  lemma TwoSends(p: Probe, a: (ProbeState, Sending), b: (ProbeState, Sending))
    ensures SendsAll(p, [a, b]) == if a.1 == Refused then Sends(p, a.0, a.1) else Sends(Sends(p, a.0, a.1), b.0, b.1)
  {
    hide Sends;
    assert [a, b][1..] == [b];
    OneSend(Sends(p, a.0, a.1), b);
  }

  lemma OneSend(p: Probe, a: (ProbeState, Sending))
    ensures SendsAll(p, [a]) == Sends(p, a.0, a.1)
  {
    hide Sends;
    assert [a][1..] == [];
  }

  /**
   A submit that fails inside an accepted send is forgotten: whatever submits fail,
   the probe ends failed exactly when a send was refused, and else where its last send leads.
   */
  lemma {:induction false} SubmitFailureForgotten(p: Probe, sends: seq<(ProbeState, Sending)>)
    requires sends != [] && forall i :: 0 <= i < |sends| ==> sends[i].0 != ProbeFailed
    ensures SendsAll(p, sends).state == ProbeFailed <==> exists i :: 0 <= i < |sends| && sends[i].1 == Refused
    ensures SendsAll(p, sends).state == ProbeFailed || SendsAll(p, sends).state == sends[|sends| - 1].0
    decreases |sends|
  {
    if sends[0].1 != Refused && |sends| > 1 {
      var q := Sends(p, sends[0].0, sends[0].1);
      SubmitFailureForgotten(q, sends[1..]);
      if i :| 0 <= i < |sends| && sends[i].1 == Refused {
        assert sends[1..][i - 1].1 == Refused;
      }
    }
  }

  /** It happens at the first send: with the submit failed the probe waits for a reply, with the packet refused it fails. */
  lemma SubmitFailureGoesOn()
    ensures After([Attach(true, true, true)] + [ControlDone(true, SubmitFailed)]).state == VersionSent
    ensures After([Attach(true, true, true)] + [ControlDone(true, Refused)]).state == ProbeFailed
  {
    hide After;
    var a := Attach(true, true, true);
    AfterEvent([], a);
    assert [] + [a] == [a];
    AfterEvent([a], ControlDone(true, SubmitFailed));
    AfterEvent([a], ControlDone(true, Refused));
    Installed();
  }

  lemma AfterEvent(run: seq<Event>, e: Event)
    ensures After(run + [e]) == Step(After(run), e)
  {
    hide Step;
    assert (run + [e])[..|run|] == run;
  }

  lemma Installed()
    ensures After([]) == START
  {
  }

  // ------------------------------------------------------------- the probe itself

  class LockdownProbe {
    var state: ProbeState
    var ready: bool
    var attached: bool
    const session: PairSession
    var pairFrame: Option<Frame>
    /** The retry thread's place: past its test, before its store. */
    var armed: bool
    /** Every frame handed to SendTcpPayload. */
    ghost var asked: seq<Frame>

    function View(): Probe
      reads this, session
    {
      Probe(state, ready, attached, session.View(), pairFrame, armed)
    }

    constructor ()
      ensures View() == START && fresh(session) && asked == []
    {
      asked := [];
      state, ready, attached, pairFrame, armed := ProbeIdle, false, false, None, false;
      session := new PairSession();
    }

    method Fail()
      modifies this`state, this`ready
      ensures View() == Fails(old(View()))
    {
      state := ProbeFailed;
      ready := false;
    }

    /** A send without payload with the outcome `how`, and what its callers do on success. */
    method SendThen(next: ProbeState, how: Sending)
      modifies this`state, this`ready
      ensures View() == Sends(old(View()), next, how)
    {
      if how != Queued {
        Fail();
      }
      if how != Refused {
        state := next;
      }
    }

    /** SendTcpPayload of the frame. */
    method SendPayload(frame: Frame, next: ProbeState, how: Sending)
      modifies this`state, this`ready, this`asked
      ensures View() == Sends(old(View()), next, how) && asked == old(asked) + [frame]
    {
      asked := asked + [frame];
      SendThen(next, how);
    }

    method SendGetValue(key: string, next: ProbeState, how: Sending)
      modifies this`state, this`ready, this`asked
      ensures View() == AsksFor(old(View()), key, next, how) && asked == old(asked) + Opt(GetValueFrame(key, QUERY_MAX))
    {
      hide GetValueFrame;
      var frame := GetValueFrame(key, QUERY_MAX);
      if frame.None? {
        Fail();
      } else {
        SendPayload(frame.value, next, how);
      }
    }

    method SendGetDevicePublicKey(how: Sending)
      modifies this, session
      ensures View() == AsksPublicKey(old(View()), how) && asked == old(asked) + Opt(Begun(old(session.View()), QUERY_MAX).1)
    {
      hide GetValueFrame, Begun;
      var frame := session.Begin(QUERY_MAX);
      if frame.None? {
        Fail();
      } else {
        SendPayload(frame.value, PublicKeySent, how);
      }
    }

    method SendValidatePair(record: Identity, how: Sending)
      modifies this
      ensures View() == Validates(old(View()), record, how)
      ensures asked == old(asked) + Opt(PairingFrame(record, true, PAIR_FRAME_MAX))
    {
      hide PairingFrame;
      pairFrame := BuildPairingFrame(record, true, PAIR_FRAME_MAX);
      if pairFrame.None? {
        Fail();
      } else {
        SendPayload(pairFrame.value, ValidateSent, how);
      }
    }

    method OnUniqueDeviceId(r: Reply)
      modifies this
      ensures View() == AfterUdid(old(View()), r) && asked == old(asked) + AskedAfterUdid(r)
    {
      hide StringValue, Validates, AsksFor, GetValueFrame, PairingFrame;
      var udid := XmlExtractStringValue(Xml(r), "Value", 96);
      if udid.None? || udid.value == "" {
        Fail();
      } else if r.record.Some? {
        SendValidatePair(r.record.value, r.sending);
      } else {
        SendGetValue("WiFiAddress", GetWifiSent, r.sending);
      }
    }

    method OnValidateReply(r: Reply)
      modifies this
      ensures View() == AfterValidate(old(View()), r)
      ensures asked == old(asked) + if ParsePairingReplyXml(Xml(r), "ValidatePair") == Success then []
                                    else Opt(GetValueFrame("WiFiAddress", QUERY_MAX))
    {
      hide ParsePairingReplyXml, AsksFor, GetValueFrame;
      if ParsePairingReplyXml(Xml(r), "ValidatePair") == Success {
        state := Validated;
        ready := true;
      } else {
        SendGetValue("WiFiAddress", GetWifiSent, r.sending);
      }
    }

    method OnDevicePublicKey(r: Reply)
      modifies this, session
      ensures View() == AfterPublicKey(old(View()), r) && asked == old(asked) + AskedAfterKey(old(View()), r)
    {
      hide PublicKey, AfterKey, Sends;
      if r.backend.None? {
        var key := ParseDevicePublicKeyXml(Xml(r), KEY_MAX);
        if key == [] {
          Fail();
        } else {
          state := CryptoBlocked;
        }
        return;
      }
      pairFrame := session.OnDevicePublicKeyReply(Xml(r), r.backend.value, PAIR_FRAME_MAX);
      if pairFrame.None? {
        Fail();
      } else {
        SendPayload(pairFrame.value, PairRequested, r.sending);
      }
    }

    method OnPairReply(r: Reply)
      modifies this, session
      ensures View() == AfterPair(old(View()), r) && asked == old(asked)
    {
      hide AfterReply;
      var answer := session.OnPairReply(Xml(r));
      match answer {
        case Success =>
          state := Paired;
          ready := true;
        case PendingTrust =>
          state := TrustPending;
          if !r.threadStarts {
            Fail();
          }
        case _ =>
          Fail();
      }
    }

    method HandleCompleteLockdownPlist(r: Reply)
      modifies this, session
      ensures View() == Step(old(View()), Plist(r))
      ensures asked == old(asked) + Asked(old(View()), Plist(r))
    {
      hide AfterUdid, AfterValidate, AfterPublicKey, AfterPair, AsksFor, AsksPublicKey, GetValueFrame, AskedAfterUdid,
           AskedAfterKey, Begun, ParsePairingReplyXml, CString, IsLockdown;
      if !attached || Closed(state) || r.body == "" {
        return;
      }
      match state {
        case QuerySent =>
          if !IsLockdown(r) {
            Fail();
          } else {
            SendGetValue("UniqueDeviceID", GetUdidSent, r.sending);
          }
        case GetUdidSent => OnUniqueDeviceId(r);
        case ValidateSent => OnValidateReply(r);
        case GetWifiSent => SendGetDevicePublicKey(r.sending);
        case PublicKeySent => OnDevicePublicKey(r);
        case PairRequested => OnPairReply(r);
        case TrustPending => OnPairReply(r);
        case _ =>
      }
    }

    method AddDevice(descriptors: bool, endpoint: bool, configured: bool)
      modifies this, session
      ensures View() == Step(old(View()), Attach(descriptors, endpoint, configured))
      ensures asked == old(asked) + Asked(old(View()), Attach(descriptors, endpoint, configured))
    {
      if attached {
        return;
      }
      state, pairFrame, ready := ProbeIdle, None, false;
      session.Reset();
      attached := true;
      if !descriptors {
        Fail();
        attached := false;
        return;
      }
      if !endpoint {
        Fail();
        return;
      }
      state := Configuring;
      if !configured {
        Fail();
      }
    }

    method RemoveDevice()
      modifies this
      ensures View() == Step(old(View()), Detach)
      ensures asked == old(asked) + Asked(old(View()), Detach)
    {
      attached, ready := false, false;
      state, pairFrame := ProbeIdle, None;
    }

    method ControlComplete(ok: bool, version: Sending)
      modifies this
      ensures View() == Step(old(View()), ControlDone(ok, version))
      ensures asked == old(asked) + Asked(old(View()), ControlDone(ok, version))
    {
      if !attached {
        return;
      }
      if !ok || state != Configuring {
        Fail();
        return;
      }
      state := UsbReady;
      SendThen(VersionSent, version);
    }

    method OnVersion(ok: bool, setup: Sending, syn: Sending)
      modifies this
      ensures View() == Step(old(View()), VersionReply(ok, setup, syn))
      ensures asked == old(asked) + Asked(old(View()), VersionReply(ok, setup, syn))
    {
      if !attached || state != VersionSent {
        return;
      }
      if !ok {
        Fail();
        return;
      }
      SendThen(MuxV2, setup);
      if setup != Refused {
        SendThen(SynSent, syn);
      }
    }

    method OnSynReply(ok: bool, ack: Sending, query: Sending)
      modifies this
      ensures View() == Step(old(View()), SynReply(ok, ack, query))
      ensures asked == old(asked) + Asked(old(View()), SynReply(ok, ack, query))
    {
      if !attached || state != SynSent {
        return;
      }
      if !ok {
        Fail();
        return;
      }
      SendThen(Connected, ack);
      if ack != Refused {
        SendPayload(QueryType(), QuerySent, query);
      }
    }

    /** The three steps of one attempt of the retry thread. */
    method TestState(go: bool)
      modifies this
      ensures View() == Step(old(View()), RetryTest(go))
      ensures asked == old(asked) + Asked(old(View()), RetryTest(go))
    {
      if go && attached && state == TrustPending {
        armed := true;
      }
    }

    method StoreState()
      modifies this
      ensures View() == Step(old(View()), RetryStore)
      ensures asked == old(asked) + Asked(old(View()), RetryStore)
    {
      if armed {
        state := PairRequested;
        armed := false;
      }
    }

    method SendAgain(sending: Sending)
      modifies this
      ensures View() == Step(old(View()), RetrySend(sending))
      ensures asked == old(asked) + Asked(old(View()), RetrySend(sending))
    {
      if pairFrame.Some? {
        asked := asked + [pairFrame.value];
        if sending != Queued {
          Fail();
        }
      }
    }
  }
}
