/**
 When the pairing conversation fails (src/usbmux_probe.cpp): over every run, exactly
 what makes the probe fail, and that nothing else does.
 */
module PairFailures {
  import opened Bytes
  import opened PairIdentity
  import opened PairProtocol
  import opened PairSession
  import opened PairGate
  import PairRace

  /** The reply that gives the identifier has none, or its record makes no frame. */
  predicate BadIdentifier(r: Reply) {
    var udid := StringValue(Xml(r), "Value", 96);
    udid.None? || udid.value == "" || (r.record.Some? && PairingFrame(r.record.value, true, PAIR_FRAME_MAX).None?)
  }

  /** The reply that gives the key has none, or, with a crypto backend, no identity and request come of it. */
  predicate BadKey(p: Probe, r: Reply) {
    var key := PublicKey(Xml(r), KEY_MAX);
    || (r.backend.None? && key == [])
    || (r.backend.Some?
        && (p.session.state != GetValueSent || key == [] || Generated(key, r.backend.value).None?
            || PairingFrame(Generated(key, r.backend.value).value, false, PAIR_FRAME_MAX).None?))
  }

  /** The reply to the pair request neither succeeds nor asks for trust, or nobody can wait for the trust. */
  predicate BadPairReply(p: Probe, r: Reply) {
    var answer := ParsePairingReplyXml(Xml(r), "Pair");
    || (p.session.state != PairSent && p.session.state != TrustAsked)
    || (answer != Success && answer != PendingTrust)
    || (answer == PendingTrust && !r.threadStarts)
  }

  predicate BadPlist(p: Probe, r: Reply) {
    match p.state
    case QuerySent => !IsLockdown(r) || r.sending == Refused
    case GetUdidSent => BadIdentifier(r) || r.sending == Refused
    case ValidateSent => ParsePairingReplyXml(Xml(r), "ValidatePair") != Success && r.sending == Refused
    case GetWifiSent => p.session.state != Idle || r.sending == Refused
    case PublicKeySent => BadKey(p, r) || (r.backend.Some? && r.sending == Refused)
    case PairRequested => BadPairReply(p, r)
    case TrustPending => BadPairReply(p, r)
    case _ => false
  }

  /** What makes the probe fail. */
  predicate Breaks(p: Probe, e: Event) {
    match e
    case Attach(descriptors, endpoint, configured) => !p.attached && !(descriptors && endpoint && configured)
    case Failure => true
    case ControlDone(ok, version) => p.attached && (!ok || p.state != Configuring || version == Refused)
    case VersionReply(ok, setup, syn) => p.attached && p.state == VersionSent && (!ok || setup == Refused || syn == Refused)
    case SynReply(ok, ack, query) => p.attached && p.state == SynSent && (!ok || ack == Refused || query == Refused)
    case DataAck(ack) => p.attached && p.state != ProbeFailed && ack != Queued
    case RetrySend(sending) => p.pairFrame.Some? && sending != Queued
    case Plist(r) => p.attached && !Closed(p.state) && r.body != "" && BadPlist(p, r)
    case _ => false
  }

  lemma QueriesFit()
    ensures forall key | key in {"UniqueDeviceID", "WiFiAddress", "DevicePublicKey"} :: GetValueFrame(key, QUERY_MAX).Some?
  {
    hide GetValueFrame;
    PairRace.QueryFits("UniqueDeviceID");
    PairRace.QueryFits("WiFiAddress");
    PairRace.QueryFits("DevicePublicKey");
  }

  lemma PlistFailsIff(p: Probe, r: Reply)
    requires p.attached && !Closed(p.state) && r.body != ""
    ensures AfterPlist(p, r).state == ProbeFailed <==> BadPlist(p, r)
  {
    hide GetValueFrame, PairingFrame, PublicKey, Generated, StringValue, ParsePairingReplyXml, CString, IsLockdown;
    QueriesFit();
  }

  /** One step leads into the failed state, or keeps it, exactly so. */
  lemma FailsIff(p: Probe, e: Event)
    ensures Step(p, e).state == ProbeFailed <==> Breaks(p, e) || (p.state == ProbeFailed && !Revives(p, e))
  {
    hide AfterPlist, BadPlist;
    if e.Plist? && p.attached && !Closed(p.state) && e.reply.body != "" {
      PlistFailsIff(p, e.reply);
    } else if e.Plist? {
      Ignored(p, e.reply);
    }
  }

  lemma Ignored(p: Probe, r: Reply)
    requires !p.attached || Closed(p.state) || r.body == ""
    ensures AfterPlist(p, r) == p
  {
  }

  /** Event `k` made the probe fail, and nothing has revived it since. */
  ghost predicate BrokenSince(run: seq<Event>, k: nat) {
    && k < |run| && Breaks(After(run[..k]), run[k])
    && forall i {:trigger run[..i]} :: k < i < |run| ==> !Revives(After(run[..i]), run[i])
  }

  lemma BrokenBefore(run: seq<Event>)
    requires run != []
    ensures var n := |run| - 1;
      forall k: nat :: k < n ==> (BrokenSince(run, k) <==> BrokenSince(run[..n], k) && !Revives(After(run[..n]), run[n]))
  {
    hide After, Breaks, Revives;
    var n := |run| - 1;
    var before := run[..n];
    assert forall i {:trigger run[..i]} :: 0 <= i < n ==> before[..i] == run[..i] && before[i] == run[i];
    forall k: nat | k < n ensures BrokenSince(run, k) <==> BrokenSince(before, k) && !Revives(After(before), run[n]) {
      assert before[..k] == run[..k] && before[k] == run[k] && run[..n] == before;
      if BrokenSince(before, k) && !Revives(After(before), run[n]) {
        forall i | k < i < |run| ensures !Revives(After(run[..i]), run[i]) {
          assert i < n ==> before[..i] == run[..i] && before[i] == run[i];
        }
      }
      if BrokenSince(run, k) {
        forall i | k < i < n ensures !Revives(After(before[..i]), before[i]) {
          assert before[..i] == run[..i] && before[i] == run[i];
        }
      }
    }
  }

  /** In every run of whole callbacks: the probe has failed exactly when something made it fail and nothing has revived it since. */
  lemma {:induction false} FailedIff(run: seq<Event>)
    ensures After(run).state == ProbeFailed <==> exists k: nat :: BrokenSince(run, k)
    decreases |run|
  {
    hide Step, Breaks, Revives;
    if run != [] {
      var n := |run| - 1;
      var before := run[..n];
      FailedIff(before);
      BrokenBefore(run);
      FailsIff(After(before), run[n]);
      if Breaks(After(before), run[n]) {
        assert BrokenSince(run, n);
      } else {
        assert !BrokenSince(run, n);
        if k: nat :| BrokenSince(before, k) {
          assert BrokenSince(run, k) <==> !Revives(After(before), run[n]);
        }
      }
    }
  }
}
