/**
 The control sequence that sets the tether interface up (src/tether_driver.cpp,
 ControlComplete, QueueControl and the worker's start of it): MAC address, NCM mode,
 interface setting, data endpoints, carrier polls; one control transfer at a time.
 The last part runs it beside the pairing conversation that gates it.
 */
module TetherControl {
  import opened Bytes
  import PairGate

  datatype TetherState = TetherIdle | WaitingPair | GetMac | EnableNcm | SetInterface | TetherReady | TetherFailed

  datatype ControlOp = OpNone | OpGetMac | OpEnableNcm | OpSetInterface | OpCarrier

  datatype Tether = Tether(state: TetherState, attached: bool, endpoint: bool, busy: bool, op: ControlOp,
                           ncm: bool, carrier: bool, mac: Mac)

  const ZERO_MAC: Mac := [0, 0, 0, 0, 0, 0]
  const IDLE := Tether(TetherIdle, false, false, false, OpNone, false, false, ZERO_MAC)

  /** The buffer that control replies arrive in. */
  type Reply = r: Bytes | |r| == 0x40 witness Zeros(0x40)

  datatype Event =
      Attach(endpoints: bool, usable: bool, worker: bool)
    | Detach
    | Poll(accepted: bool)
    | CarrierPoll(accepted: bool)
    | Complete(ok: bool, reply: Reply, usable: bool, rx: bool, accepted: bool)
    | Failure

  /** The control transfer is submitted; the USB stack may refuse it. */
  function Queued(t: Tether, op: ControlOp, accepted: bool): (Tether, bool) {
    if !t.attached || !t.endpoint || t.busy then (t, false)
    else if accepted then (t.(busy := true, op := op), true)
    else (t.(busy := false, op := OpNone), false)
  }

  function Failed(t: Tether): Tether {
    t.(state := TetherFailed)
  }

  predicate UsableMac(mac: Mac) {
    mac != ZERO_MAC && mac[0] % 2 == 0
  }

  function AfterAttach(t: Tether, endpoints: bool, usable: bool, worker: bool): Tether {
    if t.attached then t
    else
      var q := IDLE.(attached := true, state := WaitingPair);
      if !endpoints then Failed(q).(attached := false)
      else if !usable then Failed(q)
      else if !worker then Failed(q.(endpoint := true))
      else q.(endpoint := true)
  }

  function AfterPoll(t: Tether, pairReady: bool, accepted: bool): Tether {
    if !t.attached || t.state != WaitingPair || t.busy || !pairReady then t
    else
      var (q, ok) := Queued(t.(state := GetMac), OpGetMac, accepted);
      if ok then q else Failed(q)
  }

  function AfterError(t: Tether, op: ControlOp, accepted: bool): Tether {
    if op == OpEnableNcm then Queued(t.(ncm := false), OpSetInterface, accepted).0
    else if op == OpCarrier then t
    else Failed(t)
  }

  function AfterMac(t: Tether, mac: Mac, accepted: bool): Tether {
    if !UsableMac(mac) then Failed(t)
    else Queued(t.(mac := mac, state := EnableNcm), OpEnableNcm, accepted).0
  }

  function AfterInterface(t: Tether, usable: bool, rx: bool, accepted: bool): Tether {
    if !usable || !rx then Failed(t)
    else Queued(t.(state := TetherReady), OpCarrier, accepted).0
  }

  function AfterControl(t: Tether, ok: bool, reply: Reply, usable: bool, rx: bool, accepted: bool): Tether {
    if !t.attached then t
    else
      var q := t.(busy := false, op := OpNone);
      if !ok then AfterError(q, t.op, accepted)
      else
        match t.op
        case OpGetMac => AfterMac(q, reply[..6], accepted)
        case OpEnableNcm => Queued(q.(ncm := true, state := SetInterface), OpSetInterface, accepted).0
        case OpSetInterface => AfterInterface(q, usable, rx, accepted)
        case OpCarrier => q.(carrier := reply[0] == 0x04 || reply[1] == 0x04)
        case OpNone => q
  }

  /** Errors outside the control transfers: no worker thread while waiting, bulk transfers once ready. */
  function AfterFailure(t: Tether): Tether {
    if t.attached && (t.state == WaitingPair || t.state == TetherReady) then Failed(t) else t
  }

  function Step(t: Tether, e: Event, pairReady: bool): Tether {
    match e
    case Attach(endpoints, usable, worker) => AfterAttach(t, endpoints, usable, worker)
    case Detach => t.(attached := false)
    case Poll(accepted) => AfterPoll(t, pairReady, accepted)
    case CarrierPoll(accepted) =>
      if t.attached && t.state == TetherReady && !t.busy then Queued(t, OpCarrier, accepted).0 else t
    case Complete(ok, reply, usable, rx, accepted) => AfterControl(t, ok, reply, usable, rx, accepted)
    case Failure => AfterFailure(t)
  }

  // -------------------------------------------------------------------- the driver

  class TetherDriver {
    var state: TetherState
    var attached: bool
    var endpoint: bool
    var controlBusy: bool
    var controlOp: ControlOp
    var ncmEnabled: bool
    var carrierOn: bool
    var mac: Mac

    function View(): Tether
      reads this
    {
      Tether(state, attached, endpoint, controlBusy, controlOp, ncmEnabled, carrierOn, mac)
    }

    constructor ()
      ensures View() == IDLE
    {
      state, attached, endpoint, controlBusy, controlOp := TetherIdle, false, false, false, OpNone;
      ncmEnabled, carrierOn, mac := false, false, ZERO_MAC;
    }

    method Fail()
      modifies this`state
      ensures View() == Failed(old(View()))
    {
      state := TetherFailed;
    }

    method QueueControl(op: ControlOp, accepted: bool) returns (ok: bool)
      modifies this`controlBusy, this`controlOp
      ensures (View(), ok) == Queued(old(View()), op, accepted)
    {
      if !attached || !endpoint || controlBusy {
        return false;
      }
      controlOp, controlBusy := op, true;
      if !accepted {
        controlBusy, controlOp := false, OpNone;
        return false;
      }
      return true;
    }

    method AddDevice(endpoints: bool, usable: bool, worker: bool)
      modifies this
      ensures View() == AfterAttach(old(View()), endpoints, usable, worker)
    {
      if attached {
        return;
      }
      endpoint, controlBusy, controlOp, ncmEnabled, carrierOn, mac := false, false, OpNone, false, false, ZERO_MAC;
      attached, state := true, WaitingPair;
      if !endpoints {
        Fail();
        attached := false;
        return;
      }
      if !usable {
        Fail();
        return;
      }
      endpoint := true;
      if !worker {
        Fail();
      }
    }

    /** The worker's poll of the pairing gate. */
    method PollPairing(pairReady: bool, accepted: bool)
      modifies this
      ensures View() == AfterPoll(old(View()), pairReady, accepted)
    {
      if !attached || state != WaitingPair || controlBusy || !pairReady {
        return;
      }
      state := GetMac;
      var ok := QueueControl(OpGetMac, accepted);
      if !ok {
        Fail();
      }
    }

    method OnControlError(op: ControlOp, accepted: bool)
      modifies this
      ensures View() == AfterError(old(View()), op, accepted)
    {
      if op == OpEnableNcm {
        ncmEnabled := false;
        var ok := QueueControl(OpSetInterface, accepted);
      } else if op != OpCarrier {
        Fail();
      }
    }

    method OnMac(reply: Reply, accepted: bool)
      modifies this
      ensures View() == AfterMac(old(View()), reply[..6], accepted)
    {
      var nonzero, i := false, 0;
      while i < 6
        modifies {}
        invariant 0 <= i <= 6 && (nonzero <==> exists k :: 0 <= k < i && reply[k] != 0)
      {
        if reply[i] != 0 {
          nonzero := true;
        }
        i := i + 1;
      }
      NonzeroMac(reply);
      if !nonzero || reply[0] % 2 == 1 {
        Fail();
        return;
      }
      mac := reply[..6];
      state := EnableNcm;
      var ok := QueueControl(OpEnableNcm, accepted);
    }

    method OpenDataEndpoints(usable: bool, rx: bool, accepted: bool)
      modifies this
      ensures View() == AfterInterface(old(View()), usable, rx, accepted)
    {
      if !usable {
        Fail();
        return;
      }
      state := TetherReady;
      if !rx {
        Fail();
        return;
      }
      var ok := QueueControl(OpCarrier, accepted);
    }

    method ControlComplete(ok: bool, reply: Reply, usable: bool, rx: bool, accepted: bool)
      modifies this
      ensures View() == AfterControl(old(View()), ok, reply, usable, rx, accepted)
    {
      hide AfterError, AfterMac, AfterInterface;
      if !attached {
        return;
      }
      var op := controlOp;
      controlBusy, controlOp := false, OpNone;
      if !ok {
        OnControlError(op, accepted);
        return;
      }
      match op {
        case OpGetMac => OnMac(reply, accepted);
        case OpEnableNcm =>
          ncmEnabled, state := true, SetInterface;
          var queued := QueueControl(OpSetInterface, accepted);
        case OpSetInterface => OpenDataEndpoints(usable, rx, accepted);
        case OpCarrier => carrierOn := reply[0] == 0x04 || reply[1] == 0x04;
        case OpNone =>
      }
    }
  }

  lemma NonzeroMac(reply: Reply)
    ensures reply[..6] != ZERO_MAC <==> exists k :: 0 <= k < 6 && reply[k] != 0
  {
    if forall k :: 0 <= k < 6 ==> reply[k] == 0 {
      assert reply[..6] == ZERO_MAC;
    } else {
      var k :| 0 <= k < 6 && reply[k] != 0;
      assert reply[..6][k] == reply[k] && ZERO_MAC[k] == 0;
    }
  }

  // -------------------------------------------------------------------- invariants

  predicate Begun(s: TetherState) {
    s == GetMac || s == EnableNcm || s == SetInterface || s == TetherReady
  }

  /** The transfer in flight belongs to the state, and past the first step the MAC address is usable. */
  predicate Sound(t: Tether) {
    && (t.busy <==> t.op != OpNone)
    && (t.op == OpGetMac ==> t.state == GetMac)
    && (t.op == OpEnableNcm ==> t.state == EnableNcm)
    && (t.op == OpSetInterface ==> t.state == EnableNcm || t.state == SetInterface)
    && (t.op == OpCarrier ==> t.state == TetherReady || t.state == TetherFailed)
    && (Begun(t.state) && t.state != GetMac ==> UsableMac(t.mac))
  }

  lemma StepSound(t: Tether, e: Event, pairReady: bool)
    requires Sound(t)
    ensures Sound(Step(t, e, pairReady))
  {
    hide UsableMac, AfterControl;
    if e.Complete? {
      ControlSound(t, e.ok, e.reply, e.usable, e.rx, e.accepted);
    }
  }

  lemma ControlSound(t: Tether, ok: bool, reply: Reply, usable: bool, rx: bool, accepted: bool)
    requires Sound(t)
    ensures Sound(AfterControl(t, ok, reply, usable, rx, accepted))
  {
    hide UsableMac;
  }

  /** A failed interface stays failed until the next attachment. */
  lemma FailedStays(t: Tether, e: Event, pairReady: bool)
    requires Sound(t) && t.state == TetherFailed
    ensures Step(t, e, pairReady).state == TetherFailed || (e.Attach? && !t.attached)
  {
    hide UsableMac;
  }

  /** Setup is begun only by a poll that finds the pairing gate open; anything else goes on from a begun state. */
  lemma BegunFrom(t: Tether, e: Event, pairReady: bool)
    requires Sound(t) && Begun(Step(t, e, pairReady).state)
    ensures Begun(t.state) || (e.Poll? && t.state == WaitingPair && pairReady)
  {
    hide UsableMac;
  }

  /** Between two steps of the setup with no transfer in flight. */
  predicate Stalled(t: Tether) {
    t.attached && (t.state == EnableNcm || t.state == SetInterface) && !t.busy && t.op == OpNone
  }

  /** The completion asks for the next setup transfer, and the USB stack does not take it. */
  predicate RefusesNext(t: Tether, e: Event) {
    && e.Complete? && t.attached && (!e.accepted || !t.endpoint)
    && (t.op == OpEnableNcm || (t.op == OpGetMac && e.ok && UsableMac(e.reply[..6])))
  }

  /**
   A refused transfer is not reported: the setup is left without the completion it
   waits for. It happens exactly when the transfer after the MAC address, or the one
   after NCM mode was taken or given up, is refused.
   */
  lemma StallsIff(t: Tether, e: Event, pairReady: bool)
    requires Sound(t) && !Stalled(t)
    ensures Stalled(Step(t, e, pairReady)) <==> RefusesNext(t, e)
  {
    hide UsableMac;
  }

  /** What ends that wait: a removal, or the error of a transfer of another attachment. */
  predicate EndsStall(e: Event) {
    e.Detach? || (e.Complete? && !e.ok)
  }

  lemma StalledStays(t: Tether, e: Event, pairReady: bool)
    requires Stalled(t)
    ensures Step(t, e, pairReady) == t <==> !EndsStall(e)
    ensures Stalled(Step(t, e, pairReady)) <==> !EndsStall(e)
    ensures !RefusesNext(t, e)
  {
    hide UsableMac;
  }

  /** What makes the setup fail: an attachment without endpoints or worker, a refused first transfer, an unusable address,
      a data endpoint or receive that does not start, or an error other than of the NCM request and the carrier poll. */
  predicate Breaks(t: Tether, e: Event, pairReady: bool) {
    match e
    case Attach(endpoints, usable, worker) => !t.attached && !(endpoints && usable && worker)
    case Poll(accepted) => t.attached && t.state == WaitingPair && !t.busy && pairReady && !(accepted && t.endpoint)
    case Complete(ok, reply, usable, rx, accepted) =>
      t.attached && t.state != TetherFailed
      && (if !ok then t.op != OpEnableNcm && t.op != OpCarrier
          else (t.op == OpGetMac && ((forall k :: 0 <= k < 6 ==> reply[k] == 0) || reply[0] % 2 == 1))
               || (t.op == OpSetInterface && !(usable && rx)))
    case Failure => t.attached && (t.state == WaitingPair || t.state == TetherReady)
    case _ => false
  }

  /** A new attachment, which starts from scratch. */
  predicate Renews(t: Tether, e: Event) {
    e.Attach? && !t.attached
  }

  /** One step leads into the failed state, or keeps it, exactly so. */
  lemma FailsIff(t: Tether, e: Event, pairReady: bool)
    requires Sound(t)
    ensures Step(t, e, pairReady).state == TetherFailed <==>
      Breaks(t, e, pairReady) || (t.state == TetherFailed && !Renews(t, e))
  {
    if e.Complete? {
      NonzeroMac(e.reply);
      assert e.reply[..6][0] == e.reply[0];
    }
  }

  // --------------------------------------------------------- beside the pairing gate

  datatype Joint = Joint(probe: PairGate.Probe, tether: Tether)

  datatype JointEvent = OfProbe(p: PairGate.Event) | OfTether(t: Event)

  const INSTALLED := Joint(PairGate.START, IDLE)

  function Next(j: Joint, e: JointEvent): Joint {
    match e
    case OfProbe(p) => j.(probe := PairGate.Step(j.probe, p))
    case OfTether(t) => j.(tether := Step(j.tether, t, j.probe.ready))
  }

  function After(run: seq<JointEvent>): Joint {
    if run == [] then INSTALLED else Next(After(run[..|run| - 1]), run[|run| - 1])
  }

  lemma {:induction false} AlwaysSound(run: seq<JointEvent>)
    ensures Sound(After(run).tether)
    decreases |run|
  {
    hide Sound, Step, PairGate.Step;
    if run == [] {
      SoundIdle();
    } else {
      AlwaysSound(run[..|run| - 1]);
      if run[|run| - 1].OfTether? {
        var j := After(run[..|run| - 1]);
        StepSound(j.tether, run[|run| - 1].t, j.probe.ready);
      }
    }
  }

  lemma SoundIdle()
    ensures Sound(IDLE) && !Stalled(IDLE)
  {
  }

  predicate Ends(e: JointEvent) {
    e.OfTether? && EndsStall(e.t)
  }

  /** Event `k` had its transfer refused, and nothing has ended the wait since. */
  ghost predicate StalledSince(run: seq<JointEvent>, k: nat) {
    && k < |run| && run[k].OfTether? && RefusesNext(After(run[..k]).tether, run[k].t)
    && forall i :: k < i < |run| ==> !Ends(run[i])
  }

  /** In every run: the setup is stuck exactly when a transfer of it was refused and nothing has ended the wait since. */
  lemma {:induction false} StalledIff(run: seq<JointEvent>)
    ensures Stalled(After(run).tether) <==> exists k: nat :: StalledSince(run, k)
    decreases |run|
  {
    hide Sound, Stalled, Step, RefusesNext, PairGate.Step;
    if run == [] {
      SoundIdle();
    } else {
      var n := |run| - 1;
      var before := run[..n];
      var t := After(before).tether;
      StalledIff(before);
      StalledBefore(run);
      AlwaysSound(before);
      if run[n].OfTether? {
        if Stalled(t) {
          StalledStays(t, run[n].t, After(before).probe.ready);
        } else {
          StallsIff(t, run[n].t, After(before).probe.ready);
        }
      }
      if Stalled(t) && !Ends(run[n]) {
        var k: nat :| StalledSince(before, k);
        assert StalledSince(run, k);
      } else if run[n].OfTether? && RefusesNext(t, run[n].t) {
        assert StalledSince(run, n);
      } else {
        forall k: nat ensures !StalledSince(run, k) {
          assert StalledSince(run, k) ==> k == n || StalledSince(before, k);
        }
      }
    }
  }

  /** Stalled since an earlier event: stalled before the last one, and that one has not ended it. */
  lemma StalledBefore(run: seq<JointEvent>)
    requires run != []
    ensures forall k: nat :: k < |run| - 1 ==>
              (StalledSince(run, k) <==> StalledSince(run[..|run| - 1], k) && !Ends(run[|run| - 1]))
  {
    hide After, RefusesNext, Ends;
    var n := |run| - 1;
    var before := run[..n];
    forall k: nat | k < n
      ensures StalledSince(run, k) <==> StalledSince(before, k) && !Ends(run[n])
    {
      assert before[..k] == run[..k] && before[k] == run[k];
      assert forall i :: k < i < n ==> before[i] == run[i];
    }
  }

  /** Event `k` made the setup fail, and the interface has not been attached anew since. */
  ghost predicate BrokenSince(run: seq<JointEvent>, k: nat) {
    && k < |run| && run[k].OfTether? && Breaks(After(run[..k]).tether, run[k].t, After(run[..k]).probe.ready)
    && forall i {:trigger run[..i]} :: k < i < |run| && run[i].OfTether? ==> !Renews(After(run[..i]).tether, run[i].t)
  }

  lemma BrokenBefore(run: seq<JointEvent>)
    requires run != []
    ensures var n := |run| - 1;
            var ends := run[n].OfTether? && Renews(After(run[..n]).tether, run[n].t);
      forall k: nat :: k < n ==> (BrokenSince(run, k) <==> BrokenSince(run[..n], k) && !ends)
  {
    hide After, Breaks, Renews;
    var n := |run| - 1;
    var before := run[..n];
    var ends := run[n].OfTether? && Renews(After(before).tether, run[n].t);
    forall k: nat | k < n ensures BrokenSince(run, k) <==> BrokenSince(before, k) && !ends {
      assert before[..k] == run[..k] && before[k] == run[k];
      assert forall i {:trigger run[..i]} :: k < i < n ==> before[i] == run[i] && before[..i] == run[..i];
      if BrokenSince(before, k) && !ends {
        forall i | k < i < |run| && run[i].OfTether? ensures !Renews(After(run[..i]).tether, run[i].t) {
          if i < n {
            assert before[i] == run[i] && before[..i] == run[..i];
          }
        }
      }
      if BrokenSince(run, k) {
        forall i | k < i < n && before[i].OfTether? ensures !Renews(After(before[..i]).tether, before[i].t) {
          assert before[i] == run[i] && before[..i] == run[..i];
        }
        assert !ends by {
          assert run[..n] == before;
        }
      }
    }
  }

  /** In every run, the interface has failed exactly when something made it fail and it was not attached anew since. */
  lemma {:induction false} FailedIff(run: seq<JointEvent>)
    ensures After(run).tether.state == TetherFailed <==> exists k: nat :: BrokenSince(run, k)
    decreases |run|
  {
    hide Sound, Step, Breaks, Renews, PairGate.Step;
    if run != [] {
      var n := |run| - 1;
      var before := run[..n];
      var j := After(before);
      FailedIff(before);
      BrokenBefore(run);
      AlwaysSound(before);
      if run[n].OfTether? {
        FailsIff(j.tether, run[n].t, j.probe.ready);
      }
      if run[n].OfTether? && Breaks(j.tether, run[n].t, j.probe.ready) {
        assert BrokenSince(run, n);
      } else {
        assert !BrokenSince(run, n);
        if k: nat :| BrokenSince(before, k) {
          assert BrokenSince(run, k) <==> !(run[n].OfTether? && Renews(j.tether, run[n].t));
        }
      }
    }
  }

  /** No store of the retry thread goes over an open gate. */
  ghost predicate NeverOverrun(run: seq<JointEvent>) {
    forall k {:trigger run[..k]} :: 0 <= k < |run| && run[k].OfProbe? ==> !PairGate.Overruns(After(run[..k]).probe, run[k].p)
  }

  ghost predicate Kept(j: Joint) {
    Sound(j.tether) && PairGate.Gate(j.probe)
  }

  lemma {:induction false} AlwaysKept(run: seq<JointEvent>)
    requires NeverOverrun(run)
    ensures Kept(After(run))
    decreases |run|
  {
    hide Sound, Step, PairGate.Step, PairGate.Gate, PairGate.Overruns;
    if run == [] {
      StartsKept();
    } else {
      var n := |run| - 1;
      var before := run[..n];
      assert forall k :: 0 <= k < n ==> before[..k] == run[..k] && before[k] == run[k];
      AlwaysKept(before);
      var j := After(before);
      match run[n] {
        case OfProbe(p) =>
          assert !PairGate.Overruns(After(run[..n]).probe, run[n].p);
          PairGate.GateStep(j.probe, p);
        case OfTether(t) => StepSound(j.tether, t, j.probe.ready);
      }
    }
  }

  lemma StartsKept()
    ensures Kept(INSTALLED)
  {
  }

  /** Event `k` began the setup while the phone was paired, and it has gone on since. */
  ghost predicate BegunAt(run: seq<JointEvent>, k: nat) {
    && k < |run| && run[k].OfTether? && run[k].t.Poll?
    && After(run[..k]).tether.state == WaitingPair
    && (After(run[..k]).probe.state == PairGate.Paired || After(run[..k]).probe.state == PairGate.Validated)
    && forall j {:trigger After(run[..j])} :: k < j <= |run| ==> Begun(After(run[..j]).tether.state)
  }

  /** The tether interface is only ever set up, or ready, if the phone was paired when its setup began. */
  lemma {:induction false} SetUpOnlyWhenPaired(run: seq<JointEvent>)
    requires NeverOverrun(run) && Begun(After(run).tether.state)
    ensures exists k: nat :: BegunAt(run, k)
    decreases |run|
  {
    hide NeverOverrun, After, Begun, BegunAt;
    NotBegun();
    var n := |run| - 1;
    var before := run[..n];
    OverrunBefore(run);
    if Begun(After(before).tether.state) {
      SetUpOnlyWhenPaired(before);
      var k: nat :| BegunAt(before, k);
      Extends(run, k);
    } else {
      BeginsLast(run);
    }
  }

  lemma OverrunBefore(run: seq<JointEvent>)
    requires NeverOverrun(run) && run != []
    ensures NeverOverrun(run[..|run| - 1])
  {
    hide After, PairGate.Overruns;
    var before := run[..|run| - 1];
    assert forall k :: 0 <= k < |before| ==> before[..k] == run[..k] && before[k] == run[k];
  }

  lemma BegunLater(before: seq<JointEvent>, k: nat, i: nat)
    requires BegunAt(before, k) && k < i <= |before|
    ensures Begun(After(before[..i]).tether.state)
  {
    hide Begun, After;
  }

  lemma Extends(run: seq<JointEvent>, k: nat)
    requires run != [] && BegunAt(run[..|run| - 1], k) && Begun(After(run).tether.state)
    ensures BegunAt(run, k)
  {
    hide After, Begun, BegunAt;
    var before := run[..|run| - 1];
    forall i | k < i <= |run| ensures Begun(After(run[..i]).tether.state) {
      if i < |run| {
        BegunLater(before, k, i);
        assert before[..i] == run[..i];
      } else {
        assert run[..i] == run;
      }
    }
    ExtendsTo(before, run, k);
  }

  lemma ExtendsTo(before: seq<JointEvent>, run: seq<JointEvent>, k: nat)
    requires BegunAt(before, k) && before <= run
    requires forall i {:trigger After(run[..i])} :: k < i <= |run| ==> Begun(After(run[..i]).tether.state)
    ensures BegunAt(run, k)
  {
    hide After, Begun;
    assert before[..k] == run[..k] && before[k] == run[k];
  }

  lemma BeginsLast(run: seq<JointEvent>)
    requires run != [] && NeverOverrun(run)
    requires Begun(After(run).tether.state) && !Begun(After(run[..|run| - 1]).tether.state)
    ensures BegunAt(run, |run| - 1)
  {
    hide Sound, Step, Begun, NeverOverrun, PairGate.Step;
    var n := |run| - 1;
    var j := After(run[..n]);
    OverrunBefore(run);
    AlwaysKept(run[..n]);
    assert run[..|run|] == run;
    if run[n].OfTether? {
      BegunFrom(j.tether, run[n].t, j.probe.ready);
    }
  }

  lemma NotBegun()
    ensures !Begun(After([]).tether.state)
  {
  }

  // ------------------------------------------------------------------ the setup succeeds

  function AfterAll(t: Tether, events: seq<Event>, pairReady: bool): Tether {
    if events == [] then t else Step(AfterAll(t, events[..|events| - 1], pairReady), events[|events| - 1], pairReady)
  }

  lemma OneEvent(t: Tether, events: seq<Event>, e: Event, pairReady: bool)
    ensures AfterAll(t, events + [e], pairReady) == Step(AfterAll(t, events, pairReady), e, pairReady)
  {
    hide Step;
    assert (events + [e])[..|events|] == events;
  }

  /** What the device answers: its address, and, where `ncm` is not set, an error to the NCM request. */
  function Answers(mac: Reply, ncm: bool, carrier: Reply): seq<Event> {
    [] + [Poll(true)] + [Complete(true, mac, true, true, true)] + [Complete(ncm, mac, true, true, true)]
    + [Complete(true, mac, true, true, true)] + [Complete(true, carrier, true, true, true)]
  }

  /**
   An attached interface whose gate is open is set up by a device that answers: it ends
   ready, with the device's address, in NCM mode unless the device refused that, and
   with the carrier that the first poll reports; nothing is left in flight.
   */
  lemma SetUpCompletes(mac: Reply, ncm: bool, carrier: Reply)
    requires UsableMac(mac[..6])
    ensures var t := AfterAttach(IDLE, true, true, true);
      AfterAll(t, Answers(mac, ncm, carrier), true)
        == Tether(TetherReady, true, true, false, OpNone, ncm, carrier[0] == 4 || carrier[1] == 4, mac[..6])
  {
    hide UsableMac, AfterAll;
    var t := AfterAttach(IDLE, true, true, true);
    var answer := Complete(true, mac, true, true, true);
    assert AfterAll(t, [], true) == t by { NoEvent(t); }
    OneEvent(t, [], Poll(true), true);
    OneEvent(t, [] + [Poll(true)], answer, true);
    OneEvent(t, [] + [Poll(true)] + [answer], Complete(ncm, mac, true, true, true), true);
    OneEvent(t, [] + [Poll(true)] + [answer] + [Complete(ncm, mac, true, true, true)], answer, true);
    OneEvent(t, [] + [Poll(true)] + [answer] + [Complete(ncm, mac, true, true, true)] + [answer],
             Complete(true, carrier, true, true, true), true);
  }

  lemma NoEvent(t: Tether)
    ensures AfterAll(t, [], true) == t
  {
  }
}
