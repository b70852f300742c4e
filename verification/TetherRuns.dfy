/**
 The tether driver beside the probe, store by store (src/tether_driver.cpp,
 src/usbmux_probe.cpp): the worker polls the pairing gate between any two stores of
 the probe's callbacks and its retry thread. And runs from the installed drivers on
 that reach what `TetherControl` and `PairStores` give the conditions of.
 */
module TetherRuns {
  import opened Bytes
  import opened PairIdentity
  import opened PairRace
  import PairGate
  import P = PairStores
  import T = TetherControl

  datatype Joint = Joint(system: P.System, tether: T.Tether)

  datatype Move = OfProbe(m: P.Move) | OfTether(t: T.Event)

  const INSTALLED := Joint(P.INSTALLED, T.IDLE)

  function Next(j: Joint, m: Move): Joint {
    match m
    case OfProbe(p) => j.(system := P.Next(j.system, p))
    case OfTether(t) => j.(tether := T.Step(j.tether, t, j.system.probe.ready))
  }

  function After(run: seq<Move>): Joint {
    if run == [] then INSTALLED else Next(After(run[..|run| - 1]), run[|run| - 1])
  }

  /** The moves of the probe in a run. */
  function Probes(run: seq<Move>): seq<P.Move> {
    if run == [] then []
    else Probes(run[..|run| - 1]) + if run[|run| - 1].OfProbe? then [run[|run| - 1].m] else []
  }

  lemma {:induction false} ProbeAlone(run: seq<Move>)
    ensures After(run).system == P.After(Probes(run))
    decreases |run|
  {
    hide P.Next, T.Step;
    if run != [] {
      var before, m := run[..|run| - 1], run[|run| - 1];
      ProbeAlone(before);
      if m.OfProbe? {
        assert (Probes(before) + [m.m])[..|Probes(before)|] == Probes(before);
      } else {
        assert Probes(before) + [] == Probes(before);
      }
    }
  }

  lemma {:induction false} AlwaysSound(run: seq<Move>)
    ensures T.Sound(After(run).tether)
    decreases |run|
  {
    hide T.Sound, T.Step, P.Next;
    if run == [] {
      T.SoundIdle();
    } else {
      AlwaysSound(run[..|run| - 1]);
      var j := After(run[..|run| - 1]);
      if run[|run| - 1].OfTether? {
        T.StepSound(j.tether, run[|run| - 1].t, j.system.probe.ready);
      }
    }
  }

  /** Move `k` is the poll that began the setup, and it has gone on since. */
  ghost predicate BegunAt(run: seq<Move>, k: nat) {
    && k < |run| && run[k].OfTether? && run[k].t.Poll? && PollFinds(After(run[..k]))
    && forall i {:trigger After(run[..i])} :: k < i <= |run| ==> T.Begun(After(run[..i]).tether.state)
  }

  predicate PollFinds(j: Joint) {
    j.tether.state == T.WaitingPair && j.system.probe.ready
  }

  /** At that moment the phone was paired exactly when no store had misled the gate. */
  ghost predicate PairedIffNotMisled(run: seq<Move>) {
    P.Open(After(run).system.probe) <==> forall i: nat :: !P.MisledSince(Probes(run), i)
  }

  /**
   In every interleaving of single stores and tether steps: an interface in setup, or
   ready, had its setup begun by a poll that found the gate open, and the phone was
   paired at that moment if and only if no store had unpaired or detached it under an
   open gate, or opened the gate over such a store, without being made up for.
   */
  lemma {:induction false} SetUpBegan(run: seq<Move>)
    requires T.Begun(After(run).tether.state)
    ensures exists k: nat :: k < |run| && BegunAt(run, k) && PairedIffNotMisled(run[..k])
    decreases |run|
  {
    hide After, T.Begun, BegunAt, PairedIffNotMisled;
    NotBegun();
    var n := |run| - 1;
    var before := run[..n];
    if T.Begun(After(before).tether.state) {
      SetUpBegan(before);
      var k: nat :| k < |before| && BegunAt(before, k) && PairedIffNotMisled(before[..k]);
      assert before[..k] == run[..k];
      Extends(before, run, k);
    } else {
      BeginsLast(run);
    }
  }

  lemma NotBegun()
    ensures !T.Begun(After([]).tether.state)
  {
  }

  lemma BegunLater(run: seq<Move>, k: nat, i: nat)
    requires BegunAt(run, k) && k < i <= |run|
    ensures T.Begun(After(run[..i]).tether.state)
  {
    hide T.Begun, After;
  }

  lemma Extends(before: seq<Move>, run: seq<Move>, k: nat)
    requires BegunAt(before, k) && before <= run && |run| == |before| + 1 && T.Begun(After(run).tether.state)
    ensures BegunAt(run, k)
  {
    hide After, T.Begun, BegunAt;
    forall i | k < i <= |run| ensures T.Begun(After(run[..i]).tether.state) {
      if i < |run| {
        BegunLater(before, k, i);
        assert before[..i] == run[..i];
      } else {
        assert run[..i] == run;
      }
    }
    ExtendsTo(before, run, k);
  }

  lemma ExtendsTo(before: seq<Move>, run: seq<Move>, k: nat)
    requires BegunAt(before, k) && before <= run
    requires forall i {:trigger After(run[..i])} :: k < i <= |run| ==> T.Begun(After(run[..i]).tether.state)
    ensures BegunAt(run, k)
  {
    hide After, T.Begun, PollFinds;
    assert before[..k] == run[..k] && before[k] == run[k];
  }

  lemma BeginsLast(run: seq<Move>)
    requires run != [] && T.Begun(After(run).tether.state) && !T.Begun(After(run[..|run| - 1]).tether.state)
    ensures BegunAt(run, |run| - 1) && PairedIffNotMisled(run[..|run| - 1])
  {
    hide T.Begun, After, BegunAt, PairedIffNotMisled, PollFinds;
    var n := |run| - 1;
    AlwaysSound(run[..n]);
    AfterSnoc(run);
    BegunByPoll(After(run[..n]), run[n]);
    BegunHere(run);
    OpenIff(run[..n]);
  }

  lemma AfterSnoc(run: seq<Move>)
    requires run != []
    ensures After(run) == Next(After(run[..|run| - 1]), run[|run| - 1])
  {
    hide Next;
  }

  lemma BegunHere(run: seq<Move>)
    requires run != [] && T.Begun(After(run).tether.state)
    requires var n := |run| - 1; run[n].OfTether? && run[n].t.Poll? && PollFinds(After(run[..n]))
    ensures BegunAt(run, |run| - 1)
  {
    hide T.Begun, After, PollFinds;
    assert run[..|run|] == run;
  }

  lemma BegunByPoll(j: Joint, m: Move)
    requires T.Sound(j.tether) && !T.Begun(j.tether.state) && T.Begun(Next(j, m).tether.state)
    ensures m.OfTether? && m.t.Poll? && PollFinds(j) && j.system.probe.ready
  {
    hide T.Sound, T.Step, T.Begun, P.Next;
    if m.OfTether? {
      T.BegunFrom(j.tether, m.t, j.system.probe.ready);
    }
  }

  lemma OpenIff(run: seq<Move>)
    requires After(run).system.probe.ready
    ensures PairedIffNotMisled(run)
  {
    hide After, P.After, P.Open, P.MisledSince;
    ProbeAlone(run);
    P.MisleadingIff(Probes(run));
  }

  // ------------------------------------------------------ a poll between two stores

  /** The probe's moves alone, in a run with the tether driver. */
  function OfProbes(moves: seq<P.Move>): seq<Move> {
    seq(|moves|, i requires 0 <= i < |moves| => OfProbe(moves[i]))
  }

  lemma {:induction false} AfterOfProbes(moves: seq<P.Move>)
    ensures After(OfProbes(moves)) == Joint(P.After(moves), T.IDLE)
    decreases |moves|
  {
    hide P.Next;
    if moves != [] {
      var before := moves[..|moves| - 1];
      AfterOfProbes(before);
      assert OfProbes(moves)[..|moves| - 1] == OfProbes(before);
    }
  }

  lemma AfterMove(run: seq<Move>, m: Move)
    ensures After(run + [m]) == Next(After(run), m)
  {
    hide Next;
    assert (run + [m])[..|run|] == run;
  }

  /** Any phone pairs, and then a failure makes the first of its two stores. */
  function HalfFailed(f: Phone, b: Backend): seq<P.Move> {
    P.Finely(Pairing(f, b) + [Got(SuccessReply(), b)]) + ([] + [P.Callback(PairGate.Failure)] + [P.Write])
  }

  lemma HalfFails(f: Phone, b: Backend)
    requires Pairable(f, b)
    ensures var s := P.After(HalfFailed(f, b));
      s.probe.ready && s.probe.state == PairGate.ProbeFailed && s.thread == P.Resting
  {
    hide P.After, P.Finely, P.Exec, PairGate.After, PairGate.Step, Pairing, SuccessReply;
    var run := Pairing(f, b) + [Got(SuccessReply(), b)];
    Pairs(f, b);
    OnlyCallbacks(f, b);
    P.FinelySame(run);
    P.AfterExec(P.Finely(run), [] + [P.Callback(PairGate.Failure)] + [P.Write]);
    FailureHalf(P.After(P.Finely(run)));
  }

  lemma OnlyCallbacks(f: Phone, b: Backend)
    ensures var run := Pairing(f, b) + [Got(SuccessReply(), b)];
      forall i :: 0 <= i < |run| ==> !P.OfThread(run[i])
  {
    hide Pairing, SuccessReply, P.OfThread;
    PairingEvents(f, b);
    assert !P.OfThread(Got(SuccessReply(), b)) by {
      PlistIsCallback(Got(SuccessReply(), b));
    }
  }

  lemma PlistIsCallback(e: PairGate.Event)
    ensures e.Plist? ==> !P.OfThread(e)
  {
  }

  lemma FailureHalf(s: P.System)
    requires s.callback == []
    ensures P.Exec(s, [] + [P.Callback(PairGate.Failure)] + [P.Write])
         == s.(probe := s.probe.(state := PairGate.ProbeFailed), callback := [P.ToReady(false)])
  {
    hide P.Exec, P.Stores, P.Entered, P.FAIL;
    P.StartExec(s);
    P.ExecSnoc(s, [], P.Callback(PairGate.Failure));
    P.ExecSnoc(s, [] + [P.Callback(PairGate.Failure)], P.Write);
    FailureEntered(s.probe);
    P.FailTail();
  }

  lemma FailureEntered(p: PairGate.Probe)
    ensures P.Entered(p, PairGate.Failure) == p && P.Stores(p, PairGate.Failure) == P.FAIL
  {
  }

  /** A tether interface attached, and polled with the gate open. */
  lemma PollStarts(ready: bool)
    ensures var t := T.Step(T.Step(T.IDLE, T.Attach(true, true, true), ready), T.Poll(true), true);
      t.state == T.GetMac && t.attached && t.op == T.OpGetMac && T.Sound(t) && !T.Stalled(t)
  {
  }

  /**
   From the installed drivers on, for every phone that can be paired, and with the retry
   thread at rest: a poll between the two stores of a failure starts the setup of a
   failed probe.
   */
  lemma PollMeetsFailure(f: Phone, b: Backend)
    requires Pairable(f, b)
    ensures var j := After(OfProbes(HalfFailed(f, b)) + [OfTether(T.Attach(true, true, true))] + [OfTether(T.Poll(true))]);
      j.tether.state == T.GetMac && j.system.probe.state == PairGate.ProbeFailed && j.system.thread == P.Resting
  {
    hide After, P.After, HalfFailed, T.Step;
    PollStarts(true);
    var run := OfProbes(HalfFailed(f, b));
    HalfFails(f, b);
    AfterOfProbes(HalfFailed(f, b));
    AfterMove(run, OfTether(T.Attach(true, true, true)));
    AfterMove(run + [OfTether(T.Attach(true, true, true))], OfTether(T.Poll(true)));
  }

  // ---------------------------------------------------------------- a stalled setup

  /** A usable hardware address in the reply to the first request. */
  predicate NamesMac(reply: T.Reply) {
    T.UsableMac(reply[..6])
  }

  lemma CoarseMove(run: seq<T.JointEvent>, e: T.JointEvent)
    ensures T.After(run + [e]) == T.Next(T.After(run), e)
  {
    hide T.Next;
    assert (run + [e])[..|run|] == run;
  }

  function OfEvents(events: seq<PairGate.Event>): seq<T.JointEvent> {
    seq(|events|, i requires 0 <= i < |events| => T.OfProbe(events[i]))
  }

  lemma {:induction false} AfterOfEvents(events: seq<PairGate.Event>)
    ensures T.After(OfEvents(events)) == T.Joint(PairGate.After(events), T.IDLE)
    decreases |events|
  {
    hide PairGate.Step;
    if events != [] {
      var before := events[..|events| - 1];
      AfterOfEvents(before);
      assert OfEvents(events)[..|events| - 1] == OfEvents(before);
    }
  }

  /**
   From the installed drivers on, for every phone that can be paired and every usable
   hardware address: with the transfer that asks for NCM mode refused, the setup is
   stuck, and `TetherControl.StalledIff` names that moment.
   */
  lemma StallReached(f: Phone, b: Backend, reply: T.Reply)
    requires Pairable(f, b) && NamesMac(reply)
    ensures var run := OfEvents(Pairing(f, b) + [Got(SuccessReply(), b)]) + [T.OfTether(T.Attach(true, true, true))]
                       + [T.OfTether(T.Poll(true))] + [T.OfTether(T.Complete(true, reply, true, true, false))];
      T.Stalled(T.After(run).tether) && T.StalledSince(run, |run| - 1)
  {
    hide T.After, PairGate.After, Pairing, SuccessReply, NamesMac, T.Stalled, T.StalledSince;
    Pairs(f, b);
    AfterOfEvents(Pairing(f, b) + [Got(SuccessReply(), b)]);
    StallAfter(OfEvents(Pairing(f, b) + [Got(SuccessReply(), b)]), reply);
  }

  lemma StallAfter(paired: seq<T.JointEvent>, reply: T.Reply)
    requires T.After(paired).tether == T.IDLE && T.After(paired).probe.ready && NamesMac(reply)
    ensures var run := paired + [T.OfTether(T.Attach(true, true, true))]
                       + [T.OfTether(T.Poll(true))] + [T.OfTether(T.Complete(true, reply, true, true, false))];
      T.Stalled(T.After(run).tether) && T.StalledSince(run, |run| - 1)
  {
    hide T.After, T.UsableMac, T.Step, T.Stalled, T.Sound, PairGate.Step;
    PollStarts(true);
    var attach, poll := T.OfTether(T.Attach(true, true, true)), T.OfTether(T.Poll(true));
    var refused := T.OfTether(T.Complete(true, reply, true, true, false));
    var asked := paired + [attach] + [poll];
    CoarseMove(paired, attach);
    CoarseMove(paired + [attach], poll);
    CoarseMove(asked, refused);
    assert (asked + [refused])[..|asked|] == asked;
    T.StallsIff(T.After(asked).tether, refused.t, true);
  }
}
