/**
 The bounded transmit path of the tether driver (src/tether_driver.cpp,
 SendEthernet, PumpTx and TxComplete): a 16-slot ring behind a lock, any number
 of enqueuing threads and pumps, and one Bulk OUT transfer in flight.
 `TxRing` is the ring as the critical sections change it; `State` is the
 interleaved system, whose critical sections act on the ring's contents.
 */
module TetherTx {
  import opened Bytes
  import opened Ring
  import opened Threads

  const FRAME_MAX := 1514
  const TX_DEPTH := 16

  predicate IsFrame(f: Bytes) {
    14 <= |f| <= FRAME_MAX
  }

  /** What SendEthernet lets through. */
  type Frame = f: Bytes | IsFrame(f) witness Zeros(14)

  // ----------------------------------------------------------------- the ring

  /** A queue slot: a buffer and the number of its bytes in use. */
  datatype Slot = Slot(data: Bytes, len: nat)

  predicate SlotOk(s: Slot) {
    |s.data| == FRAME_MAX && s.len <= FRAME_MAX
  }

  function FrameOf(s: Slot): Bytes
    requires SlotOk(s)
  {
    s.data[..s.len]
  }

  ghost function Frames(slots: seq<Slot>): (r: seq<Bytes>)
    requires forall i :: 0 <= i < |slots| ==> SlotOk(slots[i])
    ensures |r| == |slots|
  {
    seq(|slots|, i requires 0 <= i < |slots| => FrameOf(slots[i]))
  }

  datatype Taken = Nothing | Invalid | Got(frame: Bytes)

  // What the two critical sections do to the queue, in the ring and in the interleaved system alike.

  function Queued<T>(queue: seq<T>, f: T): seq<T> {
    if |queue| < TX_DEPTH then queue + [f] else queue
  }

  function Dequeued<T>(queue: seq<T>): seq<T> {
    if queue == [] then [] else queue[1..]
  }

  class TxRing {
    const q: array<Slot>
    var head: nat
    var tail: nat
    var count: nat

    ghost predicate Valid()
      reads this, q
    {
      q.Length == TX_DEPTH && RingOk(TX_DEPTH, head, tail, count) &&
      (forall i :: 0 <= i < q.Length ==> SlotOk(q[i])) &&
      forall i :: 0 <= i < count ==> 14 <= Entries(q[..], head, count)[i].len
    }

    ghost function Queue(): seq<Bytes>
      reads this, q
      requires Valid()
    {
      Frames(Entries(q[..], head, count))
    }

    constructor ()
      ensures Valid() && Queue() == []
    {
      q := new Slot[TX_DEPTH](_ => Slot(Zeros(FRAME_MAX), 0));
      head, tail, count := 0, 0, 0;
    }

    /** The critical section of SendEthernet. */
    method Put(frame: Frame) returns (ok: bool)
      requires Valid()
      modifies this`tail, this`count, q
      ensures Valid() && ok == (|old(Queue())| < TX_DEPTH)
      ensures Queue() == Queued(old(Queue()), frame)
    {
      if count >= TX_DEPTH {
        return false;
      }
      var slot := Slot(frame + q[tail].data[|frame|..], |frame|);
      PushEntry(q[..], head, tail, count, slot);
      ghost var was := q[..];
      q[tail] := slot;
      assert q[..] == was[tail := slot];
      tail := (tail + 1) % TX_DEPTH;
      count := count + 1;
      assert FrameOf(slot) == frame;
      assert Queue() == old(Queue()) + [frame];
      return true;
    }

    /** The critical section of PumpTx; the invalid-entry branch is never taken. */
    method Take() returns (r: Taken)
      requires Valid()
      modifies this`head, this`count, q
      ensures Valid() && r != Invalid
      ensures r == Nothing <==> old(Queue()) == []
      ensures r.Got? ==> IsFrame(r.frame) && old(Queue())[0] == r.frame
      ensures Queue() == Dequeued(old(Queue()))
    {
      if count == 0 {
        return Nothing;
      }
      var p := q[head];
      PopEntry(q[..], head, tail, count, p.(len := 0));
      if p.len == 0 || p.len > FRAME_MAX {
        return Invalid;
      }
      ghost var was := q[..];
      q[head] := p.(len := 0);
      assert q[..] == was[head := p.(len := 0)];
      head := (head + 1) % TX_DEPTH;
      count := count - 1;
      assert old(Queue()) == [p.data[..p.len]] + Queue();
      return Got(p.data[..p.len]);
    }
  }

  // ----------------------------------------------------- the interleaved system

  datatype Pc =
    | Out
    | EnqLock(frame: Frame)   // SendEthernet past its checks, before the lock
    | EnqIn(frame: Frame)     // lock held
    | EnqOut                  // critical section done, before the unlock
    | PumpStart               // PumpTx past its checks, before the swap on txBusy
    | PumpLock                // txBusy taken, before the lock
    | PumpIn                  // lock held
    | PumpLoaded              // frame copied to the transfer buffer, before the unlock
    | PumpSubmit              // before the USB submit call
    | PumpEmpty               // nothing queued, before the unlock
    | PumpIdle                // before clearing txBusy

  datatype State = State(
    queue: seq<Frame>, locked: bool, busy: bool, tx: Frame, inFlight: bool, ready: bool,
    accepted: seq<Frame>, submitted: seq<Frame>, threads: seq<Pc>)

  const INITIAL := State([], false, false, Zeros(14), false, false, [], [], [])

  datatype Choice =
    | Enter                       // one more thread
    | Gate(ready: bool)           // attached and state change at any time
    | Send(t: nat, frame: Bytes)
    | Pump(t: nat)
    | Run(t: nat, ok: bool)       // `ok`: keep spinning on a held lock, or: the submit call succeeds
    | Complete                    // the completion callback

  function Step(s: State, c: Choice): State {
    match c
    case Enter => s.(threads := s.threads + [Out])
    case Gate(ready) => s.(ready := ready)
    case Send(t, frame) =>
      if t < |s.threads| && s.threads[t] == Out && s.ready && IsFrame(frame) then At(s, t, EnqLock(frame)) else s
    case Pump(t) =>
      if t < |s.threads| && s.threads[t] == Out && s.ready then At(s, t, PumpStart) else s
    case Run(t, ok) => if t < |s.threads| then Move(s, t, ok) else s
    case Complete => if s.inFlight then s.(inFlight := false, busy := false) else s
  }

  function At(s: State, t: nat, p: Pc): State
    requires t < |s.threads|
  {
    s.(threads := s.threads[t := p])
  }

  function Move(s: State, t: nat, ok: bool): State
    requires t < |s.threads|
  {
    match s.threads[t]
    case Out => s
    case EnqLock(f) => if s.locked then (if ok then s else At(s, t, Out)) else At(s, t, EnqIn(f)).(locked := true)
    case EnqIn(f) =>
      At(s, t, EnqOut).(queue := Queued(s.queue, f),
                        accepted := if |s.queue| < TX_DEPTH then s.accepted + [f] else s.accepted)
    case EnqOut => At(s, t, Out).(locked := false)
    case PumpStart => if s.busy then At(s, t, Out) else At(s, t, PumpLock).(busy := true)
    case PumpLock => if s.locked then (if ok then s else At(s, t, PumpIdle)) else At(s, t, PumpIn).(locked := true)
    case PumpIn =>
      if s.queue == [] then At(s, t, PumpEmpty)
      else At(s, t, PumpLoaded).(tx := s.queue[0], queue := Dequeued(s.queue))
    case PumpLoaded => At(s, t, PumpSubmit).(locked := false)
    case PumpSubmit =>
      if ok then At(s, t, Out).(submitted := s.submitted + [s.tx], inFlight := true)
      else At(s, t, PumpIdle).(submitted := s.submitted + [s.tx])
    case PumpEmpty => At(s, t, PumpIdle).(locked := false)
    case PumpIdle => At(s, t, Out).(busy := false)
  }

  function Exec(s: State, choices: seq<Choice>): State {
    if choices == [] then s else Step(Exec(s, choices[..|choices| - 1]), choices[|choices| - 1])
  }

  predicate HoldsLock(p: Pc) {
    p.EnqIn? || p == EnqOut || p == PumpIn || p == PumpLoaded || p == PumpEmpty
  }

  predicate HoldsBusy(p: Pc) {
    p == PumpLock || p == PumpIn || p == PumpLoaded || p == PumpSubmit || p == PumpEmpty || p == PumpIdle
  }

  /** Has taken a frame off the queue and not yet handed it to the submit call. */
  predicate Carries(p: Pc) {
    p == PumpLoaded || p == PumpSubmit
  }

  function Carried(s: State): seq<Frame> {
    if Count(s.threads, Carries) > 0 then [s.tx] else []
  }

  predicate Exclusive(s: State) {
    Count(s.threads, HoldsLock) == (if s.locked then 1 else 0) &&
    Count(s.threads, HoldsBusy) + (if s.inFlight then 1 else 0) == (if s.busy then 1 else 0)
  }

  /** Accepted frames are those handed to USB, the one being carried, and the queued ones, in that order. */
  predicate Conserved(s: State) {
    s.accepted == s.submitted + Carried(s) + s.queue
  }

  predicate BufferHeld(s: State) {
    s.inFlight ==> s.submitted != [] && s.submitted[|s.submitted| - 1] == s.tx
  }

  predicate Inv(s: State) {
    Exclusive(s) && Conserved(s) && BufferHeld(s) && |s.queue| <= TX_DEPTH
  }

  lemma Moved(s: State, t: nat, p: Pc)
    requires t < |s.threads|
    ensures var w, o := s.threads[t := p], s.threads[t];
            Count(w, HoldsLock) + (if HoldsLock(o) then 1 else 0)
              == Count(s.threads, HoldsLock) + (if HoldsLock(p) then 1 else 0) &&
            Count(w, HoldsBusy) + (if HoldsBusy(o) then 1 else 0)
              == Count(s.threads, HoldsBusy) + (if HoldsBusy(p) then 1 else 0) &&
            Count(w, Carries) + (if Carries(o) then 1 else 0)
              == Count(s.threads, Carries) + (if Carries(p) then 1 else 0) &&
            Count(w, Carries) <= Count(w, HoldsBusy)
  {
    CountUpdate(s.threads, t, p, HoldsLock);
    CountUpdate(s.threads, t, p, HoldsBusy);
    CountUpdate(s.threads, t, p, Carries);
    CountWithin(s.threads[t := p], Carries, HoldsBusy);
  }

  /** A frame is carried by at most one thread, which is then not alone in counting as busy. */
  lemma CarrierCount(s: State, t: nat)
    requires Exclusive(s) && t < |s.threads|
    ensures Carries(s.threads[t]) ==> Count(s.threads, Carries) == 1
    ensures HoldsBusy(s.threads[t]) ==> s.busy && !s.inFlight
    ensures HoldsBusy(s.threads[t]) && !Carries(s.threads[t]) ==> Count(s.threads, Carries) == 0
  {
    CountWithin(s.threads, Carries, HoldsBusy);
    CountSome(s.threads, Carries);
    CountSome(s.threads, HoldsBusy);
    if HoldsBusy(s.threads[t]) && !Carries(s.threads[t]) && Count(s.threads, Carries) > 0 {
      var u :| 0 <= u < |s.threads| && Carries(s.threads[u]);
      CountTwo(s.threads, if t < u then t else u, if t < u then u else t, HoldsBusy);
    }
  }

  lemma EnqueueKeeps(s: State, t: nat, ok: bool)
    requires Inv(s) && t < |s.threads| && (s.threads[t].EnqLock? || s.threads[t] == EnqOut)
    ensures Inv(Move(s, t, ok))
  {
    Moved(s, t, Move(s, t, ok).threads[t]);
  }

  lemma AcceptKeeps(s: State, t: nat, ok: bool)
    requires Inv(s) && t < |s.threads| && s.threads[t].EnqIn?
    ensures Inv(Move(s, t, ok))
  {
    hide Count;
    Moved(s, t, EnqOut);
    var f := s.threads[t].frame;
    assert s.submitted + Carried(s) + (s.queue + [f]) == (s.submitted + Carried(s) + s.queue) + [f];
  }

  lemma IdlePumpKeeps(s: State, t: nat, ok: bool)
    requires Inv(s) && t < |s.threads|
    requires s.threads[t] == PumpStart || s.threads[t] == PumpLock || s.threads[t] == PumpEmpty || s.threads[t] == PumpIdle
    ensures Inv(Move(s, t, ok))
  {
    Moved(s, t, Move(s, t, ok).threads[t]);
  }

  lemma TakeKeeps(s: State, t: nat, ok: bool)
    requires Inv(s) && t < |s.threads| && s.threads[t] == PumpIn
    ensures Inv(Move(s, t, ok))
  {
    CarrierCount(s, t);
    if s.queue == [] {
      Moved(s, t, PumpEmpty);
    } else {
      Moved(s, t, PumpLoaded);
      assert s.submitted + [] + s.queue == s.submitted + [s.queue[0]] + s.queue[1..];
    }
  }

  lemma LoadedKeeps(s: State, t: nat, ok: bool)
    requires Inv(s) && t < |s.threads| && s.threads[t] == PumpLoaded
    ensures Inv(Move(s, t, ok))
  {
    Moved(s, t, PumpSubmit);
    CarrierCount(s, t);
  }

  lemma SubmitKeeps(s: State, t: nat, ok: bool)
    requires Inv(s) && t < |s.threads| && s.threads[t] == PumpSubmit
    ensures Inv(Move(s, t, ok))
  {
    Moved(s, t, if ok then Out else PumpIdle);
    CarrierCount(s, t);
    assert s.submitted + [s.tx] + s.queue == (s.submitted + [s.tx]) + [] + s.queue;
  }

  lemma MoveKeeps(s: State, t: nat, ok: bool)
    requires Inv(s) && t < |s.threads|
    ensures Inv(Move(s, t, ok))
  {
    match s.threads[t]
    case Out =>
    case EnqLock(_) => EnqueueKeeps(s, t, ok);
    case EnqIn(_) => AcceptKeeps(s, t, ok);
    case EnqOut => EnqueueKeeps(s, t, ok);
    case PumpIn => TakeKeeps(s, t, ok);
    case PumpLoaded => LoadedKeeps(s, t, ok);
    case PumpSubmit => SubmitKeeps(s, t, ok);
    case _ => IdlePumpKeeps(s, t, ok);
  }

  lemma StepKeeps(s: State, c: Choice)
    requires Inv(s)
    ensures Inv(Step(s, c))
  {
    match c
    case Enter =>
      CountSpawn(s.threads, Out, HoldsLock);
      CountSpawn(s.threads, Out, HoldsBusy);
      CountSpawn(s.threads, Out, Carries);
    case Gate(_) =>
    case Send(t, frame) =>
      if t < |s.threads| && IsFrame(frame) {
        Moved(s, t, EnqLock(frame));
      }
    case Pump(t) =>
      if t < |s.threads| {
        Moved(s, t, PumpStart);
      }
    case Run(t, ok) =>
      if t < |s.threads| {
        MoveKeeps(s, t, ok);
      }
    case Complete =>
  }

  lemma {:induction false} Always(choices: seq<Choice>)
    ensures Inv(Exec(INITIAL, choices))
  {
    if choices != [] {
      Always(choices[..|choices| - 1]);
      StepKeeps(Exec(INITIAL, choices[..|choices| - 1]), choices[|choices| - 1]);
    }
  }

  /** Under every interleaving of enqueuing threads, pumps and the completion callback, the frames SendEthernet
      accepted are, in order, those handed to USB, at most one on its way there, and the queued ones. */
  lemma Conservation(choices: seq<Choice>)
    ensures var s := Exec(INITIAL, choices);
            s.accepted == s.submitted + Carried(s) + s.queue && |Carried(s)| <= 1 && |s.queue| <= TX_DEPTH
  {
    Always(choices);
  }

  lemma InFlightMove(s: State, t: nat, ok: bool)
    requires Inv(s) && s.inFlight && t < |s.threads|
    ensures Move(s, t, ok).tx == s.tx && Move(s, t, ok).submitted == s.submitted
  {
    CarrierCount(s, t);
  }

  /** While a transfer is in flight no thread's step rewrites its buffer or submits another. */
  lemma BufferStable(choices: seq<Choice>, c: Choice)
    requires Exec(INITIAL, choices).inFlight
    ensures var s := Exec(INITIAL, choices);
            s.submitted != [] && s.tx == s.submitted[|s.submitted| - 1] &&
            Step(s, c).tx == s.tx && Step(s, c).submitted == s.submitted
  {
    var s := Exec(INITIAL, choices);
    Always(choices);
    if c.Run? && c.t < |s.threads| {
      InFlightMove(s, c.t, c.ok);
    }
  }

  // --------------------------------------------------------------- the queue drains

  /** One pump by thread `t` from start to end, and the completion of its transfer. */
  function Round(t: nat): seq<Choice> {
    [Pump(t)] + [Run(t, true)] + [Run(t, true)] + [Run(t, true)] + [Run(t, true)] + [Run(t, true)] + [Complete]
  }

  /** Nobody holds the lock, nothing is in flight, and thread `t` is free to pump. */
  predicate Free(s: State, t: nat) {
    !s.locked && !s.busy && !s.inFlight && s.ready && t < |s.threads| && s.threads[t] == Out
  }

  lemma ExecMore(s: State, choices: seq<Choice>, c: Choice)
    ensures Exec(s, choices + [c]) == Step(Exec(s, choices), c)
  {
    hide Step;
    assert (choices + [c])[..|choices|] == choices;
  }

  /** A round hands the oldest frame, and no other, to USB. */
  lemma RoundSubmits(s: State, t: nat)
    requires Free(s, t) && s.queue != []
    ensures Exec(s, Round(t)) == s.(queue := s.queue[1..], submitted := s.submitted + [s.queue[0]], tx := s.queue[0])
  {
    hide Exec, Step;
    var go := Run(t, true);
    NothingDone(s);
    ExecMore(s, [], Pump(t));
    assert [] + [Pump(t)] == [Pump(t)];
    ExecMore(s, [Pump(t)], go);
    ExecMore(s, [Pump(t)] + [go], go);
    ExecMore(s, [Pump(t)] + [go] + [go], go);
    ExecMore(s, [Pump(t)] + [go] + [go] + [go], go);
    ExecMore(s, [Pump(t)] + [go] + [go] + [go] + [go], go);
    ExecMore(s, [Pump(t)] + [go] + [go] + [go] + [go] + [go], Complete);
    PumpTakes(s, t);
    PumpHands(Step(Step(Step(Step(s, Pump(t)), go), go), go), t);
    assert s.threads[t := PumpLoaded][t := Out] == s.threads;
  }

  /** Up to the frame in the transfer buffer ... */
  lemma PumpTakes(s: State, t: nat)
    requires Free(s, t) && s.queue != []
    ensures Step(Step(Step(Step(s, Pump(t)), Run(t, true)), Run(t, true)), Run(t, true))
         == s.(threads := s.threads[t := PumpLoaded], busy := true, locked := true, tx := s.queue[0], queue := s.queue[1..])
  {
    assert s.threads[t := PumpStart][t := PumpLock][t := PumpIn][t := PumpLoaded] == s.threads[t := PumpLoaded];
  }

  /** ... and from there on. */
  lemma PumpHands(s: State, t: nat)
    requires t < |s.threads| && s.threads[t] == PumpLoaded && s.busy && s.locked && !s.inFlight
    ensures Step(Step(Step(s, Run(t, true)), Run(t, true)), Complete)
         == s.(threads := s.threads[t := Out], locked := false, busy := false, submitted := s.submitted + [s.tx])
  {
    assert s.threads[t := PumpSubmit][t := Out] == s.threads[t := Out];
  }

  lemma NothingDone(s: State)
    ensures Exec(s, []) == s
  {
  }

  function Rounds(t: nat, n: nat): seq<Choice> {
    if n == 0 then [] else Rounds(t, n - 1) + Round(t)
  }

  lemma {:induction false} ExecConcat(s: State, a: seq<Choice>, b: seq<Choice>)
    ensures Exec(s, a + b) == Exec(Exec(s, a), b)
    decreases |b|
  {
    hide Step;
    if b == [] {
      assert a + b == a;
    } else {
      assert (a + b)[..|a + b| - 1] == a + b[..|b| - 1];
      ExecConcat(s, a, b[..|b| - 1]);
    }
  }

  /** As many rounds as frames are queued hand all of them to USB, in order. */
  lemma {:induction false} QueueDrains(s: State, t: nat, n: nat)
    requires Free(s, t) && n <= |s.queue|
    ensures var e := Exec(s, Rounds(t, n));
      Free(e, t) && e.queue == s.queue[n..] && e.submitted == s.submitted + s.queue[..n] && e.accepted == s.accepted
  {
    hide Step, Round;
    if n == 0 {
      NothingDone(s);
    } else {
      QueueDrains(s, t, n - 1);
      ExecConcat(s, Rounds(t, n - 1), Round(t));
      var e := Exec(s, Rounds(t, n - 1));
      RoundSubmits(e, t);
      assert e.queue[0] == s.queue[n - 1] && s.queue[..n - 1] + [s.queue[n - 1]] == s.queue[..n];
    }
  }
}
