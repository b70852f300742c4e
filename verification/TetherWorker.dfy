/**
 The hand-over of the tether worker (src/tether_driver.cpp): StartWorker,
 the loop test and exit of Worker, AddDevice and RemoveDevice, one step per
 atomic operation, under every interleaving.
 */
module TetherWorker {
  import opened Threads

  /** Where a worker thread stands. */
  datatype Pc =
    | CheckGeneration(gen: int)   // before the test of gGeneration
    | CheckAttached(gen: int)     // generation matched, before the test of attached
    | Body(gen: int)              // the rest of the loop, including the sleep
    | Leaving                     // out of the loop, gWorkerActive still set
    | Released                    // gWorkerActive cleared, attached not yet tested
    | Restarting                  // in StartWorker, before its compare-and-swap
    | Won                         // the compare-and-swap succeeded
    | Spawning(gen: int)          // generation read, before the thread is created
    | Dead

  /** Where the USB thread stands in AddDevice or RemoveDevice. */
  datatype Driver =
    | Idle
    | Attaching                   // attached set
    | Counted                     // generation incremented, before StartWorker's compare-and-swap
    | DriverWon
    | DriverSpawning(gen: int)
    | Detaching                   // attached cleared, before the increment

  /** `started`: AddDevice finished StartWorker in this attachment.
      `failed`: some thread creation failed since AddDevice entered StartWorker. */
  datatype State = State(
    generation: int, active: bool, attached: bool,
    driver: Driver, workers: seq<Pc>, marks: Marks)

  datatype Marks = Marks(started: bool, failed: bool)

  const INITIAL := State(0, false, false, Idle, [], Marks(false, false))

  /** What the scheduler may choose: a thread, and how an unpredictable operation ends. */
  datatype Choice =
    | Attach
    | AttachFails(keep: bool)     // AddDevice gives up before StartWorker, clearing attached or not
    | Detach
    | DriverStep(createOk: bool)
    | WorkerStep(t: nat, createOk: bool)

  function Step(s: State, c: Choice): State {
    match c
    case Attach =>
      if s.driver == Idle && !s.attached
      then s.(attached := true, driver := Attaching, marks := s.marks.(started := false)) else s
    case AttachFails(keep) =>
      if s.driver == Attaching then s.(attached := keep, driver := Idle) else s
    case Detach =>
      if s.driver == Idle then s.(attached := false, driver := Detaching) else s
    case DriverStep(ok) => DriverMove(s, ok)
    case WorkerStep(t, ok) => if t < |s.workers| then WorkerMove(s, t, ok) else s
  }

  function DriverMove(s: State, ok: bool): State {
    match s.driver
    case Idle => s
    case Attaching => s.(generation := s.generation + 1, driver := Counted)
    case Counted =>
      if s.active then s.(driver := Idle, marks := Marks(true, false))
      else s.(active := true, driver := DriverWon, marks := Marks(false, false))
    case DriverWon => s.(driver := DriverSpawning(s.generation))
    case DriverSpawning(gen) =>
      if ok then s.(workers := s.workers + [CheckGeneration(gen)], driver := Idle, marks := s.marks.(started := true))
      else s.(active := false, driver := Idle, marks := Marks(true, true))
    case Detaching => s.(generation := s.generation + 1, driver := Idle)
  }

  function WorkerMove(s: State, t: nat, ok: bool): State
    requires t < |s.workers|
  {
    match s.workers[t]
    case CheckGeneration(gen) => At(s, t, if s.generation == gen then CheckAttached(gen) else Leaving)
    case CheckAttached(gen) => At(s, t, if s.attached then Body(gen) else Leaving)
    case Body(gen) => At(s, t, CheckGeneration(gen))
    case Leaving => At(s, t, Released).(active := false)
    case Released => At(s, t, if s.attached then Restarting else Dead)
    case Restarting => if s.active then At(s, t, Dead) else At(s, t, Won).(active := true)
    case Won => At(s, t, Spawning(s.generation))
    case Spawning(gen) =>
      if ok then At(s, t, Dead).(workers := s.workers[t := Dead] + [CheckGeneration(gen)])
      else At(s, t, Dead).(active := false, marks := s.marks.(failed := true))
    case Dead => s
  }

  function At(s: State, t: nat, p: Pc): State
    requires t < |s.workers|
  {
    s.(workers := s.workers[t := p])
  }

  function Exec(s: State, choices: seq<Choice>): State {
    if choices == [] then s else Step(Exec(s, choices[..|choices| - 1]), choices[|choices| - 1])
  }

  // -------------------------------------------------------------- invariants

  predicate InLoop(p: Pc) {
    p.CheckGeneration? || p.CheckAttached? || p.Body?
  }

  /** The thread that set gWorkerActive, or was created by it, and has not cleared it. */
  predicate Owns(p: Pc) {
    InLoop(p) || p == Leaving || p == Won || p.Spawning?
  }

  /** Has released gWorkerActive and may still take it again. */
  predicate WillRetry(p: Pc) {
    p == Released || p == Restarting
  }

  function DriverOwns(d: Driver): nat {
    if d == DriverWon || d.DriverSpawning? then 1 else 0
  }

  /** gWorkerActive counts its owners. */
  predicate OneOwner(s: State) {
    Count(s.workers, Owns) + DriverOwns(s.driver) == if s.active then 1 else 0
  }

  /** A started, attached device is never without a worker or a thread about to restart one. */
  predicate Served(s: State) {
    s.marks.started && s.attached && !s.marks.failed ==> s.active || Count(s.workers, WillRetry) > 0
  }

  predicate DriverOk(s: State) {
    match s.driver
    case Idle => true
    case Attaching => s.attached && !s.marks.started
    case Counted => s.attached && !s.marks.started
    case DriverWon => s.attached && !s.marks.started
    case DriverSpawning(_) => s.attached && !s.marks.started
    case Detaching => !s.attached
  }

  predicate Inv(s: State) {
    OneOwner(s) && Served(s) && DriverOk(s)
  }

  lemma Moved(s: State, t: nat, p: Pc)
    requires t < |s.workers|
    ensures var w := At(s, t, p).workers;
            Count(w, Owns) + (if Owns(s.workers[t]) then 1 else 0) == Count(s.workers, Owns) + (if Owns(p) then 1 else 0) &&
            Count(w, WillRetry) + (if WillRetry(s.workers[t]) then 1 else 0)
              == Count(s.workers, WillRetry) + (if WillRetry(p) then 1 else 0)
  {
    CountUpdate(s.workers, t, p, Owns);
    CountUpdate(s.workers, t, p, WillRetry);
  }

  lemma Spawned(workers: seq<Pc>, gen: int)
    ensures Count(workers + [CheckGeneration(gen)], Owns) == Count(workers, Owns) + 1
    ensures Count(workers + [CheckGeneration(gen)], WillRetry) == Count(workers, WillRetry)
  {
    CountSpawn(workers, CheckGeneration(gen), Owns);
    CountSpawn(workers, CheckGeneration(gen), WillRetry);
  }

  lemma CreationKeeps(s: State, t: nat, ok: bool)
    requires Inv(s) && t < |s.workers| && s.workers[t].Spawning?
    ensures Inv(WorkerMove(s, t, ok))
  {
    Moved(s, t, Dead);
    Spawned(s.workers[t := Dead], s.workers[t].gen);
  }

  lemma LoopMoveKeeps(s: State, t: nat)
    requires Inv(s) && t < |s.workers| && (InLoop(s.workers[t]) || s.workers[t] == Leaving)
    ensures Inv(WorkerMove(s, t, true))
  {
    Moved(s, t, WorkerMove(s, t, true).workers[t]);
  }

  lemma ExitMoveKeeps(s: State, t: nat)
    requires Inv(s) && t < |s.workers| && (WillRetry(s.workers[t]) || s.workers[t] == Won)
    ensures Inv(WorkerMove(s, t, true))
  {
    Moved(s, t, WorkerMove(s, t, true).workers[t]);
  }

  lemma WorkerMoveKeeps(s: State, t: nat, ok: bool)
    requires Inv(s) && t < |s.workers|
    ensures Inv(WorkerMove(s, t, ok))
  {
    if InLoop(s.workers[t]) || s.workers[t] == Leaving {
      LoopMoveKeeps(s, t);
    } else if WillRetry(s.workers[t]) || s.workers[t] == Won {
      ExitMoveKeeps(s, t);
    } else if s.workers[t].Spawning? {
      CreationKeeps(s, t, ok);
    }
  }

  lemma StepKeeps(s: State, c: Choice)
    requires Inv(s)
    ensures Inv(Step(s, c))
  {
    if c.WorkerStep? && c.t < |s.workers| {
      WorkerMoveKeeps(s, c.t, c.createOk);
    } else if c.DriverStep? && s.driver.DriverSpawning? {
      Spawned(s.workers, s.driver.gen);
    }
  }

  lemma {:induction false} Always(choices: seq<Choice>)
    ensures Inv(Exec(INITIAL, choices))
  {
    if choices != [] {
      Always(choices[..|choices| - 1]);
      StepKeeps(Exec(INITIAL, choices[..|choices| - 1]), choices[|choices| - 1]);
    }
  }

  /** Under every interleaving at most one thread is inside the worker loop. */
  lemma OneInLoop(choices: seq<Choice>, t: nat, u: nat)
    requires var s := Exec(INITIAL, choices); t < u < |s.workers| && InLoop(s.workers[t])
    ensures !InLoop(Exec(INITIAL, choices).workers[u])
  {
    var s := Exec(INITIAL, choices);
    Always(choices);
    if InLoop(s.workers[u]) {
      CountTwo(s.workers, t, u, Owns);
    }
  }

  /** Once AddDevice has finished StartWorker on a device that is still attached, and no thread creation
      has failed, some thread owns gWorkerActive or has released it and will still test `attached`. */
  lemma NeverLost(choices: seq<Choice>)
    requires var s := Exec(INITIAL, choices); s.marks == Marks(true, false) && s.attached
    ensures var s := Exec(INITIAL, choices);
            exists t :: 0 <= t < |s.workers| && (Owns(s.workers[t]) || WillRetry(s.workers[t]))
  {
    var s := Exec(INITIAL, choices);
    Always(choices);
    CountSome(s.workers, Owns);
    CountSome(s.workers, WillRetry);
    if Count(s.workers, Owns) > 0 {
      var t :| 0 <= t < |s.workers| && Owns(s.workers[t]);
    } else {
      var t :| 0 <= t < |s.workers| && WillRetry(s.workers[t]);
    }
  }

  // --------------------------------------------------------------- hand-over

  /** Steps a thread may still take before it is gone or serves the current generation. */
  function Rank(p: Pc, generation: int): nat {
    match p
    case CheckGeneration(gen) => if gen == generation then 0 else 7
    case CheckAttached(gen) => if gen == generation then 0 else 9
    case Body(gen) => if gen == generation then 0 else 8
    case Leaving => 6
    case Released => 5
    case Restarting => 4
    case Won => 3
    case Spawning(gen) => if gen == generation then 1 else 8
    case Dead => 0
  }

  function Work(workers: seq<Pc>, generation: int): nat {
    if workers == [] then 0 else Rank(workers[0], generation) + Work(workers[1..], generation)
  }

  lemma {:induction false} WorkUpdate(workers: seq<Pc>, t: nat, p: Pc, g: int)
    requires t < |workers|
    ensures Work(workers[t := p], g) + Rank(workers[t], g) == Work(workers, g) + Rank(p, g)
  {
    if t == 0 {
      assert workers[0 := p][1..] == workers[1..];
    } else {
      assert workers[t := p][1..] == workers[1..][t - 1 := p];
      WorkUpdate(workers[1..], t - 1, p, g);
    }
  }

  lemma {:induction false} WorkSpawn(workers: seq<Pc>, p: Pc, g: int)
    ensures Work(workers + [p], g) == Work(workers, g) + Rank(p, g)
  {
    if workers == [] {
      assert ([p])[1..] == [];
    } else {
      assert (workers + [p])[1..] == workers[1..] + [p];
      WorkSpawn(workers[1..], p, g);
    }
  }

  lemma {:induction false} WorkLeft(workers: seq<Pc>, g: int)
    ensures Work(workers, g) > 0 <==> exists t :: 0 <= t < |workers| && Rank(workers[t], g) > 0
  {
    if workers != [] {
      WorkLeft(workers[1..], g);
      if t :| 0 <= t < |workers| && Rank(workers[t], g) > 0 {
        assert t > 0 ==> Rank(workers[1..][t - 1], g) > 0;
      }
      if u :| 0 <= u < |workers[1..]| && Rank(workers[1..][u], g) > 0 {
        assert Rank(workers[u + 1], g) > 0;
      }
    }
  }

  /** A device stays attached and the USB thread is idle. */
  predicate Quiet(s: State) {
    s.attached && s.driver == Idle
  }

  /** While quiet, a thread's step either is that of a current worker (or none) or uses up work. */
  lemma StepUsesWork(s: State, t: nat)
    requires Quiet(s) && t < |s.workers|
    ensures var n := WorkerMove(s, t, true);
            Quiet(n) && n.generation == s.generation && n.marks == s.marks &&
            Work(n.workers, n.generation) <= Work(s.workers, s.generation) &&
            (Rank(s.workers[t], s.generation) > 0 ==> Work(n.workers, n.generation) < Work(s.workers, s.generation))
  {
    var n := WorkerMove(s, t, true);
    var g := s.generation;
    if s.workers[t].Spawning? {
      WorkUpdate(s.workers, t, Dead, g);
      WorkSpawn(s.workers[t := Dead], CheckGeneration(s.workers[t].gen), g);
    } else {
      WorkUpdate(s.workers, t, n.workers[t], g);
    }
  }

  predicate WorkerSteps(choices: seq<Choice>) {
    forall i :: 0 <= i < |choices| ==> choices[i].WorkerStep? && choices[i].createOk
  }

  /** How many of the steps were taken by a thread with work left. */
  function Productive(s: State, choices: seq<Choice>): nat {
    if choices == [] then 0
    else
      var init, c := choices[..|choices| - 1], choices[|choices| - 1];
      var e := Exec(s, init);
      Productive(s, init) +
      if c.WorkerStep? && c.t < |e.workers| && Rank(e.workers[c.t], e.generation) > 0 then 1 else 0
  }

  /** While quiet, every schedule of worker steps takes at most `Work` productive steps. */
  lemma {:induction false} BoundedHandOver(s: State, choices: seq<Choice>)
    requires Quiet(s) && WorkerSteps(choices)
    ensures var e := Exec(s, choices);
            Quiet(e) && e.generation == s.generation && e.marks == s.marks && (Inv(s) ==> Inv(e)) &&
            Productive(s, choices) + Work(e.workers, e.generation) <= Work(s.workers, s.generation)
  {
    if choices != [] {
      var init, c := choices[..|choices| - 1], choices[|choices| - 1];
      BoundedHandOver(s, init);
      var e := Exec(s, init);
      if c.t < |e.workers| {
        StepUsesWork(e, c.t);
        if Inv(s) {
          WorkerMoveKeeps(e, c.t, true);
        }
      }
    }
  }

  /** Worker `t` serves the current generation and every other thread is gone. */
  predicate ServedBy(s: State, t: nat) {
    t < |s.workers| && InLoop(s.workers[t]) && s.workers[t].gen == s.generation &&
    forall u :: 0 <= u < |s.workers| && u != t ==> s.workers[u] == Dead
  }

  lemma Settled(s: State)
    requires Inv(s) && Quiet(s) && s.marks == Marks(true, false) && Work(s.workers, s.generation) == 0
    ensures exists t :: ServedBy(s, t)
  {
    CountSome(s.workers, Owns);
    CountSome(s.workers, WillRetry);
    WorkLeft(s.workers, s.generation);
    var t: nat :| t < |s.workers| && (Owns(s.workers[t]) || WillRetry(s.workers[t]));
    assert Rank(s.workers[t], s.generation) == 0;
    forall u | 0 <= u < |s.workers| && u != t
      ensures s.workers[u] == Dead
    {
      assert Rank(s.workers[u], s.generation) == 0;
      if Owns(s.workers[u]) {
        CountTwo(s.workers, if t < u then t else u, if t < u then u else t, Owns);
      }
    }
    assert ServedBy(s, t);
  }

  /** Stale generations hand over: in any reachable state with a started, attached device, however the worker
      threads are scheduled from there, only boundedly many steps are taken by threads with work left, some
      thread has work as long as any is left, and then one worker of the current generation serves the device. */
  lemma HandOver(choices: seq<Choice>, steps: seq<Choice>)
    requires var s := Exec(INITIAL, choices); Quiet(s) && s.marks == Marks(true, false)
    requires WorkerSteps(steps)
    ensures var s := Exec(INITIAL, choices);
            var e := Exec(s, steps);
            Productive(s, steps) <= Work(s.workers, s.generation) &&
            if Work(e.workers, e.generation) > 0
            then exists t :: 0 <= t < |e.workers| && Rank(e.workers[t], e.generation) > 0
            else exists t :: ServedBy(e, t)
  {
    var s := Exec(INITIAL, choices);
    Always(choices);
    BoundedHandOver(s, steps);
    var e := Exec(s, steps);
    WorkLeft(e.workers, e.generation);
    if Work(e.workers, e.generation) == 0 {
      Settled(e);
    }
  }

  // ------------------------------------------------------ workers of earlier attachments

  /** The generation that a thread was created for or is about to create one for. */
  predicate HasGeneration(p: Pc) {
    InLoop(p) || p.Spawning?
  }

  predicate Bounded(s: State) {
    && (forall t :: 0 <= t < |s.workers| && HasGeneration(s.workers[t]) ==> s.workers[t].gen <= s.generation)
    && (s.driver.DriverSpawning? ==> s.driver.gen <= s.generation)
  }

  lemma StepBounded(s: State, c: Choice)
    requires Bounded(s)
    ensures Bounded(Step(s, c)) && Step(s, c).generation >= s.generation && |Step(s, c).workers| >= |s.workers|
  {
  }

  lemma {:induction false} AlwaysBounded(choices: seq<Choice>)
    ensures Bounded(Exec(INITIAL, choices))
  {
    if choices != [] {
      AlwaysBounded(choices[..|choices| - 1]);
      StepBounded(Exec(INITIAL, choices[..|choices| - 1]), choices[|choices| - 1]);
    }
  }

  /** The driver step that makes a new attachment, or a removal, visible to the workers. */
  predicate Turns(s: State, c: Choice) {
    c.DriverStep? && (s.driver == Attaching || s.driver == Detaching)
  }

  /** Every attachment and every removal, and nothing else, begins a new generation, to which no worker belongs yet. */
  lemma TurnsGeneration(choices: seq<Choice>, c: Choice)
    ensures var s := Exec(INITIAL, choices);
            var n := Step(s, c);
      if Turns(s, c)
      then n.generation == s.generation + 1
           && forall t :: 0 <= t < |n.workers| && InLoop(n.workers[t]) ==> n.workers[t].gen < n.generation
      else n.generation == s.generation
  {
    AlwaysBounded(choices);
  }

  /** The worker that a finished attachment starts belongs to the generation it read. */
  lemma StartsCurrent(s: State)
    requires s.driver == DriverWon
    ensures var n := Step(Step(s, DriverStep(true)), DriverStep(true));
      n.driver == Idle && n.generation == s.generation && n.workers == s.workers + [CheckGeneration(s.generation)]
  {
  }

  /** Steps of its own that a thread may still take in the loop once its generation is over. */
  function ToGo(p: Pc): nat {
    match p
    case CheckAttached(_) => 3
    case Body(_) => 2
    case CheckGeneration(_) => 1
    case _ => 0
  }

  function StepsOf(choices: seq<Choice>, t: nat): nat {
    if choices == [] then 0
    else StepsOf(choices[..|choices| - 1], t) + if choices[|choices| - 1].WorkerStep? && choices[|choices| - 1].t == t then 1 else 0
  }

  /** A thread of an earlier generation, or one that is out of the loop for good. */
  predicate Stale(s: State, t: nat) {
    t < |s.workers| && (InLoop(s.workers[t]) ==> s.workers[t].gen < s.generation)
  }

  lemma StaleStep(s: State, c: Choice, t: nat)
    requires Stale(s, t)
    ensures var n := Step(s, c);
      Stale(n, t) && ToGo(n.workers[t]) <= if c.WorkerStep? && c.t == t && ToGo(s.workers[t]) > 0 then ToGo(s.workers[t]) - 1 else ToGo(s.workers[t])
  {
  }

  lemma {:induction false} StaleRuns(s: State, choices: seq<Choice>, t: nat)
    requires Stale(s, t)
    ensures var e := Exec(s, choices);
      Stale(e, t) && ToGo(e.workers[t]) <= if StepsOf(choices, t) > ToGo(s.workers[t]) then 0 else ToGo(s.workers[t]) - StepsOf(choices, t)
  {
    hide Step;
    if choices != [] {
      StaleRuns(s, choices[..|choices| - 1], t);
      StaleStep(Exec(s, choices[..|choices| - 1]), choices[|choices| - 1], t);
    }
  }

  /**
   A worker of an earlier attachment leaves the loop: from any attachment or removal on,
   under every schedule of all threads, a worker that was in the loop then is out of it,
   for good, once it has taken three steps of its own.
   */
  lemma StaleLeaves(choices: seq<Choice>, turn: Choice, more: seq<Choice>, t: nat)
    requires Turns(Exec(INITIAL, choices), turn)
    requires var n := Step(Exec(INITIAL, choices), turn); t < |n.workers| && InLoop(n.workers[t])
    requires StepsOf(more, t) >= 3
    ensures var e := Exec(Step(Exec(INITIAL, choices), turn), more); t < |e.workers| && !InLoop(e.workers[t])
  {
    hide Step;
    TurnsGeneration(choices, turn);
    StaleRuns(Step(Exec(INITIAL, choices), turn), more, t);
  }

  // ------------------------------------------------------------------ after a removal

  /** No device is attached and the USB thread is idle. */
  predicate Removed(s: State) {
    !s.attached && s.driver == Idle
  }

  /** Steps a thread may still take before it is gone, with those of a thread it creates. */
  function ToEnd(p: Pc): nat {
    match p
    case CheckGeneration(_) => 5
    case CheckAttached(_) => 4
    case Body(_) => 6
    case Leaving => 3
    case Released => 2
    case Restarting => 8
    case Won => 7
    case Spawning(_) => 6
    case Dead => 0
  }

  function WorkToEnd(workers: seq<Pc>): nat {
    if workers == [] then 0 else WorkToEnd(workers[..|workers| - 1]) + ToEnd(workers[|workers| - 1])
  }

  lemma {:induction false} EndUpdate(workers: seq<Pc>, t: nat, p: Pc)
    requires t < |workers|
    ensures WorkToEnd(workers[t := p]) + ToEnd(workers[t]) == WorkToEnd(workers) + ToEnd(p)
  {
    var n := |workers| - 1;
    if t == n {
      assert workers[t := p][..n] == workers[..n];
    } else {
      assert workers[t := p][..n] == workers[..n][t := p];
      EndUpdate(workers[..n], t, p);
    }
  }

  lemma EndSpawn(workers: seq<Pc>, p: Pc)
    ensures WorkToEnd(workers + [p]) == WorkToEnd(workers) + ToEnd(p)
  {
    assert (workers + [p])[..|workers|] == workers;
  }

  lemma RemovedStep(s: State, t: nat, ok: bool)
    requires Removed(s) && t < |s.workers|
    ensures var n := WorkerMove(s, t, ok);
      Removed(n) && (if s.workers[t] == Dead then n == s else WorkToEnd(n.workers) < WorkToEnd(s.workers))
  {
    var n := WorkerMove(s, t, ok);
    if s.workers[t].Spawning? {
      EndUpdate(s.workers, t, Dead);
      EndSpawn(s.workers[t := Dead], CheckGeneration(s.workers[t].gen));
    } else {
      EndUpdate(s.workers, t, n.workers[t]);
    }
  }

  /** How many of the steps were taken by a thread that is not gone. */
  function Alive(s: State, choices: seq<Choice>): nat {
    if choices == [] then 0
    else
      var before, c := choices[..|choices| - 1], choices[|choices| - 1];
      var e := Exec(s, before);
      Alive(s, before) + if c.WorkerStep? && c.t < |e.workers| && e.workers[c.t] != Dead then 1 else 0
  }

  /** After a removal, however the threads are scheduled and whatever creations fail, each of them soon is gone. */
  lemma {:induction false} RemovalEnds(s: State, choices: seq<Choice>)
    requires Removed(s) && forall i :: 0 <= i < |choices| ==> choices[i].WorkerStep?
    ensures var e := Exec(s, choices); Removed(e) && Alive(s, choices) + WorkToEnd(e.workers) <= WorkToEnd(s.workers)
  {
    hide WorkerMove;
    if choices != [] {
      var before, c := choices[..|choices| - 1], choices[|choices| - 1];
      RemovalEnds(s, before);
      var e := Exec(s, before);
      if c.t < |e.workers| {
        RemovedStep(e, c.t, c.createOk);
      }
    }
  }
}
