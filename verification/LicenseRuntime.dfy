/**
 The licence gate of a Core session (src/license/license_runtime.cpp). Every API
 call is one step, and so is the decision of the check worker with the clearing of
 its busy flag. What the console id, the HTTPS fetch and the document evaluation
 yield is part of the worker's step.
 */
module LicenseRuntime {
  import opened Bytes

  datatype LicenceState = Unknown | Licensed | Free | Unlicensed
  datatype NetworkGate = Pending | Allow | Deny

  /** How a check ends; the last two reach no verdict. */
  datatype Outcome = Matched | FreeMode | NoMatch | NoDocument | NoConsoleId

  datatype Runtime = Runtime(state: LicenceState, gate: NetworkGate, checkActive: bool, current: nat,
                             lastAttempt: nat, checkConnection: nat)

  const FRESH := Runtime(Unknown, Pending, false, 0, 0, 0)

  datatype Call =
      Reset
    | Begin(id: nat)
    | End(id: nat)
    | MaybeStart(id: nat, configured: bool, threadStarts: bool)
    | Decide(outcome: Outcome)

  function AfterReset(r: Runtime): Runtime {
    if r.checkActive then r else FRESH
  }

  function AfterBegin(r: Runtime, id: nat): Runtime {
    if id == 0 then r
    else r.(current := id, gate := match r.state
                                   case Unknown => Pending
                                   case Unlicensed => Deny
                                   case _ => Allow)
  }

  function AfterEnd(r: Runtime, id: nat): Runtime {
    if id == 0 || r.current != id then r
    else if r.state == Unknown then r.(current := 0, gate := Pending)
    else r.(current := 0)
  }

  /** A check can be attempted for the connection: all of the guard but what it remembers of earlier attempts. */
  predicate Ready(r: Runtime, id: nat, configured: bool) {
    id != 0 && r.current == id && r.state == Unknown && !r.checkActive && configured
  }

  /** The call gets as far as marking the connection as attempted. */
  predicate Attempts(r: Runtime, id: nat, configured: bool) {
    Ready(r, id, configured) && r.lastAttempt != id
  }

  function AfterStart(r: Runtime, id: nat, configured: bool, threadStarts: bool): Runtime {
    if !Attempts(r, id, configured) then r
    else
      var q := r.(checkConnection := id, lastAttempt := id);
      if threadStarts then q.(gate := Pending, checkActive := true)
      else q.(state := Unknown, gate := Allow)
  }

  function Verdict(r: Runtime, outcome: Outcome): Runtime {
    match outcome
    case Matched => r.(state := Licensed, gate := Allow)
    case FreeMode => r.(state := Free, gate := Allow)
    case NoMatch => r.(state := Unlicensed, gate := Deny)
    case _ => if r.current == r.checkConnection then r.(state := Unknown, gate := Allow) else r
  }

  function Step(r: Runtime, c: Call): Runtime {
    match c
    case Reset => AfterReset(r)
    case Begin(id) => AfterBegin(r, id)
    case End(id) => AfterEnd(r, id)
    case MaybeStart(id, configured, threadStarts) => AfterStart(r, id, configured, threadStarts)
    case Decide(outcome) => if r.checkActive then Verdict(r, outcome).(checkActive := false) else r
  }

  function After(run: seq<Call>): Runtime {
    if run == [] then FRESH else Step(After(run[..|run| - 1]), run[|run| - 1])
  }

  // ------------------------------------------------------------------ invariants

  /** A definitive verdict fixes the gate; a running check belongs to the connection it marked. */
  predicate Sound(r: Runtime) {
    && (r.gate == Deny <==> r.state == Unlicensed)
    && (r.state == Licensed || r.state == Free ==> r.gate == Allow)
    && (r.checkActive ==> r.state == Unknown && r.checkConnection != 0 && r.lastAttempt == r.checkConnection)
  }

  lemma {:induction false} AlwaysSound(run: seq<Call>)
    ensures Sound(After(run))
    decreases |run|
  {
    if run != [] {
      AlwaysSound(run[..|run| - 1]);
    }
  }

  /** The first reset in the calls, or their number. */
  function FirstReset(more: seq<Call>): (n: nat)
    ensures n <= |more| && (n < |more| ==> more[n].Reset?)
  {
    if more == [] || more[0].Reset? then 0 else 1 + FirstReset(more[1..])
  }

  function From(r: Runtime, more: seq<Call>): Runtime
    decreases |more|
  {
    if more == [] then r else From(Step(r, more[0]), more[1..])
  }

  lemma {:induction false} AfterFrom(run: seq<Call>, more: seq<Call>)
    ensures After(run + more) == From(After(run), more)
    decreases |more|
  {
    hide Step;
    if more == [] {
      assert run + more == run;
    } else {
      assert run + more == (run + [more[0]]) + more[1..];
      assert (run + [more[0]])[..|run|] == run;
      AfterFrom(run + [more[0]], more[1..]);
    }
  }

  lemma {:induction false} FromAppend(r: Runtime, more: seq<Call>, c: Call)
    ensures From(r, more + [c]) == Step(From(r, more), c)
    decreases |more|
  {
    hide Step;
    if more != [] {
      assert (more + [c])[1..] == more[1..] + [c];
      FromAppend(Step(r, more[0]), more[1..], c);
    } else {
      assert [c][1..] == [];
    }
  }

  lemma {:induction false} FromConcat(r: Runtime, a: seq<Call>, b: seq<Call>)
    ensures From(r, a + b) == From(From(r, a), b)
    decreases |a|
  {
    hide Step;
    if a == [] {
      assert a + b == b;
    } else {
      assert (a + b)[1..] == a[1..] + b;
      FromConcat(Step(r, a[0]), a[1..], b);
    }
  }

  lemma VerdictKept(r: Runtime, c: Call)
    requires Sound(r) && r.state != Unknown
    ensures Step(r, c).state == if c.Reset? then Unknown else r.state
    ensures Sound(Step(r, c))
  {
  }

  lemma {:induction false} VerdictKeptFrom(r: Runtime, more: seq<Call>)
    requires Sound(r) && r.state != Unknown && forall i :: 0 <= i < |more| ==> !more[i].Reset?
    ensures From(r, more).state == r.state && Sound(From(r, more))
    decreases |more|
  {
    hide Step, Sound;
    if more != [] {
      VerdictKept(r, more[0]);
      VerdictKeptFrom(Step(r, more[0]), more[1..]);
    }
  }

  lemma {:induction false} NoResetBefore(more: seq<Call>)
    ensures forall i :: 0 <= i < FirstReset(more) ==> !more[i].Reset?
  {
    if more != [] && !more[0].Reset? {
      NoResetBefore(more[1..]);
      assert forall i :: 0 < i < |more| ==> more[i] == more[1..][i - 1];
    }
  }

  /** A definitive verdict stands through any calls up to the next reset, and falls with it. */
  lemma DefinitiveUntilReset(run: seq<Call>, more: seq<Call>)
    requires After(run).state != Unknown
    ensures var n := FirstReset(more);
      && After(run + more[..n]).state == After(run).state
      && (n < |more| ==> After(run + more[..n + 1]).state == Unknown)
  {
    hide Step, Sound;
    var n := FirstReset(more);
    var r := From(After(run), more[..n]);
    AlwaysSound(run);
    NoResetBefore(more);
    AfterFrom(run, more[..n]);
    VerdictKeptFrom(After(run), more[..n]);
    if n < |more| {
      var next := run + more[..n + 1];
      assert next[..|next| - 1] == run + more[..n] && next[|next| - 1] == more[n];
      VerdictKept(r, more[n]);
    }
  }

  // ---------------------------------------------------------------- what decides

  /** How the check that decided ended: the last one since the last reset that reached a verdict. */
  function DecidedBy(run: seq<Call>): Option<Outcome> {
    if run == [] then None
    else
      var before, c := run[..|run| - 1], run[|run| - 1];
      if !After(before).checkActive then if c.Reset? then None else DecidedBy(before)
      else if c.Decide? && c.outcome != NoDocument && c.outcome != NoConsoleId then Some(c.outcome)
      else DecidedBy(before)
  }

  /** The state and the gate that a decision stands for. */
  predicate Stands(r: Runtime, decided: Option<Outcome>) {
    match decided
    case None => r.state == Unknown && r.gate != Deny
    case Some(Matched) => r.state == Licensed && r.gate == Allow
    case Some(FreeMode) => r.state == Free && r.gate == Allow
    case Some(NoMatch) => r.state == Unlicensed && r.gate == Deny
    case Some(_) => false
  }

  lemma StandsOn(r: Runtime, c: Call, decided: Option<Outcome>)
    requires Sound(r) && Stands(r, decided)
    ensures Stands(Step(r, c),
      if !r.checkActive then if c.Reset? then None else decided
      else if c.Decide? && c.outcome != NoDocument && c.outcome != NoConsoleId then Some(c.outcome)
      else decided)
  {
  }

  /**
   In every run the network is denied exactly when the check that decided since the last
   reset found no match, and a check that matched, or found the free mode, allows it.
   */
  lemma {:induction false} DecisionStands(run: seq<Call>)
    ensures Stands(After(run), DecidedBy(run))
    ensures After(run).gate == Deny <==> DecidedBy(run) == Some(NoMatch)
    ensures DecidedBy(run) in {Some(Matched), Some(FreeMode)} ==> After(run).gate == Allow
    decreases |run|
  {
    hide Step, Sound;
    if run != [] {
      var before := run[..|run| - 1];
      DecisionStands(before);
      AlwaysSound(before);
      StandsOn(After(before), run[|run| - 1], DecidedBy(before));
    }
  }

  /** Nobody is served, and without a verdict the network waits. */
  predicate Unserved(r: Runtime) {
    Sound(r) && r.current == 0 && (r.state == Unknown ==> r.gate == Pending)
  }

  lemma UnservedStep(r: Runtime, c: Call)
    requires Unserved(r) && (c.Begin? ==> c.id == 0)
    ensures Unserved(Step(r, c)) && !(c.MaybeStart? && Attempts(r, c.id, c.configured))
  {
  }

  /** After the end of a connection nothing is granted to it: until the next one begins, and whatever check still
      runs for it, none is started and the gate opens only by a verdict. */
  lemma {:induction false} EndedGrantsNothing(run: seq<Call>, id: nat, more: seq<Call>)
    requires id != 0 && After(run).current == id && forall i :: 0 <= i < |more| ==> more[i].Begin? ==> more[i].id == 0
    ensures Unserved(After(run + [End(id)] + more)) && Attempted(run + [End(id)] + more) == Attempted(run)
    decreases |more|
  {
    hide Step, Unserved, Attempts;
    if more == [] {
      assert run + [End(id)] + more == run + [End(id)];
      EndsNow(run, id);
    } else {
      var n := |more| - 1;
      var all := run + [End(id)] + more;
      assert all[..|all| - 1] == run + [End(id)] + more[..n] && all[|all| - 1] == more[n];
      EndedGrantsNothing(run, id, more[..n]);
      UnservedStep(After(run + [End(id)] + more[..n]), more[n]);
    }
  }

  lemma EndsNow(run: seq<Call>, id: nat)
    requires id != 0 && After(run).current == id
    ensures Unserved(After(run + [End(id)])) && Attempted(run + [End(id)]) == Attempted(run)
  {
    AlwaysSound(run);
    assert (run + [End(id)])[..|run|] == run;
  }

  // --------------------------------------------------------- checks per connection

  /** The connections a check was attempted for, in order. */
  function Attempted(run: seq<Call>): seq<nat> {
    if run == [] then []
    else
      var before, c := run[..|run| - 1], run[|run| - 1];
      if c.MaybeStart? && Attempts(After(before), c.id, c.configured) then Attempted(before) + [c.id]
      else Attempted(before)
  }

  /** The latest connection id; connection ids rise, as those of the tether driver do. */
  function LastBegun(run: seq<Call>): nat {
    if run == [] then 0
    else
      var c := run[|run| - 1];
      if c.Begin? && c.id != 0 then c.id else LastBegun(run[..|run| - 1])
  }

  predicate Rising(run: seq<Call>) {
    run == []
    || (Rising(run[..|run| - 1])
        && (run[|run| - 1].Begin? && run[|run| - 1].id != 0 ==> run[|run| - 1].id > LastBegun(run[..|run| - 1])))
  }

  predicate Increasing(ids: seq<nat>) {
    forall i, j :: 0 <= i < j < |ids| ==> ids[i] < ids[j]
  }

  /** At most one check is attempted per connection: the attempts have rising ids. */
  lemma {:induction false} OneCheckPerConnection(run: seq<Call>)
    requires Rising(run)
    ensures Increasing(Attempted(run))
    ensures forall i :: 0 <= i < |Attempted(run)| ==> Attempted(run)[i] <= LastBegun(run)
    ensures var r := After(run);
      && (r.current != 0 ==> r.current == LastBegun(run))
      && (r.current != 0 && r.current in Attempted(run) ==> r.lastAttempt == r.current)
    decreases |run|
  {
    hide AfterStart, Verdict;
    if run != [] {
      OneCheckPerConnection(run[..|run| - 1]);
      AttemptStep(After(run[..|run| - 1]), run[|run| - 1]);
    }
  }

  lemma AttemptStep(r: Runtime, c: Call)
    ensures c.MaybeStart? || c.Decide? ==> Step(r, c).current == r.current
    ensures c.Decide? ==> Step(r, c).lastAttempt == r.lastAttempt
    ensures c.MaybeStart? ==>
      Step(r, c).lastAttempt == if Attempts(r, c.id, c.configured) then c.id else r.lastAttempt
  {
  }

  // ------------------------------------------------------------- ids that come back

  predicate AttemptAt(run: seq<Call>, i: nat, id: nat) {
    i < |run| && run[i].MaybeStart? && run[i].id == id && Attempts(After(run[..i]), id, run[i].configured)
  }

  /** Only the latest attempt is remembered, and none over a reset. */
  predicate ForgetsAt(run: seq<Call>, j: nat, id: nat) {
    && j < |run|
    && ((run[j].MaybeStart? && run[j].id != id && AttemptAt(run, j, run[j].id))
        || (run[j].Reset? && !After(run[..j]).checkActive))
  }

  /** A check was attempted for `id` at call `i`, call `j` made the runtime forget it, and there was none since. */
  ghost predicate ForgottenBy(run: seq<Call>, i: nat, j: nat, id: nat) {
    && i < j && AttemptAt(run, i, id) && ForgetsAt(run, j, id)
    && forall m: nat :: j < m < |run| ==> !AttemptAt(run, m, id)
  }

  ghost predicate Forgotten(run: seq<Call>, id: nat) {
    exists i: nat, j: nat :: ForgottenBy(run, i, j, id)
  }

  lemma PrefixAttempts(run: seq<Call>, k: nat, id: nat)
    requires k <= |run|
    ensures forall i: nat :: i < k ==> (AttemptAt(run[..k], i, id) <==> AttemptAt(run, i, id))
    ensures forall i: nat :: i < k ==> (ForgetsAt(run[..k], i, id) <==> ForgetsAt(run, i, id))
  {
    hide After, Attempts;
    forall i: nat | i < k ensures run[..k][..i] == run[..i] && run[..k][i] == run[i] {
    }
  }

  lemma LastStep(run: seq<Call>, id: nat)
    requires run != [] && id != 0
    ensures var n := |run| - 1;
      After(run).lastAttempt == id <==>
        AttemptAt(run, n, id) || (After(run[..n]).lastAttempt == id && !ForgetsAt(run, n, id))
  {
    var n := |run| - 1;
    var r := After(run[..n]);
    AttemptStep(r, run[n]);
  }

  /** What the guard remembers of an id is exactly whether its latest attempt is still unforgotten. */
  lemma {:induction false} ForgottenIff(run: seq<Call>, id: nat)
    requires id != 0
    ensures Forgotten(run, id) <==> (exists i: nat :: AttemptAt(run, i, id)) && After(run).lastAttempt != id
    decreases |run|
  {
    hide After, AttemptAt, ForgetsAt;
    if run == [] {
      NoAttempts(id);
    } else {
      var n := |run| - 1;
      var before := run[..n];
      ForgottenIff(before, id);
      PrefixAttempts(run, n, id);
      LastStep(run, id);
      LastBounds(run, id);
      LastBounds(before, id);
      if AttemptAt(run, n, id) {
        assert !Forgotten(run, id);
      } else if ForgetsAt(run, n, id) {
        if i: nat :| AttemptAt(run, i, id) {
          assert ForgottenBy(run, i, n, id);
        }
      } else {
        assert forall i: nat :: AttemptAt(run, i, id) <==> AttemptAt(before, i, id);
        ForgottenKept(run, id);
      }
    }
  }

  lemma NoAttempts(id: nat)
    ensures forall i: nat :: !AttemptAt([], i, id) && !ForgetsAt([], i, id)
  {
  }

  lemma LastBounds(run: seq<Call>, id: nat)
    ensures forall i: nat :: AttemptAt(run, i, id) ==> i < |run|
    ensures forall i: nat :: ForgetsAt(run, i, id) ==> i < |run|
    ensures forall i: nat :: !(AttemptAt(run, i, id) && ForgetsAt(run, i, id))
  {
    hide After, Attempts;
  }

  lemma ForgottenKept(run: seq<Call>, id: nat)
    requires run != [] && !AttemptAt(run, |run| - 1, id) && !ForgetsAt(run, |run| - 1, id)
    ensures Forgotten(run, id) <==> Forgotten(run[..|run| - 1], id)
  {
    hide After, AttemptAt, ForgetsAt;
    var n := |run| - 1;
    PrefixAttempts(run, n, id);
    LastBounds(run, id);
    LastBounds(run[..n], id);
    forall i: nat, j: nat ensures ForgottenBy(run, i, j, id) <==> ForgottenBy(run[..n], i, j, id) {
    }
  }

  /** The connection of call `k` is ready for a check, had one before, and that one is forgotten. */
  ghost predicate RepeatsAt(run: seq<Call>, k: nat) {
    && k < |run| && run[k].MaybeStart? && Ready(After(run[..k]), run[k].id, run[k].configured)
    && Forgotten(run[..k], run[k].id)
  }

  predicate TwiceAt(run: seq<Call>, i: nat, k: nat) {
    i < k < |run| && run[k].MaybeStart? && AttemptAt(run, i, run[k].id) && AttemptAt(run, k, run[k].id)
  }

  /**
   In every run, a check is attempted twice for a connection id exactly when the id is
   ready for one at a moment when its earlier one has been forgotten, over another
   id's or a reset.
   */
  lemma AttemptedTwiceIff(run: seq<Call>)
    ensures (exists i: nat, k: nat :: TwiceAt(run, i, k)) <==> exists k: nat :: RepeatsAt(run, k)
  {
    hide After, Ready, Forgotten, AttemptAt;
    forall i: nat, k: nat | TwiceAt(run, i, k) ensures RepeatsAt(run, k) {
      AttemptsReady(run, k);
      RepeatIsSecond(run, k);
    }
    forall k: nat | RepeatsAt(run, k) ensures exists i: nat :: TwiceAt(run, i, k) {
      NotReady(After(run[..k]), run[k]);
      RepeatIsSecond(run, k);
    }
  }

  lemma AttemptsReady(run: seq<Call>, k: nat)
    requires k < |run| && run[k].MaybeStart? && AttemptAt(run, k, run[k].id)
    ensures run[k].id != 0
  {
    hide After;
  }

  lemma NotReady(r: Runtime, c: Call)
    ensures c.MaybeStart? && c.id == 0 ==> !Ready(r, c.id, c.configured)
  {
  }

  lemma RepeatIsSecond(run: seq<Call>, k: nat)
    requires k < |run| && run[k].MaybeStart? && run[k].id != 0
    ensures RepeatsAt(run, k) <==> exists i: nat :: TwiceAt(run, i, k)
  {
    hide After, Ready, Forgotten;
    var id := run[k].id;
    PrefixAttempts(run, k, id);
    ForgottenIff(run[..k], id);
    LastBounds(run[..k], id);
    if RepeatsAt(run, k) {
      var i: nat :| AttemptAt(run[..k], i, id);
      assert TwiceAt(run, i, k);
    }
  }

  lemma AfterCall(before: seq<Call>, c: Call)
    ensures After(before + [c]) == Step(After(before), c)
  {
    assert (before + [c])[..|before|] == before;
  }

  /** A connection begins, and its check runs and ends without a document. */
  function Checked(before: seq<Call>, id: nat): seq<Call> {
    ((before + [Begin(id)]) + [MaybeStart(id, true, true)]) + [Decide(NoDocument)]
  }

  lemma CheckRuns(before: seq<Call>, id: nat)
    requires var r := After(before); !r.checkActive && r.state == Unknown && id != 0 && r.lastAttempt != id
    ensures AttemptAt(Checked(before, id), |before| + 1, id)
    ensures After(Checked(before, id)) == Runtime(Unknown, Allow, false, id, id, id)
  {
    hide After;
    var start := MaybeStart(id, true, true);
    AfterCall(before, Begin(id));
    AfterCall(before + [Begin(id)], start);
    AfterCall((before + [Begin(id)]) + [start], Decide(NoDocument));
    assert Checked(before, id)[..|before| + 1] == before + [Begin(id)];
  }

  /** It happens: two connections alternate, and a whole check runs twice for the first of them. */
  lemma ReturningIdIsCheckedAgain(a: nat, b: nat)
    requires a != 0 && b != 0 && a != b
    ensures TwiceAt(Checked(Checked(Checked([], a), b), a), 1, 7)
  {
    hide After, AttemptAt;
    StartsFresh();
    CheckRuns([], a);
    CheckRuns(Checked([], a), b);
    CheckRuns(Checked(Checked([], a), b), a);
    var run := Checked(Checked(Checked([], a), b), a);
    assert run[..3] == Checked([], a) && run[7] == MaybeStart(a, true, true);
    PrefixAttempts(run, 3, a);
  }

  lemma StartsFresh()
    ensures After([]) == FRESH
  {
  }

  // ----------------------------------------------------------------- fail-open

  /** The call ends a check of the current connection without a verdict. */
  predicate EndsWithoutVerdict(r: Runtime, c: Call) {
    || (c.Decide? && r.checkActive && (c.outcome == NoDocument || c.outcome == NoConsoleId)
        && r.current == r.checkConnection)
    || (c.MaybeStart? && Attempts(r, c.id, c.configured) && !c.threadStarts)
  }

  predicate OpenUnknown(r: Runtime) {
    r.gate == Allow && r.state == Unknown
  }

  /** A verdictless check of the connection that is still current ended at call `k`, and the gate stayed open since. */
  ghost predicate OpenedAt(run: seq<Call>, k: nat) {
    && k < |run| && EndsWithoutVerdict(After(run[..k]), run[k])
    && After(run[..k]).current == After(run).current != 0
    && forall j {:trigger run[..j]} :: k < j <= |run| ==> OpenUnknown(After(run[..j]))
  }

  lemma OpensOnlyWithoutVerdict(r: Runtime, c: Call)
    requires Sound(r) && OpenUnknown(Step(r, c))
    ensures (OpenUnknown(r) && Step(r, c).current == r.current) || EndsWithoutVerdict(r, c)
    ensures EndsWithoutVerdict(r, c) ==> Step(r, c).current == r.current != 0
  {
  }

  /** Access without a verdict is only ever granted to the connection whose check ended without one. */
  lemma {:induction false} OpenOnlyWithoutVerdict(run: seq<Call>)
    requires OpenUnknown(After(run))
    ensures exists k: nat :: OpenedAt(run, k)
    decreases |run|
  {
    hide Step, Sound, EndsWithoutVerdict, OpenUnknown;
    StartsShut();
    var n := |run| - 1;
    var before := run[..n];
    assert run[..n + 1] == run;
    AlwaysSound(before);
    OpensOnlyWithoutVerdict(After(before), run[n]);
    if EndsWithoutVerdict(After(before), run[n]) {
      assert OpenedAt(run, n);
    } else {
      OpenOnlyWithoutVerdict(before);
      var k: nat :| OpenedAt(before, k);
      assert before[..k] == run[..k];
      forall j | k < j <= |run| ensures OpenUnknown(After(run[..j])) {
        if j <= n {
          assert before[..j] == run[..j];
        }
      }
      assert OpenedAt(run, k);
    }
  }

  lemma StartsShut()
    ensures !OpenUnknown(After([]))
  {
  }

  // ------------------------------------------------------- exactly when open or checking

  /** The call shuts the gate of a connection that was let through without a verdict. */
  predicate Shuts(r: Runtime, c: Call) {
    match c
    case Begin(id) => id != 0
    case End(id) => id != 0 && id == r.current
    case Reset => true
    case MaybeStart(id, configured, threadStarts) => Starts(r, c)
    case Decide(_) => false
  }

  /** A check begins: for the current connection, not attempted last, with the internet configured, before any verdict. */
  predicate Starts(r: Runtime, c: Call) {
    && c.MaybeStart? && c.threadStarts && c.configured && c.id != 0 && c.id == r.current && c.id != r.lastAttempt
    && r.state == Unknown && !r.checkActive
  }

  /** No check runs while the gate is open without a verdict. */
  predicate Quiet(r: Runtime) {
    OpenUnknown(r) ==> !r.checkActive
  }

  lemma OpenStep(r: Runtime, c: Call)
    requires Sound(r) && Quiet(r)
    ensures OpenUnknown(Step(r, c)) <==> EndsWithoutVerdict(r, c) || (OpenUnknown(r) && !Shuts(r, c))
    ensures Quiet(Step(r, c)) && (Step(r, c).checkActive <==> Starts(r, c) || (r.checkActive && !c.Decide?))
  {
  }

  lemma {:induction false} AlwaysQuiet(run: seq<Call>)
    ensures Quiet(After(run))
    decreases |run|
  {
    hide Step, Sound, Quiet;
    if run == [] {
      StartsQuiet();
    } else {
      AlwaysSound(run[..|run| - 1]);
      AlwaysQuiet(run[..|run| - 1]);
      OpenStep(After(run[..|run| - 1]), run[|run| - 1]);
    }
  }

  lemma StartsQuiet()
    ensures Quiet(After([])) && !After([]).checkActive
  {
  }

  /** Call `k` ended a check without a verdict, and nothing has shut the gate since. */
  ghost predicate OpenSince(run: seq<Call>, k: nat) {
    && k < |run| && EndsWithoutVerdict(After(run[..k]), run[k])
    && forall i {:trigger run[..i]} :: k < i < |run| ==> !Shuts(After(run[..i]), run[i])
  }

  /** Call `k` began a check, and it has not been decided since. */
  ghost predicate CheckedSince(run: seq<Call>, k: nat) {
    k < |run| && Starts(After(run[..k]), run[k]) && forall i :: k < i < |run| ==> !run[i].Decide?
  }

  lemma SinceBefore(run: seq<Call>)
    requires run != []
    ensures var n := |run| - 1;
      && (forall k: nat :: k < n ==> (OpenSince(run, k) <==> OpenSince(run[..n], k) && !Shuts(After(run[..n]), run[n])))
      && (forall k: nat :: k < n ==> (CheckedSince(run, k) <==> CheckedSince(run[..n], k) && !run[n].Decide?))
  {
    hide After, EndsWithoutVerdict, Shuts, Starts;
    var n := |run| - 1;
    var before := run[..n];
    assert forall i {:trigger run[..i]} :: 0 <= i < n ==> before[..i] == run[..i] && before[i] == run[i];
    forall k: nat | k < n
      ensures OpenSince(run, k) <==> OpenSince(before, k) && !Shuts(After(before), run[n])
      ensures CheckedSince(run, k) <==> CheckedSince(before, k) && !run[n].Decide?
    {
      assert before[..k] == run[..k] && before[k] == run[k] && run[..n] == before;
      assert forall i :: k < i < n ==> before[i] == run[i];
      if OpenSince(before, k) && !Shuts(After(before), run[n]) {
        forall i | k < i < |run| ensures !Shuts(After(run[..i]), run[i]) {
          assert i < n ==> before[..i] == run[..i] && before[i] == run[i];
        }
      }
      if OpenSince(run, k) {
        forall i | k < i < n ensures !Shuts(After(before[..i]), before[i]) {
          assert before[..i] == run[..i] && before[i] == run[i];
        }
      }
    }
  }

  /**
   In every run: the gate is open without a verdict exactly when a check ended without
   one and nothing has shut it since; and a check is running exactly when one has begun
   and not been decided.
   */
  lemma {:induction false} OpenIff(run: seq<Call>)
    ensures OpenUnknown(After(run)) <==> exists k: nat :: OpenSince(run, k)
    ensures After(run).checkActive <==> exists k: nat :: CheckedSince(run, k)
    decreases |run|
  {
    hide Step, Sound, Quiet, OpenUnknown, EndsWithoutVerdict, Shuts, Starts;
    if run == [] {
      StartsShut();
      StartsQuiet();
    } else {
      var n := |run| - 1;
      var before := run[..n];
      var r := After(before);
      OpenIff(before);
      SinceBefore(run);
      AlwaysSound(before);
      AlwaysQuiet(before);
      OpenStep(r, run[n]);
      Sinces(run, EndsWithoutVerdict(r, run[n]), Shuts(r, run[n]), Starts(r, run[n]));
    }
  }

  /** The last call begins the wait, or an earlier one did and the last has not ended it. */
  lemma Sinces(run: seq<Call>, ends: bool, shuts: bool, starts: bool)
    requires run != []
    requires var r, c := After(run[..|run| - 1]), run[|run| - 1];
      ends == EndsWithoutVerdict(r, c) && shuts == Shuts(r, c) && starts == Starts(r, c)
    ensures var n := |run| - 1;
      && ((exists k: nat :: OpenSince(run, k)) <==> ends || (!shuts && exists k: nat :: OpenSince(run[..n], k)))
      && ((exists k: nat :: CheckedSince(run, k)) <==>
          starts || (!run[n].Decide? && exists k: nat :: CheckedSince(run[..n], k)))
  {
    hide After, EndsWithoutVerdict, Shuts, Starts;
    var n := |run| - 1;
    SinceBefore(run);
    assert OpenSince(run, n) <==> ends;
    assert CheckedSince(run, n) <==> starts;
    if !shuts {
      if k: nat :| OpenSince(run[..n], k) {
        assert OpenSince(run, k);
      }
    }
    if !run[n].Decide? {
      if k: nat :| CheckedSince(run[..n], k) {
        assert CheckedSince(run, k);
      }
    }
  }

  // ------------------------------------------------------------------ the singleton

  /** One round of the worker's wait: the calls of other threads while it sleeps, then the deadline and the internet flag. */
  datatype Round = Round(calls: seq<Call>, expired: bool, internet: bool)

  function Calls(rounds: seq<Round>): seq<Call> {
    if rounds == [] then [] else Calls(rounds[..|rounds| - 1]) + rounds[|rounds| - 1].calls
  }

  lemma NothingCalled(r: Runtime)
    ensures From(r, Calls([])) == r && ByOthers(Calls([]))
  {
  }

  /** After `i` rounds the worker goes on to wait. */
  predicate WaitGoesOn(r: Runtime, id: nat, rounds: seq<Round>, i: nat)
    requires i < |rounds|
  {
    From(r, Calls(rounds[..i])).current == id && !rounds[i].expired && !rounds[i].internet
  }

  /** The wait that begins at `r` lasts exactly `n` rounds, or longer than the schedule. */
  predicate Waited(r: Runtime, id: nat, rounds: seq<Round>, n: nat) {
    && n <= |rounds| && (n < |rounds| ==> !WaitGoesOn(r, id, rounds, n))
    && forall i :: 0 <= i < n ==> WaitGoesOn(r, id, rounds, i)
  }

  /** Nobody but the worker decides. */
  predicate ByOthers(calls: seq<Call>) {
    forall i :: 0 <= i < |calls| ==> !calls[i].Decide?
  }

  class LicenceRuntime {
    var state: LicenceState
    var gate: NetworkGate
    var checkActive: bool
    var current: nat
    var lastAttempt: nat
    var checkConnection: nat

    function View(): Runtime
      reads this
    {
      Runtime(state, gate, checkActive, current, lastAttempt, checkConnection)
    }

    constructor ()
      ensures View() == FRESH
    {
      state, gate, checkActive, current, lastAttempt, checkConnection := Unknown, Pending, false, 0, 0, 0;
    }

    method SetStateAndGate(s: LicenceState, g: NetworkGate)
      modifies this`state, this`gate
      ensures state == s && gate == g
    {
      state := s;
      gate := g;
    }

    method ResetCoreSession()
      modifies this
      ensures View() == Step(old(View()), Reset)
    {
      if checkActive {
        return;
      }
      current, lastAttempt, checkConnection := 0, 0, 0;
      SetStateAndGate(Unknown, Pending);
    }

    method BeginPhoneConnection(id: nat)
      modifies this
      ensures View() == Step(old(View()), Begin(id))
    {
      if id == 0 {
        return;
      }
      current := id;
      if state == Licensed || state == Free {
        gate := Allow;
      } else if state == Unlicensed {
        gate := Deny;
      } else {
        gate := Pending;
      }
    }

    method EndPhoneConnection(id: nat)
      modifies this
      ensures View() == Step(old(View()), End(id))
    {
      if id == 0 || current != id {
        return;
      }
      current := 0;
      if state == Unknown {
        gate := Pending;
      }
    }

    method MaybeStartCheck(id: nat, configured: bool, threadStarts: bool) returns (started: bool)
      modifies this
      ensures View() == Step(old(View()), MaybeStart(id, configured, threadStarts))
      ensures started == (Attempts(old(View()), id, configured) && threadStarts)
    {
      if id == 0 || current != id || state != Unknown || checkActive || lastAttempt == id {
        return false;
      }
      if !configured {
        return false;
      }
      checkConnection := id;
      lastAttempt := id;
      gate := Pending;
      checkActive := true;
      if !threadStarts {
        checkActive := false;
        SetStateAndGate(Unknown, Allow);
        return false;
      }
      return true;
    }

    /** The calls of other threads. */
    method Others(calls: seq<Call>)
      requires ByOthers(calls)
      modifies this
      ensures View() == From(old(View()), calls)
    {
      hide Step;
      for k := 0 to |calls|
        invariant View() == From(old(View()), calls[..k])
      {
        FromAppend(old(View()), calls[..k], calls[k]);
        assert calls[..k] + [calls[k]] == calls[..k + 1];
        match calls[k] {
          case Reset => ResetCoreSession();
          case Begin(id) => BeginPhoneConnection(id);
          case End(id) => EndPhoneConnection(id);
          case MaybeStart(id, configured, threadStarts) =>
            var _ := MaybeStartCheck(id, configured, threadStarts);
        }
      }
      assert calls[..|calls|] == calls;
    }

    /** The wait for the independent probe: `n` rounds of it, during which others made the calls of these rounds. */
    method AwaitInternet(id: nat, rounds: seq<Round>) returns (n: nat)
      requires forall i :: 0 <= i < |rounds| ==> ByOthers(rounds[i].calls)
      modifies this
      ensures Waited(old(View()), id, rounds, n) && ByOthers(Calls(rounds[..n]))
      ensures View() == From(old(View()), Calls(rounds[..n]))
    {
      hide From, Step;
      n := 0;
      NothingCalled(View());
      assert rounds[..0] == [];
      while n < |rounds| && current == id && !rounds[n].expired && !rounds[n].internet
        invariant n <= |rounds| && ByOthers(Calls(rounds[..n])) && View() == From(old(View()), Calls(rounds[..n]))
        invariant forall i :: 0 <= i < n ==> WaitGoesOn(old(View()), id, rounds, i)
      {
        assert rounds[..n + 1][..n] == rounds[..n];
        FromConcat(old(View()), Calls(rounds[..n]), rounds[n].calls);
        Others(rounds[n].calls);
        n := n + 1;
      }
    }

    /**
     Whatever the others do during the wait, a check whose connection is no longer the
     current one changes nothing; `done` unless the schedule ends before the wait does.
     */
    method FinishUnavailable(id: nat, rounds: seq<Round>) returns (done: bool, n: nat)
      requires forall i :: 0 <= i < |rounds| ==> ByOthers(rounds[i].calls)
      modifies this
      ensures Waited(old(View()), id, rounds, n) && ByOthers(Calls(rounds[..n])) && (done <==> n < |rounds|)
      ensures var r := From(old(View()), Calls(rounds[..n]));
        View() == if done && r.current == id then r.(state := Unknown, gate := Allow) else r
    {
      n := AwaitInternet(id, rounds);
      done := n < |rounds|;
      if !done || current != id {
        return;
      }
      SetStateAndGate(Unknown, Allow);
    }

    /** The worker's decision is one step; without a document it is taken after the rounds that the wait lasted. */
    method CheckWorker(outcome: Outcome, rounds: seq<Round>) returns (done: bool, n: nat)
      requires checkActive && forall i :: 0 <= i < |rounds| ==> ByOthers(rounds[i].calls)
      modifies this
      ensures if outcome.NoDocument? then Waited(old(View()), old(checkConnection), rounds, n) && (done <==> n < |rounds|)
              else done && n == 0
      ensures var r := From(old(View()), Calls(rounds[..n])); View() == if done then Step(r, Decide(outcome)) else r
    {
      var id := checkConnection;
      done, n := true, 0;
      NothingCalled(View());
      assert rounds[..0] == [];
      match outcome {
        case Matched => SetStateAndGate(Licensed, Allow);
        case FreeMode => SetStateAndGate(Free, Allow);
        case NoMatch => SetStateAndGate(Unlicensed, Deny);
        case NoDocument =>
          done, n := FinishUnavailable(id, rounds);
          CheckStays(old(View()), Calls(rounds[..n]));
          if !done {
            return;
          }
        case NoConsoleId =>
          if current == id {
            SetStateAndGate(Unknown, Allow);
          }
      }
      checkActive := false;
    }
  }

  /** While a check runs, nobody else ends it or starts another. */
  lemma {:induction false} CheckStays(r: Runtime, calls: seq<Call>)
    requires r.checkActive && ByOthers(calls)
    ensures From(r, calls).checkActive && From(r, calls).checkConnection == r.checkConnection
    decreases |calls|
  {
    if calls != [] {
      CheckStays(Step(r, calls[0]), calls[1..]);
    }
  }
}
