/**
 The notification queue (src/diag.cpp): a 16-slot ring of notices behind a lock that
 callers only try to take, a mask of the notice kinds a phone connection has had, and
 compactions that take notices out of the middle. `NotifyRing` is the ring; `Board`
 is what its critical sections do to the queue seen as a sequence.
 */
module NotifyRing {
  import opened Bytes
  import opened Ring

  const DEPTH := 16
  const TEXT_MAX := 160

  const CHECKING: nat := 2
  const WORKING: nat := 3
  const NOT_WORKING: nat := 4
  const COMPLETE: nat := 7
  const RECONNECTING: nat := 8
  const PROGRESS: set<nat> := {CHECKING, WORKING, NOT_WORKING, COMPLETE, RECONNECTING}

  /** `phone` is 0 for a notice that belongs to no connection. */
  datatype Notice = Notice(text: string, phone: nat, kind: nat)

  const BLANK := Notice("", 0, 0)

  /** The queue, the active connection, and the kinds it has had. */
  datatype Board = Board(queue: seq<Notice>, active: nat, seen: set<nat>)

  // ------------------------------------------------------------------- the queue

  function Filter(q: seq<Notice>, keep: Notice -> bool): seq<Notice> {
    if q == [] then [] else (if keep(q[0]) then [q[0]] else []) + Filter(q[1..], keep)
  }

  function NotOf(id: nat): Notice -> bool {
    (n: Notice) => n.phone != id
  }

  function NotProgressOf(id: nat): Notice -> bool {
    (n: Notice) => n.phone != id || n.kind !in PROGRESS
  }

  function NotFailureOf(id: nat): Notice -> bool {
    (n: Notice) => n.phone != id || n.kind != NOT_WORKING
  }

  predicate Repeats(n: Notice, phone: nat, kind: nat, text: string) {
    (phone != 0 && n.phone == phone && n.kind == kind) || (n.text != "" && n.text == text)
  }

  predicate Duplicate(q: seq<Notice>, phone: nat, kind: nat, text: string) {
    exists i :: 0 <= i < |q| && Repeats(q[i], phone, kind, text)
  }

  function Cut(text: string): string {
    if |text| <= TEXT_MAX - 1 then text else text[..TEXT_MAX - 1]
  }

  /** Appending to a full queue drops its oldest notice. */
  function Pushed(q: seq<Notice>, n: Notice): seq<Notice> {
    if |q| == DEPTH then q[1..] + [n] else q + [n]
  }

  predicate Stale(n: Notice, active: nat) {
    n.phone != 0 && n.phone != active
  }

  /** The queue without the stale notices at its head. */
  function Current(q: seq<Notice>, active: nat): seq<Notice> {
    if q != [] && Stale(q[0], active) then Current(q[1..], active) else q
  }

  // -------------------------------------------------------------- critical sections

  datatype Call =
      Notify(text: string)
    | Begin(id: nat)
    | End(id: nat)
    | ResetProgress(id: nat)
    | NotifyPhone(id: nat, kind: nat, text: string)
    | Pop

  function Cleared(q: seq<Notice>, id: nat): seq<Notice> {
    if id == 0 then q else Filter(q, NotOf(id))
  }

  predicate Asks(b: Board, id: nat, kind: nat, text: string) {
    id != 0 && text != "" && 1 <= kind <= RECONNECTING && b.active == id
  }

  /** A working notice withdraws a queued failure notice of the same connection. */
  function Withdrawn(b: Board, id: nat, kind: nat): Board {
    if kind == WORKING && b.queue != []
    then b.(queue := Filter(b.queue, NotFailureOf(id)), seen := b.seen - {NOT_WORKING})
    else b
  }

  predicate Accepts(b: Board, id: nat, kind: nat, text: string) {
    kind !in b.seen && !Duplicate(b.queue, id, kind, text)
  }

  function AfterNotifyPhone(b: Board, id: nat, kind: nat, text: string): Board {
    if !Asks(b, id, kind, text) then b
    else
      var w := Withdrawn(b, id, kind);
      if !Accepts(w, id, kind, text) then w
      else w.(queue := Pushed(w.queue, Notice(Cut(text), id, kind)), seen := w.seen + {kind})
  }

  function AfterNotify(b: Board, text: string): Board {
    if text == "" || Duplicate(b.queue, 0, 0, text) then b
    else b.(queue := Pushed(b.queue, Notice(Cut(text), 0, 0)))
  }

  function AfterBegin(b: Board, id: nat): Board {
    if id == 0 then b
    else Board(if b.active != id then Cleared(b.queue, b.active) else b.queue, id, {})
  }

  function AfterEnd(b: Board, id: nat): Board {
    if id == 0 then b
    else
      var c := b.(queue := Cleared(b.queue, id));
      if b.active == id then c.(seen := {}, active := 0) else c
  }

  function AfterResetProgress(b: Board, id: nat): Board {
    if id == 0 || b.active != id then b
    else b.(seen := b.seen - PROGRESS, queue := Filter(b.queue, NotProgressOf(id)))
  }

  function AfterPop(b: Board): Board {
    var c := Current(b.queue, b.active);
    b.(queue := if c == [] then [] else c[1..])
  }

  /** Without the lock a call does nothing, but for the connection changes of begin and end. */
  function Unlocked(b: Board, c: Call): Board {
    match c
    case Begin(id) => if id == 0 then b else b.(active := id)
    case End(id) => if id != 0 && b.active == id then b.(active := 0) else b
    case _ => b
  }

  function Next(b: Board, c: Call, locked: bool): Board {
    if !locked then Unlocked(b, c)
    else
      match c
      case Notify(text) => AfterNotify(b, text)
      case Begin(id) => AfterBegin(b, id)
      case End(id) => AfterEnd(b, id)
      case ResetProgress(id) => AfterResetProgress(b, id)
      case NotifyPhone(id, kind, text) => AfterNotifyPhone(b, id, kind, text)
      case Pop => AfterPop(b)
  }

  /** The notice a pop shows. */
  function Shown(b: Board): (r: seq<Notice>)
    ensures |r| <= 1
  {
    var c := Current(b.queue, b.active);
    if c == [] then [] else [c[0]]
  }

  // -------------------------------------------------------------------- the ring

  lemma {:induction false} FilterSnoc(q: seq<Notice>, n: Notice, keep: Notice -> bool)
    ensures Filter(q + [n], keep) == Filter(q, keep) + if keep(n) then [n] else []
  {
    if q == [] {
      assert [n][1..] == [] && q + [n] == [n];
    } else {
      assert (q + [n])[1..] == q[1..] + [n];
      FilterSnoc(q[1..], n, keep);
      var first, rest, last := if keep(q[0]) then [q[0]] else [], Filter(q[1..], keep), if keep(n) then [n] else [];
      assert first + (rest + last) == first + rest + last;
    }
  }

  lemma {:induction false} FilterLength(q: seq<Notice>, keep: Notice -> bool)
    ensures |Filter(q, keep)| <= |q|
  {
    if q != [] {
      FilterLength(q[1..], keep);
    }
  }

  class NotifyRing {
    const q: array<Notice>
    var head: nat
    var tail: nat
    var count: nat
    var active: nat
    var seen: set<nat>

    ghost predicate Valid()
      reads this, q
    {
      q.Length == DEPTH && RingOk(DEPTH, head, tail, count)
    }

    ghost function View(): Board
      reads this, q
      requires Valid()
    {
      Board(Entries(q[..], head, count), active, seen)
    }

    constructor ()
      ensures Valid() && View() == Board([], 0, {})
    {
      q := new Notice[DEPTH](_ => BLANK);
      head, tail, count, active, seen := 0, 0, 0, 0, {};
    }

    method DropHead()
      requires Valid() && count > 0
      modifies this`head, this`count, q
      ensures Valid() && View() == old(View()).(queue := old(View()).queue[1..])
    {
      PopEntry(q[..], head, tail, count, BLANK);
      ghost var was := q[..];
      q[head] := BLANK;
      assert q[..] == was[head := BLANK];
      head := (head + 1) % DEPTH;
      count := count - 1;
    }

    method Put(n: Notice)
      requires Valid()
      modifies this`head, this`tail, this`count, q
      ensures Valid() && View() == old(View()).(queue := Pushed(old(View()).queue, n))
    {
      if count == DEPTH {
        DropHead();
      }
      PushEntry(q[..], head, tail, count, n);
      ghost var was := q[..];
      q[tail] := n;
      assert q[..] == was[tail := n];
      tail := (tail + 1) % DEPTH;
      count := count + 1;
    }

    /** The compaction: the notices to keep are copied out, and back from slot 0 on. */
    method Compact(keep: Notice -> bool)
      requires Valid()
      modifies this`head, this`tail, this`count, q
      ensures Valid() && View() == old(View()).(queue := Filter(old(View()).queue, keep))
    {
      ghost var queue := Entries(q[..], head, count);
      var kept, i := [], 0;
      while i < count
        modifies {}
        invariant 0 <= i <= count && kept == Filter(queue[..i], keep)
      {
        var n := q[Slot(DEPTH, head, i)];
        assert queue[..i + 1] == queue[..i] + [n];
        FilterSnoc(queue[..i], n, keep);
        if keep(n) {
          kept := kept + [n];
        }
        i := i + 1;
      }
      assert queue[..count] == queue;
      FilterLength(queue, keep);
      forall k | 0 <= k < q.Length {
        q[k] := if k < |kept| then kept[k] else BLANK;
      }
      head, count := 0, |kept|;
      tail := |kept| % DEPTH;
      assert Entries(q[..], 0, |kept|) == kept;
    }

    method DuplicateQueued(phone: nat, kind: nat, text: string) returns (r: bool)
      requires Valid()
      ensures r == Duplicate(View().queue, phone, kind, text)
    {
      ghost var queue := Entries(q[..], head, count);
      var i := 0;
      while i < count
        invariant 0 <= i <= count
        invariant forall k :: 0 <= k < i ==> !Repeats(queue[k], phone, kind, text)
      {
        assert queue[i] == q[Slot(DEPTH, head, i)];
        if Repeats(q[Slot(DEPTH, head, i)], phone, kind, text) {
          return true;
        }
        i := i + 1;
      }
      return false;
    }

    method QueueNotification(text: string, locked: bool)
      requires Valid()
      modifies this`head, this`tail, this`count, q
      ensures Valid() && View() == Next(old(View()), Notify(text), locked)
    {
      if text == "" || !locked {
        return;
      }
      var repeated := DuplicateQueued(0, 0, text);
      if repeated {
        return;
      }
      Put(Notice(Cut(text), 0, 0));
    }

    method RemovePhoneNotifications(id: nat)
      requires Valid()
      modifies this`head, this`tail, this`count, q
      ensures Valid() && View() == old(View()).(queue := Cleared(old(View()).queue, id))
    {
      if id == 0 || count == 0 {
        return;
      }
      Compact(NotOf(id));
    }

    method BeginPhoneNotifications(id: nat, locked: bool)
      requires Valid()
      modifies this, q
      ensures Valid() && View() == Next(old(View()), Begin(id), locked)
    {
      if id == 0 {
        return;
      }
      if !locked {
        active := id;
        return;
      }
      if active != 0 && active != id {
        RemovePhoneNotifications(active);
      }
      seen := {};
      active := id;
    }

    method EndPhoneNotifications(id: nat, locked: bool)
      requires Valid()
      modifies this, q
      ensures Valid() && View() == Next(old(View()), End(id), locked)
    {
      if id == 0 {
        return;
      }
      if !locked {
        if active == id {
          active := 0;
        }
        return;
      }
      RemovePhoneNotifications(id);
      if active == id {
        seen := {};
        active := 0;
      }
    }

    method ResetPhoneProgress(id: nat, locked: bool)
      requires Valid()
      modifies this, q
      ensures Valid() && View() == Next(old(View()), ResetProgress(id), locked)
    {
      if id == 0 || !locked {
        return;
      }
      if active == id {
        seen := seen - PROGRESS;
        if count != 0 {
          Compact(NotProgressOf(id));
        }
      }
    }

    method NotifyPhone(id: nat, kind: nat, text: string, locked: bool)
      requires Valid()
      modifies this, q
      ensures Valid() && View() == Next(old(View()), Call.NotifyPhone(id, kind, text), locked)
    {
      if id == 0 || text == "" || kind < 1 || kind > RECONNECTING || !locked || active != id {
        return;
      }
      if kind == WORKING && count != 0 {
        Compact(NotFailureOf(id));
        seen := seen - {NOT_WORKING};
      }
      var repeated := DuplicateQueued(id, kind, text);
      if kind in seen || repeated {
        return;
      }
      Put(Notice(Cut(text), id, kind));
      seen := seen + {kind};
    }

    /** The text shown, cut to the caller's buffer; None when nothing is left to show. */
    method PopNotify(capacity: nat, locked: bool) returns (out: Option<string>)
      requires Valid()
      modifies this`head, this`count, q
      ensures Valid() && View() == Next(old(View()), Pop, locked && capacity >= 2)
      ensures out.Some? <==> locked && capacity >= 2 && Shown(old(View())) != []
      ensures out.Some? ==> out.value == Clip(Shown(old(View()))[0].text, capacity)
    {
      if capacity < 2 || !locked {
        return None;
      }
      while count > 0
        invariant Valid() && active == old(active) && seen == old(seen)
        invariant Current(Entries(q[..], head, count), active) == Current(old(View()).queue, active)
        decreases count
      {
        var slot := q[head];
        assert slot == Entries(q[..], head, count)[0];
        DropHead();
        if !Stale(slot, active) {
          return Some(Clip(slot.text, capacity));
        }
      }
      return None;
    }
  }

  function Clip(text: string, capacity: nat): string
    requires capacity >= 1
  {
    if |text| <= capacity - 1 then text else text[..capacity - 1]
  }

  // -------------------------------------------------------------------- whole runs

  datatype Event = Event(call: Call, locked: bool)

  /** The notice an event puts in the queue. */
  function Adds(b: Board, e: Event): (r: seq<Notice>)
    ensures |r| <= 1
  {
    if !e.locked then []
    else if e.call.Notify? then
      if e.call.text == "" || Duplicate(b.queue, 0, 0, e.call.text) then [] else [Notice(Cut(e.call.text), 0, 0)]
    else if e.call.NotifyPhone? then
      if Asks(b, e.call.id, e.call.kind, e.call.text)
         && Accepts(Withdrawn(b, e.call.id, e.call.kind), e.call.id, e.call.kind, e.call.text)
      then [Notice(Cut(e.call.text), e.call.id, e.call.kind)]
      else []
    else []
  }

  function Shows(b: Board, e: Event): seq<Notice> {
    if e.locked && e.call == Pop then Shown(b) else []
  }

  /** The board after a run, with all notices ever queued and all ever shown. */
  datatype Hall = Hall(board: Board, queued: seq<Notice>, shown: seq<Notice>)

  const OPENING := Hall(Board([], 0, {}), [], [])

  function After(run: seq<Event>): Hall {
    if run == [] then OPENING
    else
      var h, e := After(run[..|run| - 1]), run[|run| - 1];
      Hall(Next(h.board, e.call, e.locked), h.queued + Adds(h.board, e), h.shown + Shows(h.board, e))
  }

  // ----------------------------------------------------------- no twins, bounded

  predicate NoTwins(q: seq<Notice>) {
    forall i, j :: 0 <= i < j < |q| ==> q[i].phone == 0 || q[i].phone != q[j].phone || q[i].kind != q[j].kind
  }

  predicate Fits(q: seq<Notice>) {
    |q| <= DEPTH && NoTwins(q) && forall i :: 0 <= i < |q| ==> |q[i].text| < TEXT_MAX
  }

  lemma {:induction false} FilterMembers(q: seq<Notice>, keep: Notice -> bool)
    ensures forall n :: n in Filter(q, keep) ==> n in q && keep(n)
  {
    if q != [] {
      FilterMembers(q[1..], keep);
    }
  }

  lemma NoTwinsTail(q: seq<Notice>)
    requires q != []
    ensures NoTwins(q) <==> (NoTwins(q[1..])
      && forall n :: n in q[1..] ==> q[0].phone == 0 || q[0].phone != n.phone || q[0].kind != n.kind)
  {
    var t := q[1..];
    assert forall i :: 0 <= i < |t| ==> t[i] == q[i + 1];
    if NoTwins(t) && forall n :: n in t ==> q[0].phone == 0 || q[0].phone != n.phone || q[0].kind != n.kind {
      forall i, j | 0 <= i < j < |q| ensures q[i].phone == 0 || q[i].phone != q[j].phone || q[i].kind != q[j].kind {
        assert q[j] == t[j - 1];
        if i > 0 {
          assert q[i] == t[i - 1];
        }
      }
    }
    if NoTwins(q) {
      forall n | n in t ensures q[0].phone == 0 || q[0].phone != n.phone || q[0].kind != n.kind {
        var k :| 0 <= k < |t| && t[k] == n;
        assert q[k + 1] == n;
      }
    }
  }

  lemma {:induction false} FilterFits(q: seq<Notice>, keep: Notice -> bool)
    requires Fits(q)
    ensures Fits(Filter(q, keep))
  {
    FilterLength(q, keep);
    FilterMembers(q, keep);
    FilterNoTwins(q, keep);
    var f := Filter(q, keep);
    forall i | 0 <= i < |f| ensures |f[i].text| < TEXT_MAX {
      assert f[i] in q;
    }
  }

  lemma {:induction false} FilterNoTwins(q: seq<Notice>, keep: Notice -> bool)
    requires NoTwins(q)
    ensures NoTwins(Filter(q, keep))
  {
    hide NoTwins;
    if q != [] {
      NoTwinsTail(q);
      FilterNoTwins(q[1..], keep);
      FilterMembers(q[1..], keep);
      var f := Filter(q[1..], keep);
      if keep(q[0]) {
        assert ([q[0]] + f)[1..] == f;
        NoTwinsTail([q[0]] + f);
      } else {
        assert [] + f == f;
      }
    } else {
      NoTwinsEmpty();
    }
  }

  lemma NoTwinsEmpty()
    ensures NoTwins([])
  {
  }

  lemma PushFits(q: seq<Notice>, n: Notice)
    requires Fits(q) && |n.text| < TEXT_MAX
    requires n.phone == 0 || forall i :: 0 <= i < |q| ==> q[i].phone != n.phone || q[i].kind != n.kind
    ensures Fits(Pushed(q, n))
  {
  }

  lemma {:induction false} CurrentFits(q: seq<Notice>, active: nat)
    requires Fits(q)
    ensures Fits(Current(q, active))
    decreases |q|
  {
    if q != [] && Stale(q[0], active) {
      CurrentFits(q[1..], active);
    }
  }

  lemma NextFits(b: Board, e: Event)
    requires Fits(b.queue)
    ensures Fits(Next(b, e.call, e.locked).queue)
  {
    hide Fits, Filter, Current;
    match e.call {
      case Notify(text) => if text != "" && !Duplicate(b.queue, 0, 0, text) {
          PushFits(b.queue, Notice(Cut(text), 0, 0));
        }
      case Begin(id) => FilterFits(b.queue, NotOf(b.active));
      case End(id) => FilterFits(b.queue, NotOf(id));
      case ResetProgress(id) => FilterFits(b.queue, NotProgressOf(id));
      case NotifyPhone(id, kind, text) =>
        FilterFits(b.queue, NotFailureOf(id));
        var w := Withdrawn(b, id, kind);
        if Asks(b, id, kind, text) && Accepts(w, id, kind, text) {
          assert forall i :: 0 <= i < |w.queue| ==> !Repeats(w.queue[i], id, kind, text);
          PushFits(w.queue, Notice(Cut(text), id, kind));
        }
      case Pop =>
        CurrentFits(b.queue, b.active);
        TailFits(Current(b.queue, b.active));
    }
  }

  lemma TailFits(q: seq<Notice>)
    requires Fits(q)
    ensures q != [] ==> Fits(q[1..])
    ensures Fits([])
  {
  }

  /** At most 16 notices wait, no two of them for the same connection and kind. */
  lemma {:induction false} QueueFits(run: seq<Event>)
    ensures Fits(After(run).board.queue)
    decreases |run|
  {
    hide Fits, Next;
    TailFitsNothing();
    if run != [] {
      QueueFits(run[..|run| - 1]);
      NextFits(After(run[..|run| - 1]).board, run[|run| - 1]);
    }
  }

  lemma TailFitsNothing()
    ensures Fits([])
  {
  }

  // ------------------------------------------------------------------- order kept

  ghost predicate Subsequence(a: seq<Notice>, b: seq<Notice>)
    decreases |b|
  {
    a == [] || (b != [] && (Subsequence(a, b[1..]) || (a[0] == b[0] && Subsequence(a[1..], b[1..]))))
  }

  lemma {:induction false} SubTransitive(a: seq<Notice>, b: seq<Notice>, c: seq<Notice>)
    requires Subsequence(a, b) && Subsequence(b, c)
    ensures Subsequence(a, c)
    decreases |c|
  {
    if a != [] {
      if Subsequence(b, c[1..]) {
        SubTransitive(a, b, c[1..]);
      } else if Subsequence(a, b[1..]) {
        SubTransitive(a, b[1..], c[1..]);
      } else {
        SubTransitive(a[1..], b[1..], c[1..]);
      }
    }
  }

  lemma {:induction false} SubSame(a: seq<Notice>)
    ensures Subsequence(a, a)
  {
    if a != [] {
      SubSame(a[1..]);
    }
  }

  lemma {:induction false} SubAppend(a: seq<Notice>, b: seq<Notice>, x: seq<Notice>)
    requires Subsequence(a, b)
    ensures Subsequence(a + x, b + x)
    decreases |b|
  {
    if a == [] {
      assert a + x == x;
      SubPrefix(x, b);
    } else {
      assert (b + x)[1..] == b[1..] + x && (a + x)[1..] == a[1..] + x;
      if Subsequence(a, b[1..]) {
        SubAppend(a, b[1..], x);
      } else {
        SubAppend(a[1..], b[1..], x);
      }
    }
  }

  lemma {:induction false} SubPrefix(x: seq<Notice>, b: seq<Notice>)
    ensures Subsequence(x, b + x)
    decreases |b|
  {
    if b == [] {
      assert b + x == x;
      SubSame(x);
    } else {
      assert (b + x)[1..] == b[1..] + x;
      SubPrefix(x, b[1..]);
    }
  }

  lemma {:induction false} SubUnder(s: seq<Notice>, a: seq<Notice>, b: seq<Notice>)
    requires Subsequence(a, b)
    ensures Subsequence(s + a, s + b)
    decreases |s|
  {
    if s == [] {
      assert s + a == a && s + b == b;
    } else {
      assert (s + a)[1..] == s[1..] + a && (s + b)[1..] == s[1..] + b;
      SubUnder(s[1..], a, b);
    }
  }

  lemma {:induction false} SubFilter(q: seq<Notice>, keep: Notice -> bool)
    ensures Subsequence(Filter(q, keep), q)
  {
    if q != [] {
      SubFilter(q[1..], keep);
      var f := Filter(q[1..], keep);
      assert [q[0]] + f == Filter(q, keep) || f == Filter(q, keep);
      assert ([q[0]] + f)[1..] == f;
    }
  }

  lemma {:induction false} SubCurrent(q: seq<Notice>, active: nat)
    ensures Subsequence(Current(q, active), q)
    decreases |q|
  {
    if q != [] && Stale(q[0], active) {
      SubCurrent(q[1..], active);
    } else {
      SubSame(q);
    }
  }

  lemma SubTail(q: seq<Notice>)
    requires q != []
    ensures Subsequence(q[1..], q)
  {
    SubSame(q[1..]);
  }

  /** One event: what is shown, then the queue, comes in order out of the queue and what the event adds. */
  lemma NextKeepsOrder(b: Board, e: Event)
    ensures Subsequence(Shows(b, e) + Next(b, e.call, e.locked).queue, b.queue + Adds(b, e))
  {
    hide Subsequence, Filter, Current;
    var q, n := b.queue, Next(b, e.call, e.locked);
    SubSame(q);
    assert q + [] == q && [] + n.queue == n.queue;
    match e.call {
      case Notify(text) => PushKeepsOrder(q, q, Notice(Cut(text), 0, 0));
      case Begin(id) => SubFilter(q, NotOf(b.active));
      case End(id) => SubFilter(q, NotOf(id));
      case ResetProgress(id) => SubFilter(q, NotProgressOf(id));
      case NotifyPhone(id, kind, text) =>
        SubFilter(q, NotFailureOf(id));
        PushKeepsOrder(Withdrawn(b, id, kind).queue, q, Notice(Cut(text), id, kind));
      case Pop =>
        SubCurrent(q, b.active);
        var c := Current(q, b.active);
        if c != [] {
          assert [c[0]] + c[1..] == c;
        }
    }
  }

  lemma PushKeepsOrder(w: seq<Notice>, q: seq<Notice>, n: Notice)
    requires Subsequence(w, q)
    ensures Subsequence(Pushed(w, n), q + [n])
  {
    hide Subsequence;
    if |w| == DEPTH {
      SubTail(w);
      SubTransitive(w[1..], w, q);
      SubAppend(w[1..], q, [n]);
    } else {
      SubAppend(w, q, [n]);
    }
  }

  /** Notices are shown in the order they were queued, and those that wait come after those shown. */
  lemma {:induction false} ShownInOrder(run: seq<Event>)
    ensures Subsequence(After(run).shown + After(run).board.queue, After(run).queued)
    decreases |run|
  {
    hide Subsequence, Next, Adds, Shows;
    if run == [] {
      SubSame([]);
      assert OPENING.shown + OPENING.board.queue == [];
    } else {
      var h, e := After(run[..|run| - 1]), run[|run| - 1];
      var q, adds, shows := h.board.queue, Adds(h.board, e), Shows(h.board, e);
      var n := Next(h.board, e.call, e.locked).queue;
      ShownInOrder(run[..|run| - 1]);
      NextKeepsOrder(h.board, e);
      SubUnder(h.shown, shows + n, q + adds);
      SubAppend(h.shown + q, h.queued, adds);
      assert h.shown + (shows + n) == h.shown + shows + n && h.shown + (q + adds) == h.shown + q + adds;
      SubTransitive(h.shown + shows + n, h.shown + q + adds, h.queued + adds);
    }
  }

  /** A phone notice that is shown belongs to the connection active at that moment. */
  lemma {:induction false} ShownIsCurrent(b: Board)
    ensures forall n :: n in Shown(b) ==> n.phone == 0 || n.phone == b.active
    decreases |b.queue|
  {
    if b.queue != [] && Stale(b.queue[0], b.active) {
      ShownIsCurrent(b.(queue := b.queue[1..]));
    }
  }

  // --------------------------------------------------------- once per connection

  function LastBegun(run: seq<Event>): nat {
    if run == [] then 0
    else
      var c := run[|run| - 1].call;
      if c.Begin? && c.id != 0 then c.id else LastBegun(run[..|run| - 1])
  }

  /** Connection ids rise, as those of the tether driver do. */
  predicate Rising(run: seq<Event>) {
    run == []
    || (var before, c := run[..|run| - 1], run[|run| - 1].call;
        Rising(before) && (c.Begin? && c.id != 0 ==> c.id > LastBegun(before)))
  }

  function Times(q: seq<Notice>, id: nat, kind: nat): nat {
    if q == [] then 0
    else Times(q[..|q| - 1], id, kind) + (if q[|q| - 1].phone == id && q[|q| - 1].kind == kind then 1 else 0)
  }

  lemma TimesSnoc(q: seq<Notice>, n: Notice, id: nat, kind: nat)
    ensures Times(q + [n], id, kind) == Times(q, id, kind) + if n.phone == id && n.kind == kind then 1 else 0
  {
    assert (q + [n])[..|q|] == q;
  }

  /**
   A connection gets each of the lasting notices (detected, licence found, no licence)
   at most once, however often it is asked for and whatever was shown or dropped.
   */
  lemma {:induction false} OncePerConnection(run: seq<Event>, id: nat, kind: nat)
    requires Rising(run) && id != 0 && kind !in PROGRESS
    ensures var h := After(run);
      && (h.board.active != 0 ==> h.board.active == LastBegun(run))
      && (id > LastBegun(run) ==> Times(h.queued, id, kind) == 0)
      && (h.board.active == id && Times(h.queued, id, kind) > 0 ==> kind in h.board.seen)
      && Times(h.queued, id, kind) <= 1
    decreases |run|
  {
    hide Filter, Current, Duplicate, Times;
    if run == [] {
      TimesNothing(id, kind);
    } else {
      var h, e := After(run[..|run| - 1]), run[|run| - 1];
      OncePerConnection(run[..|run| - 1], id, kind);
      SeenStep(h.board, e, id, kind);
      var adds := Adds(h.board, e);
      if adds == [] {
        assert h.queued + adds == h.queued;
      } else {
        assert adds == [adds[0]];
        TimesSnoc(h.queued, adds[0], id, kind);
      }
    }
  }

  lemma TimesNothing(id: nat, kind: nat)
    ensures Times([], id, kind) == 0
  {
  }

  lemma SeenStep(b: Board, e: Event, id: nat, kind: nat)
    requires id != 0 && kind !in PROGRESS
    ensures var adds, n := Adds(b, e), Next(b, e.call, e.locked);
      && (adds != [] && adds[0].phone == id && adds[0].kind == kind ==>
            b.active == id && kind !in b.seen && n.active == id && kind in n.seen)
      && (n.active == id && b.active == id && kind in b.seen && !e.call.Begin? ==> kind in n.seen)
      && (n.active != 0 && n.active != b.active ==> e.call.Begin? && e.call.id == n.active)
  {
    hide Filter, Current, Duplicate;
  }

  // ------------------------------------------------------------- what waits is shown

  /** What a number of pops show, one after the other. */
  function ShownBy(b: Board, pops: nat): seq<Notice>
    decreases pops
  {
    if pops == 0 then [] else Shown(b) + ShownBy(AfterPop(b), pops - 1)
  }

  function Live(active: nat): Notice -> bool {
    (n: Notice) => !Stale(n, active)
  }

  lemma {:induction false} CurrentLive(q: seq<Notice>, active: nat)
    ensures |Current(q, active)| <= |q| && Filter(Current(q, active), Live(active)) == Filter(q, Live(active))
    ensures Current(q, active) != [] ==> !Stale(Current(q, active)[0], active)
  {
    if q != [] && Stale(q[0], active) {
      CurrentLive(q[1..], active);
    }
  }

  /** Popped as often as notices wait, the queue shows all that are not stale, in order, and is empty. */
  lemma {:induction false} AllShown(b: Board, pops: nat)
    requires |b.queue| <= pops
    ensures ShownBy(b, pops) == Filter(b.queue, Live(b.active))
    decreases pops
  {
    if pops > 0 {
      CurrentLive(b.queue, b.active);
      AllShown(AfterPop(b), pops - 1);
    }
  }

  /** A notice that finds the lock free, and is not a repetition, is shown in its turn, after what waited before. */
  lemma NoticeShown(b: Board, text: string)
    requires |b.queue| < DEPTH && text != "" && !Duplicate(b.queue, 0, 0, text)
    ensures var c := Next(b, Notify(text), true);
      ShownBy(c, DEPTH) == Filter(b.queue, Live(b.active)) + [Notice(Cut(text), 0, 0)]
  {
    hide Filter, ShownBy, Duplicate;
    var n := Notice(Cut(text), 0, 0);
    AllShown(Next(b, Notify(text), true), DEPTH);
    FilterSnoc(b.queue, n, Live(b.active));
  }

  lemma NothingFiltered(keep: Notice -> bool)
    ensures Filter([], keep) == []
  {
  }

  /** So is a phone notice of the active connection that is new to it, and a working notice withdraws the failure. */
  lemma PhoneNoticeShown(b: Board, kind: nat, text: string)
    requires |b.queue| < DEPTH && text != "" && 1 <= kind <= RECONNECTING && b.active != 0 && kind !in b.seen
    requires !Duplicate(if kind == WORKING then Filter(b.queue, NotFailureOf(b.active)) else b.queue, b.active, kind, text)
    ensures var c := Next(b, NotifyPhone(b.active, kind, text), true);
            var waiting := if kind == WORKING then Filter(b.queue, NotFailureOf(b.active)) else b.queue;
      ShownBy(c, DEPTH) == Filter(waiting, Live(b.active)) + [Notice(Cut(text), b.active, kind)] && kind in c.seen
  {
    hide ShownBy, Duplicate, Filter;
    var n := Notice(Cut(text), b.active, kind);
    NothingFiltered(NotFailureOf(b.active));
    var waiting := if kind == WORKING then Filter(b.queue, NotFailureOf(b.active)) else b.queue;
    FilterLength(b.queue, NotFailureOf(b.active));
    AllShown(Next(b, NotifyPhone(b.active, kind, text), true), DEPTH);
    FilterSnoc(waiting, n, Live(b.active));
  }

  lemma {:induction false} FilterAll(q: seq<Notice>, keep: Notice -> bool)
    ensures forall i :: 0 <= i < |Filter(q, keep)| ==> keep(Filter(q, keep)[i])
  {
    if q != [] {
      FilterAll(q[1..], keep);
    }
  }

  /** A connection that begins starts afresh: nothing of the one before is shown, and every kind of notice may come. */
  lemma BeginsAfresh(b: Board, id: nat, kind: nat, text: string)
    requires id != 0 && id != b.active && |b.queue| < DEPTH && text != "" && 1 <= kind <= RECONNECTING
    requires !Duplicate(b.queue, id, kind, text) && forall i :: 0 <= i < |b.queue| ==> b.queue[i].phone != id
    ensures var c := Next(b, Begin(id), true);
      && (forall i :: 0 <= i < |c.queue| ==> b.active == 0 || c.queue[i].phone != b.active)
      && ShownBy(Next(c, NotifyPhone(id, kind, text), true), DEPTH)
         == Filter(c.queue, Live(id)) + [Notice(Cut(text), id, kind)]
  {
    hide ShownBy, Filter, Cut;
    var c := Next(b, Begin(id), true);
    if b.active != 0 {
      FilterAll(b.queue, NotOf(b.active));
      FilterLength(b.queue, NotOf(b.active));
      FilterFrom(b.queue, NotOf(b.active));
    }
    FilterSame(c.queue, NotFailureOf(id));
    PhoneNoticeShown(c, kind, text);
  }

  lemma {:induction false} FilterFrom(q: seq<Notice>, keep: Notice -> bool)
    ensures forall i :: 0 <= i < |Filter(q, keep)| ==> Filter(q, keep)[i] in q
  {
    if q != [] {
      FilterFrom(q[1..], keep);
    }
  }

  lemma {:induction false} FilterSame(q: seq<Notice>, keep: Notice -> bool)
    requires forall i :: 0 <= i < |q| ==> keep(q[i])
    ensures Filter(q, keep) == q
  {
    if q != [] {
      FilterSame(q[1..], keep);
    }
  }

  /** After a reset of the progress the connection may be told again that its data are checked, work, do not work, are
      complete, or are connected anew. */
  lemma ProgressAgain(b: Board, kind: nat, text: string)
    requires b.active != 0 && kind in {2, 3, 4, 7, 8} && text != "" && |b.queue| < DEPTH
    requires !Duplicate(Filter(b.queue, NotProgressOf(b.active)), b.active, kind, text)
    ensures var c := Next(b, ResetProgress(b.active), true);
      ShownBy(Next(c, NotifyPhone(b.active, kind, text), true), DEPTH)
        == Filter(c.queue, Live(b.active)) + [Notice(Cut(text), b.active, kind)]
  {
    hide ShownBy, Filter, Cut, Duplicate;
    var c := Next(b, ResetProgress(b.active), true);
    FilterAll(b.queue, NotProgressOf(b.active));
    FilterLength(b.queue, NotProgressOf(b.active));
    FilterSame(c.queue, NotFailureOf(b.active));
    PhoneNoticeShown(c, kind, text);
  }
}
