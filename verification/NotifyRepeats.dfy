/**
 Which notices come again (src/diag.cpp). A short text never waits twice, a text that
 was cut may. A connection is told of its progress again after a reset, and of a
 failure after a working notice only if something was waiting at that moment.
 */
module NotifyRepeats {
  import opened NotifyRing

  // ----------------------------------------------------------------------- texts

  /** No two notices wait with the same text, unless it fills its slot; none is empty. */
  predicate Apart(q: seq<Notice>) {
    q == [] || (q[0].text != "" && Apart(q[1..])
                && forall n :: n in q[1..] ==> n.text != q[0].text || |n.text| == 159)
  }

  lemma {:induction false} SubMembers(a: seq<Notice>, b: seq<Notice>)
    requires Subsequence(a, b)
    ensures forall n :: n in a ==> n in b
    decreases |b|
  {
    if a != [] {
      assert a == [a[0]] + a[1..];
      if Subsequence(a, b[1..]) {
        SubMembers(a, b[1..]);
      } else {
        SubMembers(a[1..], b[1..]);
      }
    }
  }

  lemma {:induction false} SubApart(a: seq<Notice>, b: seq<Notice>)
    requires Subsequence(a, b) && Apart(b)
    ensures Apart(a)
    decreases |b|
  {
    if a != [] {
      if Subsequence(a, b[1..]) {
        SubApart(a, b[1..]);
      } else {
        SubApart(a[1..], b[1..]);
        SubMembers(a[1..], b[1..]);
      }
    }
  }

  lemma {:induction false} SnocApart(q: seq<Notice>, n: Notice)
    requires Apart(q) && n.text != "" && forall m :: m in q ==> m.text != n.text || |n.text| == 159
    ensures Apart(q + [n])
  {
    if q != [] {
      assert (q + [n])[1..] == q[1..] + [n];
      SnocApart(q[1..], n);
    } else {
      assert [n][1..] == [] && q + [n] == [n];
    }
  }

  lemma PushApart(q: seq<Notice>, phone: nat, kind: nat, text: string)
    requires Apart(q) && text != "" && !Duplicate(q, phone, kind, text)
    ensures Apart(Pushed(q, Notice(Cut(text), phone, kind)))
  {
    hide Apart;
    var n := Notice(Cut(text), phone, kind);
    forall m | m in q ensures m.text != n.text || |n.text| == 159 {
      var i :| 0 <= i < |q| && q[i] == m;
      assert !Repeats(q[i], phone, kind, text);
    }
    SnocApart(q, n);
    if |q| == DEPTH {
      SubTail(q + [n]);
      assert (q + [n])[1..] == q[1..] + [n];
      SubApart(q[1..] + [n], q + [n]);
    }
  }

  lemma FilterApart(q: seq<Notice>, keep: Notice -> bool)
    requires Apart(q)
    ensures Apart(Filter(q, keep))
  {
    hide Apart, Filter;
    SubFilter(q, keep);
    SubApart(Filter(q, keep), q);
  }

  lemma PopApart(b: Board)
    requires Apart(b.queue)
    ensures Apart(AfterPop(b).queue)
  {
    hide Apart, Current;
    var c := Current(b.queue, b.active);
    SubCurrent(b.queue, b.active);
    SubApart(c, b.queue);
    NothingApart();
    if c != [] {
      SubTail(c);
      SubApart(c[1..], c);
    }
  }

  lemma NothingApart()
    ensures Apart([])
  {
  }

  lemma NextApart(b: Board, e: Event)
    requires Apart(b.queue)
    ensures Apart(Next(b, e.call, e.locked).queue)
  {
    hide Apart, Filter, Current, Duplicate, Pushed, AfterPop;
    match e.call {
      case Notify(text) => if text != "" && !Duplicate(b.queue, 0, 0, text) {
          PushApart(b.queue, 0, 0, text);
        }
      case Begin(id) => FilterApart(b.queue, NotOf(b.active));
      case End(id) => FilterApart(b.queue, NotOf(id));
      case ResetProgress(id) => FilterApart(b.queue, NotProgressOf(id));
      case NotifyPhone(id, kind, text) =>
        FilterApart(b.queue, NotFailureOf(id));
        var w := Withdrawn(b, id, kind);
        if Asks(b, id, kind, text) && Accepts(w, id, kind, text) {
          PushApart(w.queue, id, kind, text);
        }
      case Pop => PopApart(b);
    }
  }

  /** In every run no text of fewer than 159 characters waits twice. */
  lemma {:induction false} ShortTextsApart(run: seq<Event>)
    ensures Apart(After(run).board.queue)
    decreases |run|
  {
    hide Apart, Next, Adds, Shows;
    NothingApart();
    if run != [] {
      ShortTextsApart(run[..|run| - 1]);
      NextApart(After(run[..|run| - 1]).board, run[|run| - 1]);
    }
  }

  /**
   Asked for at once again, a notice is queued a second time exactly when its text is
   longer than a slot: what is compared is the text asked for with the text cut.
   */
  lemma RepeatedIff(b: Board, text: string)
    requires |b.queue| + 1 < DEPTH && text != "" && !Duplicate(b.queue, 0, 0, text)
    ensures var c := Next(b, Notify(text), true);
      && c.queue == b.queue + [Notice(if |text| < 160 then text else text[..159], 0, 0)]
      && (Next(c, Notify(text), true) == c <==> |text| < 160)
      && (|text| >= 160 ==> Next(c, Notify(text), true).queue == c.queue + [Notice(text[..159], 0, 0)])
  {
    var c := Next(b, Notify(text), true);
    assert Repeats(c.queue[|b.queue|], 0, 0, text) <==> |text| < 160;
    forall i | 0 <= i < |b.queue| ensures !Repeats(c.queue[i], 0, 0, text) {
      assert !Repeats(b.queue[i], 0, 0, text);
    }
  }

  // -------------------------------------------------------------------- failures

  /** A connection that has been told of a failure, told that it works, and of a failure again. */
  function Failing(b: Board, working: string, failing: string): Board {
    Next(Next(b, NotifyPhone(b.active, 3, working), true), NotifyPhone(b.active, 4, failing), true)
  }

  /**
   The working notice makes the connection forget its failure exactly when anything is
   waiting; so a later failure is announced exactly then.
   */
  lemma FailureAgainIff(b: Board, working: string, failing: string)
    requires b.active != 0 && working != "" && failing != "" && |b.queue| + 2 <= DEPTH && 4 in b.seen
    requires !Duplicate(Next(b, NotifyPhone(b.active, 3, working), true).queue, b.active, 4, failing)
    ensures var c := Next(b, NotifyPhone(b.active, 3, working), true);
      Failing(b, working, failing).queue ==
        if b.queue == [] then c.queue
        else c.queue + [Notice(if |failing| < 160 then failing else failing[..159], b.active, 4)]
  {
    hide Filter, Duplicate;
    NothingFiltered(NotFailureOf(b.active));
    FilterLength(b.queue, NotFailureOf(b.active));
  }

  lemma OneMore(run: seq<Event>, c: Call)
    ensures var h, e := After(run), Event(c, true);
      After(run + [e]) == Hall(Next(h.board, c, true), h.queued + Adds(h.board, e), h.shown + Shows(h.board, e))
  {
    hide Next, Adds, Shows;
    assert (run + [Event(c, true)])[..|run|] == run;
  }

  lemma ShowsOne(b: Board, n: Notice)
    requires b.queue == [n] && (n.phone == 0 || n.phone == b.active)
    ensures Shown(b) == [n] && AfterPop(b) == b.(queue := [])
  {
  }

  lemma QueuesOne(b: Board, kind: nat, text: string)
    requires b.active != 0 && b.queue == [] && text != "" && 1 <= kind <= 8
    ensures Next(b, NotifyPhone(b.active, kind, text), true) ==
      if kind in b.seen then b else b.(queue := [Notice(Cut(text), b.active, kind)], seen := b.seen + {kind})
  {
  }

  /** Where a connection has been told of a failure, of success, and of a failure again, each shown before the next. */
  function Told(id: nat, first: string, working: string, second: string): seq<Event> {
    [] + [Event(Begin(id), true)] + [Event(NotifyPhone(id, 4, first), true)] + [Event(Pop, true)]
    + [Event(NotifyPhone(id, 3, working), true)] + [Event(Pop, true)] + [Event(NotifyPhone(id, 4, second), true)]
  }

  /** From the start on: once its failure has been shown, a connection is not told of the next one. */
  lemma LaterFailureUntold(id: nat, first: string, working: string, second: string)
    requires id != 0 && first != "" && working != "" && second != ""
    ensures var h := After(Told(id, first, working, second));
      && h.shown == [Notice(Cut(first), id, 4), Notice(Cut(working), id, 3)]
      && h.board == Board([], id, {3, 4}) && Next(h.board, NotifyPhone(id, 4, second), true) == h.board
  {
    hide After, Next, Cut, Shown, AfterPop;
    var r0, r1 := [], [] + [Event(Begin(id), true)];
    var r2 := r1 + [Event(NotifyPhone(id, 4, first), true)];
    var r3 := r2 + [Event(Pop, true)];
    var r4 := r3 + [Event(NotifyPhone(id, 3, working), true)];
    OneMore(r0, Begin(id));
    OneMore(r1, NotifyPhone(id, 4, first));
    OneMore(r2, Pop);
    OneMore(r3, NotifyPhone(id, 3, working));
    OneMore(r4, Pop);
    OneMore(r4 + [Event(Pop, true)], NotifyPhone(id, 4, second));
    Opens(id);
    QueuesOne(Board([], id, {}), 4, first);
    ShowsOne(Board([Notice(Cut(first), id, 4)], id, {4}), Notice(Cut(first), id, 4));
    QueuesOne(Board([], id, {4}), 3, working);
    ShowsOne(Board([Notice(Cut(working), id, 3)], id, {3, 4}), Notice(Cut(working), id, 3));
    QueuesOne(Board([], id, {3, 4}), 4, second);
    Pops(After(r2).board);
    Pops(After(r4).board);
    assert {} + {4} == {4} && {4} + {3} == {3, 4};
  }

  lemma Opens(id: nat)
    requires id != 0
    ensures After([]) == OPENING && Next(Board([], 0, {}), Begin(id), true) == Board([], id, {})
  {
  }

  lemma Pops(b: Board)
    ensures Next(b, Pop, true) == AfterPop(b) && Shows(b, Event(Pop, true)) == Shown(b)
  {
  }
}
