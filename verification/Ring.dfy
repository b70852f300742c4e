/**
 The head/tail/count ring that the stream receiver, the transmit queues and the
 notification queue all use, seen as the sequence of its entries.
 */
module Ring {

  /** The slot `i` places after `head` in a ring of `n` slots. */
  function Slot(n: nat, head: nat, i: nat): (r: nat)
    requires head < n && i <= n
    ensures r < n
  {
    if head + i < n then head + i else head + i - n
  }

  predicate RingOk(n: nat, head: nat, tail: nat, count: nat) {
    head < n && count <= n && tail == Slot(n, head, count)
  }

  function Entries<T>(a: seq<T>, head: nat, count: nat): (r: seq<T>)
    requires head < |a| && count <= |a|
    ensures |r| == count
  {
    seq(count, i requires 0 <= i < count => a[Slot(|a|, head, i)])
  }

  /** Stepping an index as the code does. */
  lemma Step(n: nat, i: nat)
    requires i < n
    ensures (i + 1) % n == Slot(n, i, 1)
  {
  }

  /** Writing at the tail appends. */
  lemma PushEntry<T>(a: seq<T>, head: nat, tail: nat, count: nat, x: T)
    requires RingOk(|a|, head, tail, count) && count < |a|
    ensures RingOk(|a|, head, (tail + 1) % |a|, count + 1)
    ensures Entries(a[tail := x], head, count + 1) == Entries(a, head, count) + [x]
  {
    Step(|a|, tail);
  }

  /** Stepping the head drops the first entry, whatever is then stored in its slot. */
  lemma PopEntry<T>(a: seq<T>, head: nat, tail: nat, count: nat, y: T)
    requires RingOk(|a|, head, tail, count) && count > 0
    ensures RingOk(|a|, (head + 1) % |a|, tail, count - 1)
    ensures Entries(a, head, count)[0] == a[head]
    ensures Entries(a[head := y], (head + 1) % |a|, count - 1) == Entries(a, head, count)[1..]
    ensures Entries(a, (head + 1) % |a|, count - 1) == Entries(a, head, count)[1..]
  {
    Step(|a|, head);
    assert Entries(a, head, count) == [a[head]] + Entries(a, (head + 1) % |a|, count - 1);
    assert Entries(a[head := y], (head + 1) % |a|, count - 1) == Entries(a, (head + 1) % |a|, count - 1);
  }
}
