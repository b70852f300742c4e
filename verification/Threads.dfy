/**
 Counting the threads of an interleaved system that stand in a given set of
 program points.
 */
module Threads {

  function Count<P>(pcs: seq<P>, at: P -> bool): nat {
    if pcs == [] then 0 else (if at(pcs[0]) then 1 else 0) + Count(pcs[1..], at)
  }

  lemma {:induction false} CountUpdate<P>(pcs: seq<P>, t: nat, p: P, at: P -> bool)
    requires t < |pcs|
    ensures Count(pcs[t := p], at) + (if at(pcs[t]) then 1 else 0) == Count(pcs, at) + if at(p) then 1 else 0
  {
    if t == 0 {
      assert pcs[0 := p][1..] == pcs[1..];
    } else {
      assert pcs[t := p][1..] == pcs[1..][t - 1 := p];
      CountUpdate(pcs[1..], t - 1, p, at);
    }
  }

  lemma {:induction false} CountSpawn<P>(pcs: seq<P>, p: P, at: P -> bool)
    ensures Count(pcs + [p], at) == Count(pcs, at) + if at(p) then 1 else 0
  {
    if pcs == [] {
      assert Count([p], at) == if at(p) then 1 else 0;
    } else {
      assert (pcs + [p])[1..] == pcs[1..] + [p];
      CountSpawn(pcs[1..], p, at);
    }
  }

  lemma {:induction false} CountSome<P>(pcs: seq<P>, at: P -> bool)
    ensures Count(pcs, at) > 0 <==> exists t :: 0 <= t < |pcs| && at(pcs[t])
  {
    if pcs != [] {
      CountSome(pcs[1..], at);
      if exists t :: 0 <= t < |pcs| && at(pcs[t]) {
        var t :| 0 <= t < |pcs| && at(pcs[t]);
        assert t > 0 ==> at(pcs[1..][t - 1]);
      }
      if Count(pcs[1..], at) > 0 {
        var t :| 0 <= t < |pcs[1..]| && at(pcs[1..][t]);
        assert at(pcs[t + 1]);
      }
    }
  }

  /** Two threads at counted points make the count at least two. */
  lemma {:induction false} CountTwo<P>(pcs: seq<P>, t: nat, u: nat, at: P -> bool)
    requires t < u < |pcs| && at(pcs[t]) && at(pcs[u])
    ensures Count(pcs, at) >= 2
  {
    if t == 0 {
      CountSome(pcs[1..], at);
      assert at(pcs[1..][u - 1]);
    } else {
      CountTwo(pcs[1..], t - 1, u - 1, at);
    }
  }

  lemma {:induction false} CountWithin<P(!new)>(pcs: seq<P>, at: P -> bool, within: P -> bool)
    requires forall p :: at(p) ==> within(p)
    ensures Count(pcs, at) <= Count(pcs, within)
  {
    if pcs != [] {
      CountWithin(pcs[1..], at, within);
    }
  }
}
