/**
 Reassembly of length-prefixed plists in the probe's stream buffer
 (src/usbmux_probe.cpp, ConsumeLockdownPayload): received bytes are appended,
 complete bodies are handed on with a NUL stored behind them, and the remainder
 is moved to the front. `Deframe` says what one call does to the buffer's bytes.
 */
module LockdownStream {
  import opened Bytes

  const APP_MAX := 32768
  const BODY_MAX := 32764

  datatype Deframed = Deframed(bodies: seq<Bytes>, rest: Bytes, ok: bool)

  predicate LegalLength(n: int) {
    0 < n <= BODY_MAX
  }

  /** What is left behind a body once the NUL has been stored there. */
  function Clobbered(s: Bytes): (r: Bytes)
    ensures |r| == |s|
  {
    if s == [] then [] else [0] + s[1..]
  }

  /** The delivery loop on the buffered bytes. */
  function Deframe(s: Bytes): Deframed
    decreases |s|
  {
    if |s| < 4 then Deframed([], s, true)
    else if !LegalLength(Read32(s, 0)) then Deframed([], s, false)
    else
      var end := 4 + Read32(s, 0);
      if |s| < end then Deframed([], s, true)
      else
        var d := Deframe(Clobbered(s[end..]));
        Deframed([s[4..end]] + d.bodies, d.rest, d.ok)
  }

  lemma ClobberIsStore(s: Bytes, o: nat)
    requires o <= |s|
    ensures s[..o] + Clobbered(s[o..]) == if o < |s| then s[o := 0] else s
  {
  }

  class Stream {
    const app: array<byte>
    var length: nat
    var expected: dword
    /** The probe is failed, paired, validated or blocked and reads no more. */
    var closed: bool
    /** Bodies handed to the plist handler. */
    ghost var handled: seq<Bytes>

    ghost predicate Valid()
      reads this
    {
      app.Length == APP_MAX + 1 && length <= APP_MAX
    }

    ghost function Buffered(): Bytes
      reads this, app
      requires Valid()
    {
      app[..length]
    }

    constructor ()
      ensures Valid() && Buffered() == [] && !closed && handled == []
    {
      app := new byte[APP_MAX + 1](_ => 0);
      length, expected, closed := 0, 0, false;
      handled := [];
    }

    /** The plist handler: it sees the body, NUL-terminated, and may end the conversation. */
    method HandleCompleteLockdownPlist(n: nat)
      requires Valid() && 4 + n <= APP_MAX && app[4 + n] == 0
      modifies this`handled, this`closed
      ensures handled == old(handled) + [app[4..4 + n]] && (old(closed) ==> closed)
    {
      handled := handled + [app[4..4 + n]];
      var ends: bool := *;
      closed := closed || ends;
    }

    /** Appends a payload; false when it does not fit. */
    method Append(p: Bytes) returns (ok: bool)
      requires Valid()
      modifies this`length, app
      ensures Valid() && ok == (|old(Buffered())| + |p| <= APP_MAX)
      ensures Buffered() == if ok then old(Buffered()) + p else old(Buffered())
    {
      if length + |p| > APP_MAX {
        return false;
      }
      forall i | 0 <= i < |p| {
        app[length + i] := p[i];
      }
      length := length + |p|;
      return true;
    }

    /** Stores the NUL and hands the first body on. */
    method Deliver(n: nat)
      requires Valid() && 4 + n <= length
      modifies this`handled, this`closed, app
      ensures Valid() && handled == old(handled) + [old(Buffered())[4..4 + n]] && (old(closed) ==> closed)
      ensures Buffered() == old(Buffered())[..4 + n] + Clobbered(old(Buffered())[4 + n..])
    {
      ghost var was := app[..length];
      app[4 + n] := 0;
      assert app[4..4 + n] == was[4..4 + n];
      HandleCompleteLockdownPlist(n);
      ClobberIsStore(was, 4 + n);
    }

    method DropFront(n: nat)
      requires Valid() && n <= length
      modifies this`length, app
      ensures Valid() && Buffered() == old(Buffered())[n..]
    {
      var remain := length - n;
      forall i | 0 <= i < remain {
        app[i] := app[n + i];
      }
      length := remain;
    }

    /** One round of the delivery loop; `more` when another may follow. */
    method Round() returns (more: bool)
      requires Valid() && !closed
      modifies this`length, this`expected, this`closed, this`handled, app
      ensures Valid()
      ensures var s := old(Buffered());
              if !HasBody(s)
              then !more && handled == old(handled) && Buffered() == s && closed == (|s| >= 4 && !LegalLength(Read32(s, 0)))
              else handled == old(handled) + [FirstBody(s)] && more == !closed && (more ==> Buffered() == AfterFirst(s))
    {
      hide Clobbered, Read32;
      ghost var s := Buffered();
      if length < 4 {
        return false;
      }
      expected := Read32(app[..length], 0);
      if expected == 0 || expected > APP_MAX - 4 {
        closed := true;
        return false;
      }
      if length < 4 + expected {
        return false;
      }
      Deliver(expected);
      if closed {
        length, expected := 0, 0;
        return false;
      }
      DropFront(4 + expected);
      assert Buffered() == AfterFirst(s);
      expected := 0;
      return true;
    }

    method ConsumeLockdownPayload(p: Bytes)
      requires Valid()
      modifies this`length, this`expected, this`closed, this`handled, app
      ensures Valid()
      ensures old(closed) || p == [] ==> Buffered() == old(Buffered()) && handled == old(handled) && closed == old(closed)
      ensures !old(closed) && p != [] && |old(Buffered())| + |p| > APP_MAX ==> closed && handled == old(handled)
      ensures !old(closed) && p != [] && |old(Buffered())| + |p| <= APP_MAX ==>
        old(handled) <= handled <= old(handled) + Deframe(old(Buffered()) + p).bodies &&
        (!closed ==> Deframed(handled[|old(handled)|..], Buffered(), true) == Deframe(old(Buffered()) + p))
    {
      hide Deframe, FirstBody, AfterFirst;
      if |p| == 0 || closed {
        return;
      }
      var fits := Append(p);
      if !fits {
        closed := true;
        return;
      }
      ghost var all, before := Deframe(Buffered()), handled;
      ghost var done: seq<Bytes> := [];
      var more := true;
      while more
        invariant Valid() && handled == before + done
        invariant more ==> !closed && all == Prepend(done, Deframe(Buffered()))
        invariant !more ==> done <= all.bodies && (!closed ==> all == Deframed(done, Buffered(), true))
        decreases more, length
      {
        ghost var s := Buffered();
        DeframeStep(s);
        more := Round();
        if HasBody(s) {
          PrependStep(done, FirstBody(s), Deframe(AfterFirst(s)));
          done := done + [FirstBody(s)];
        }
      }
      assert handled[|before|..] == done;
    }
  }

  // ------------------------------------------------------------- one step of it

  predicate HasBody(s: Bytes) {
    |s| >= 4 && LegalLength(Read32(s, 0)) && |s| >= 4 + Read32(s, 0)
  }

  function FirstBody(s: Bytes): Bytes
    requires HasBody(s)
  {
    s[4..4 + Read32(s, 0)]
  }

  function AfterFirst(s: Bytes): (r: Bytes)
    requires HasBody(s)
    ensures |r| < |s|
  {
    Clobbered(s[4 + Read32(s, 0)..])
  }

  function Prepend(bodies: seq<Bytes>, d: Deframed): Deframed {
    Deframed(bodies + d.bodies, d.rest, d.ok)
  }

  lemma DeframeStep(s: Bytes)
    ensures HasBody(s) ==> Deframe(s) == Prepend([FirstBody(s)], Deframe(AfterFirst(s)))
    ensures !HasBody(s) ==> Deframe(s) == Deframed([], s, |s| < 4 || LegalLength(Read32(s, 0)))
  {
  }

  lemma PrependStep(a: seq<Bytes>, b: Bytes, d: Deframed)
    ensures Prepend(a, Prepend([b], d)) == Prepend(a + [b], d)
  {
    assert a + ([b] + d.bodies) == (a + [b]) + d.bodies;
  }

  // ---------------------------------------------------- streams and segments

  predicate LegalBodies(bodies: seq<Bytes>) {
    forall i :: 0 <= i < |bodies| ==> LegalLength(|bodies[i]|)
  }

  /** What the device sends for these bodies. */
  function StreamOf(bodies: seq<Bytes>): Bytes
    requires LegalBodies(bodies)
  {
    if bodies == [] then [] else Be32(|bodies[0]|) + bodies[0] + StreamOf(bodies[1..])
  }

  function Joined(segments: seq<Bytes>): Bytes {
    if segments == [] then [] else Joined(segments[..|segments| - 1]) + segments[|segments| - 1]
  }

  /** How many bodies the first `n` bytes of their stream contain completely. */
  function Complete(bodies: seq<Bytes>, n: int): (j: nat)
    ensures j <= |bodies|
  {
    if bodies == [] || n < 4 + |bodies[0]| then 0 else 1 + Complete(bodies[1..], n - (4 + |bodies[0]|))
  }

  /** The segment does not fit behind what is still buffered. */
  predicate Overflows(r: Deframed, p: Bytes) {
    r.ok && p != [] && |r.rest| + |p| > APP_MAX
  }

  /** The buffer and everything delivered so far, after one more segment; a failed probe reads no more. */
  function Extended(r: Deframed, p: Bytes): Deframed {
    if !r.ok || p == [] then r
    else if Overflows(r, p) then r.(ok := false)
    else Prepend(r.bodies, Deframe(r.rest + p))
  }

  /** The buffer after a run of segments, with everything delivered so far. */
  function Received(segments: seq<Bytes>): Deframed {
    if segments == [] then Deframed([], [], true)
    else Extended(Received(segments[..|segments| - 1]), segments[|segments| - 1])
  }

  lemma {:induction false} StreamSplit(bodies: seq<Bytes>, j: nat)
    requires LegalBodies(bodies) && j <= |bodies|
    ensures StreamOf(bodies) == StreamOf(bodies[..j]) + StreamOf(bodies[j..])
    decreases j
  {
    hide StreamOf;
    if j == 0 {
      assert bodies[0..] == bodies && bodies[..0] == [];
      NoStream();
      assert [] + StreamOf(bodies) == StreamOf(bodies);
    } else {
      var first := Be32(|bodies[0]|) + bodies[0];
      StreamSplit(bodies[1..], j - 1);
      StreamFirst(bodies);
      StreamFirst(bodies[..j]);
      assert bodies[..j][1..] == bodies[1..][..j - 1] && bodies[1..][j - 1..] == bodies[j..];
      assert first + (StreamOf(bodies[1..][..j - 1]) + StreamOf(bodies[j..]))
          == (first + StreamOf(bodies[1..][..j - 1])) + StreamOf(bodies[j..]);
    }
  }

  lemma NoStream()
    ensures StreamOf([]) == []
  {
  }

  lemma StreamFirst(bodies: seq<Bytes>)
    requires LegalBodies(bodies) && bodies != []
    ensures StreamOf(bodies) == Be32(|bodies[0]|) + bodies[0] + StreamOf(bodies[1..])
  {
    hide LegalLength;
  }

  /** Every legal length has a zero top byte, so the NUL changes nothing. */
  lemma NulHarmless(bodies: seq<Bytes>, s: Bytes)
    requires LegalBodies(bodies) && s <= StreamOf(bodies)
    ensures Clobbered(s) == s
  {
    if s != [] {
      var n: dword := |bodies[0]|;
      assert StreamOf(bodies)[0] == Be32(n)[0] == n / 0x1_0000 / 0x100 == 0;
    }
  }

  lemma FirstOfStream(bodies: seq<Bytes>, s: Bytes)
    requires LegalBodies(bodies) && bodies != [] && s <= StreamOf(bodies) && |s| >= 4
    ensures Read32(s, 0) == |bodies[0]|
    ensures |s| >= 4 + |bodies[0]| ==> s[4..4 + |bodies[0]|] == bodies[0] && s[4 + |bodies[0]|..] <= StreamOf(bodies[1..])
  {
    var h, b := Be32(|bodies[0]|), bodies[0];
    var rest := StreamOf(bodies[1..]);
    assert StreamOf(bodies) == (h + b) + rest;
    assert s[..4] == h;
    assert Read32(s, 0) == Read32(h, 0);
    if |s| >= 4 + |b| {
      assert s == StreamOf(bodies)[..|s|];
      assert s[4 + |b|..] == rest[..|s| - (4 + |b|)];
    }
  }

  /** From the front of a legal stream the loop takes exactly the complete bodies. */
  lemma {:induction false} DeframeLegal(bodies: seq<Bytes>, s: Bytes)
    requires LegalBodies(bodies) && s <= StreamOf(bodies)
    ensures var j := Complete(bodies, |s|);
            |StreamOf(bodies[..j])| <= |s| &&
            Deframe(s) == Deframed(bodies[..j], s[|StreamOf(bodies[..j])|..], true)
    decreases |bodies|
  {
    hide Deframe, StreamOf, Clobbered, Read32;
    DeframeStep(s);
    NoStream();
    if |s| < 4 {
      assert Complete(bodies, |s|) == 0 && bodies[..0] == [] && s[0..] == s;
    } else {
      FirstOfStream(bodies, s);
      if |s| >= 4 + |bodies[0]| {
        var end := 4 + |bodies[0]|;
        NulHarmless(bodies[1..], s[end..]);
        DeframeLegal(bodies[1..], s[end..]);
        var j := Complete(bodies[1..], |s| - end);
        assert bodies[..j + 1][1..] == bodies[1..][..j];
        assert bodies[..j + 1] == [bodies[0]] + bodies[1..][..j];
        StreamFirst(bodies[..j + 1]);
        assert |StreamOf(bodies[..j + 1])| == end + |StreamOf(bodies[1..][..j])|;
      } else {
        assert Complete(bodies, |s|) == 0 && bodies[..0] == [] && s[0..] == s;
      }
    }
  }

  /** What has arrived extends what is delivered by what is buffered. */
  predicate Reassembles(d: Deframed, arrived: Bytes, bodies: seq<Bytes>)
    requires LegalBodies(bodies)
  {
    var j := |d.bodies|;
    d.ok && j <= |bodies| && d.bodies == bodies[..j] && arrived == StreamOf(bodies[..j]) + d.rest &&
    (j < |bodies| ==> |d.rest| < 4 + |bodies[j]|)
  }

  lemma {:induction false} CompleteStops(bodies: seq<Bytes>, n: int)
    requires LegalBodies(bodies)
    ensures var j := Complete(bodies, n);
            j < |bodies| ==> n - |StreamOf(bodies[..j])| < 4 + |bodies[j]|
    decreases |bodies|
  {
    if bodies != [] && n >= 4 + |bodies[0]| {
      var j := Complete(bodies[1..], n - (4 + |bodies[0]|));
      CompleteStops(bodies[1..], n - (4 + |bodies[0]|));
      assert bodies[..j + 1][1..] == bodies[1..][..j];
    }
  }

  lemma SegmentReassembles(d: Deframed, arrived: Bytes, bodies: seq<Bytes>, p: Bytes)
    requires LegalBodies(bodies) && Reassembles(d, arrived, bodies) && arrived + p <= StreamOf(bodies)
    requires !Overflows(d, p)
    ensures Reassembles(Extended(d, p), arrived + p, bodies)
  {
    hide Deframe, Complete, StreamOf;
    if p == [] {
      assert arrived + p == arrived;
    } else {
      var j, later, s := |d.bodies|, bodies[|d.bodies|..], d.rest + p;
      StreamSplit(bodies, j);
      var done := StreamOf(bodies[..j]);
      assert arrived + p == done + s;
      assert s <= StreamOf(later) by {
        assert (done + s)[|done|..] == s && StreamOf(bodies)[|done|..] == StreamOf(later);
      }
      DeframeLegal(later, s);
      CompleteStops(later, |s|);
      TakenReassembles(d, arrived, bodies, p, Complete(later, |s|));
    }
  }

  lemma TakenReassembles(d: Deframed, arrived: Bytes, bodies: seq<Bytes>, p: Bytes, k: nat)
    requires LegalBodies(bodies) && Reassembles(d, arrived, bodies) && p != [] && !Overflows(d, p)
    requires k <= |bodies| - |d.bodies| && d.rest + p <= StreamOf(bodies[|d.bodies|..])
    requires var later, s := bodies[|d.bodies|..], d.rest + p;
      && |StreamOf(later[..k])| <= |s|
      && Deframe(s) == Deframed(later[..k], s[|StreamOf(later[..k])|..], true)
      && (k < |later| ==> |s| - |StreamOf(later[..k])| < 4 + |later[k]|)
    ensures Reassembles(Extended(d, p), arrived + p, bodies)
  {
    hide Deframe, StreamOf;
    var j, later, s := |d.bodies|, bodies[|d.bodies|..], d.rest + p;
    var done, taken := StreamOf(bodies[..j]), StreamOf(later[..k]);
    assert bodies[..j] + later[..k] == bodies[..j + k];
    StreamSplit(bodies[..j + k], j);
    assert bodies[..j + k][..j] == bodies[..j] && bodies[..j + k][j..] == later[..k];
    StreamSplit(later, k);
    assert s[..|taken|] == StreamOf(later)[..|taken|] == taken;
    assert s == taken + s[|taken|..];
    assert arrived + p == done + s;
    assert done + (taken + s[|taken|..]) == (done + taken) + s[|taken|..];
  }

  /** No segment ever overflows the buffer. */
  ghost predicate AlwaysFits(segments: seq<Bytes>) {
    forall k {:trigger segments[..k]} :: 0 <= k < |segments| ==> !Overflows(Received(segments[..k]), segments[k])
  }

  lemma FitsBefore(segments: seq<Bytes>)
    requires AlwaysFits(segments) && segments != []
    ensures AlwaysFits(segments[..|segments| - 1])
  {
    hide Received, Overflows;
    var init := segments[..|segments| - 1];
    assert forall k :: 0 <= k < |init| ==> init[..k] == segments[..k] && init[k] == segments[k];
  }

  /** However a legal stream is cut into segments that never overflow the buffer, after each of them exactly the
      complete bodies have been delivered, in order, and the buffer holds exactly the incomplete remainder. */
  lemma {:induction false} Reassembly(segments: seq<Bytes>, bodies: seq<Bytes>)
    requires LegalBodies(bodies) && Joined(segments) <= StreamOf(bodies) && AlwaysFits(segments)
    ensures Reassembles(Received(segments), Joined(segments), bodies)
    decreases |segments|
  {
    hide StreamOf, Deframe, Overflows, Extended;
    if segments == [] {
      assert bodies[..0] == [] && StreamOf([]) == [] by {
        StreamOfNothing();
      }
    } else {
      var init, p := segments[..|segments| - 1], segments[|segments| - 1];
      FitsBefore(segments);
      assert !Overflows(Received(init), p);
      Reassembly(init, bodies);
      SegmentReassembles(Received(init), Joined(init), bodies, p);
    }
  }

  lemma StreamOfNothing()
    ensures StreamOf([]) == []
  {
  }

  ghost predicate ReassembledThroughout(segments: seq<Bytes>, bodies: seq<Bytes>)
    requires LegalBodies(bodies)
  {
    forall k {:trigger segments[..k]} :: 0 <= k <= |segments| ==>
      Reassembles(Received(segments[..k]), Joined(segments[..k]), bodies)
  }

  /** And only then: a legal stream is reassembled at every moment exactly when no segment overflows the buffer. */
  lemma {:induction false} ReassemblyIff(segments: seq<Bytes>, bodies: seq<Bytes>)
    requires LegalBodies(bodies) && Joined(segments) <= StreamOf(bodies)
    ensures ReassembledThroughout(segments, bodies) <==> AlwaysFits(segments)
  {
    hide StreamOf, Deframe, Overflows, Extended, Received, Joined, Reassembles;
    if AlwaysFits(segments) {
      forall k | 0 <= k <= |segments| ensures Reassembles(Received(segments[..k]), Joined(segments[..k]), bodies) {
        PrefixFits(segments, k);
        JoinedPrefix(segments, k);
        Reassembly(segments[..k], bodies);
      }
    } else {
      var k :| 0 <= k < |segments| && Overflows(Received(segments[..k]), segments[k]);
      OverflowFails(segments, k);
      assert !Reassembles(Received(segments[..k + 1]), Joined(segments[..k + 1]), bodies) by {
        NotReassembled(Received(segments[..k + 1]), Joined(segments[..k + 1]), bodies);
      }
    }
  }

  lemma NotReassembled(d: Deframed, arrived: Bytes, bodies: seq<Bytes>)
    requires LegalBodies(bodies) && !d.ok
    ensures !Reassembles(d, arrived, bodies)
  {
  }

  lemma PrefixFits(segments: seq<Bytes>, n: nat)
    requires AlwaysFits(segments) && n <= |segments|
    ensures AlwaysFits(segments[..n])
  {
    hide Received, Overflows;
    forall k | 0 <= k < n ensures segments[..n][..k] == segments[..k] && segments[..n][k] == segments[k] {
    }
  }

  lemma {:induction false} JoinedPrefix(segments: seq<Bytes>, k: nat)
    requires k <= |segments|
    ensures Joined(segments[..k]) <= Joined(segments)
    decreases |segments|
  {
    if k < |segments| {
      JoinedPrefix(segments[..|segments| - 1], k);
      assert segments[..|segments| - 1][..k] == segments[..k];
    } else {
      assert segments[..k] == segments;
    }
  }

  lemma OverflowFails(segments: seq<Bytes>, k: nat)
    requires k < |segments| && Overflows(Received(segments[..k]), segments[k])
    ensures Received(segments[..k + 1]) == Received(segments[..k]).(ok := false)
  {
    hide Deframe;
    assert segments[..k + 1][..k] == segments[..k];
  }

  /** When the whole stream has arrived without overflow, every body has been delivered and the buffer is empty. */
  lemma ReassemblyComplete(segments: seq<Bytes>, bodies: seq<Bytes>)
    requires LegalBodies(bodies) && Joined(segments) == StreamOf(bodies) && AlwaysFits(segments)
    ensures Received(segments) == Deframed(bodies, [], true)
  {
    Reassembly(segments, bodies);
    var d := Received(segments);
    var j := |d.bodies|;
    StreamSplit(bodies, j);
    assert StreamOf(bodies[j..]) == d.rest;
    assert j == |bodies|;
    assert bodies[..j] == bodies;
  }

  /** The receive path, segment by segment, while neither the handler nor a segment that does not fit ends it. */
  method Receive(stream: Stream, segments: seq<Bytes>, ghost bodies: seq<Bytes>)
    requires stream.Valid() && stream.Buffered() == [] && !stream.closed && stream.handled == []
    requires LegalBodies(bodies) && Joined(segments) <= StreamOf(bodies)
    modifies stream, stream.app
    ensures stream.Valid()
    ensures !stream.closed ==> AlwaysFits(segments)
    ensures !stream.closed ==>
      Reassembles(Deframed(stream.handled, stream.Buffered(), true), Joined(segments), bodies)
  {
    hide Deframe, StreamOf, Reassembles;
    for i := 0 to |segments|
      invariant stream.Valid()
      invariant !stream.closed ==> AlwaysFits(segments[..i])
      invariant !stream.closed ==> Deframed(stream.handled, stream.Buffered(), true) == Received(segments[..i])
    {
      assert segments[..i + 1][..i] == segments[..i];
      ghost var before := stream.handled;
      stream.ConsumeLockdownPayload(segments[i]);
      assert before <= stream.handled ==> stream.handled == before + stream.handled[|before|..];
      FitsNext(segments, i);
    }
    assert segments[..|segments|] == segments;
    if !stream.closed {
      Reassembly(segments, bodies);
    }
  }

  lemma FitsNext(segments: seq<Bytes>, i: nat)
    requires i < |segments|
    ensures AlwaysFits(segments[..i]) && !Overflows(Received(segments[..i]), segments[i]) ==> AlwaysFits(segments[..i + 1])
  {
    hide Received, Overflows;
    forall k | 0 <= k <= i
      ensures segments[..i + 1][..k] == segments[..k] && (k < i ==> segments[..i][..k] == segments[..k])
      ensures segments[..i + 1][k] == segments[k] && (k < i ==> segments[..i][k] == segments[k])
    {
    }
  }

  // --------------------------------------------------------------- illegal streams

  /** The same bodies handed on and the same failure; the buffer is only read on when there is none. */
  predicate Alike(a: Deframed, b: Deframed) {
    a.bodies == b.bodies && a.ok == b.ok && (a.ok ==> a.rest == b.rest)
  }

  /** What an uncut stream has where the segment begins: behind a body the NUL replaces the first byte. */
  function Uncut(r: Deframed, p: Bytes): Bytes {
    if r.bodies != [] && r.rest == [] then Clobbered(p) else r.rest + p
  }

  /**
   A cut that matters. The segment overflows the buffer although a legal length stands
   in front. Or all that was buffered has been delivered and the segment begins with a
   nonzero byte, which the NUL behind the last body replaces in the uncut stream, and
   the length behind that NUL is a legal one or not yet complete.
   */
  predicate CutMatters(r: Deframed, p: Bytes) {
    && r.ok && p != []
    && if Overflows(r, p) then LegalLength(Read32(Uncut(r, p), 0))
       else r.bodies != [] && r.rest == [] && p[0] != 0 && (|p| < 4 || LegalLength(Read32(Clobbered(p), 0)))
  }

  /** Where one delivery stopped, the next one goes on: behind the NUL when everything was delivered. */
  function Onward(d: Deframed, t: Bytes): Deframed {
    if d.bodies != [] && d.rest == [] then Deframe(Clobbered(t)) else Deframe(d.rest + t)
  }

  lemma {:induction false} DeframeAppend(s: Bytes, t: Bytes)
    ensures Deframe(s + t) == Prepend(Deframe(s).bodies, Onward(Deframe(s), t))
    decreases |s|
  {
    hide Deframe, Prepend, FirstBody, AfterFirst, HasBody, Clobbered, Onward;
    if HasBody(s) {
      FirstOfBoth(s, t);
      DeframeStep(s);
      DeframeStep(s + t);
      if AfterFirst(s) != [] {
        DeframeAppend(AfterFirst(s), t);
        RestOf(AfterFirst(s));
      }
      Composed(s, t, FirstBody(s), AfterFirst(s));
    } else {
      Unmoved(s, t);
    }
  }

  lemma Unmoved(s: Bytes, t: Bytes)
    requires !HasBody(s)
    ensures Deframe(s + t) == Prepend(Deframe(s).bodies, Onward(Deframe(s), t))
  {
    hide Deframe;
    DeframeStep(s);
    assert [] + Deframe(s + t).bodies == Deframe(s + t).bodies;
  }

  lemma Composed(s: Bytes, t: Bytes, b: Bytes, after: Bytes)
    requires Deframe(s) == Prepend([b], Deframe(after))
    requires after == [] ==> Deframe(s + t) == Prepend([b], Deframe(Clobbered(t)))
    requires after != [] ==> Deframe(after).bodies != [] || Deframe(after).rest != []
    requires after != [] ==>
      Deframe(s + t) == Prepend([b], Prepend(Deframe(after).bodies, Onward(Deframe(after), t)))
    ensures Deframe(s + t) == Prepend(Deframe(s).bodies, Onward(Deframe(s), t))
  {
    hide Deframe, Clobbered;
    if after == [] {
      DeframeStep([]);
      assert [b] + [] == [b];
    } else {
      var e := Onward(Deframe(after), t);
      assert e == Onward(Deframe(s), t);
      assert [b] + (Deframe(after).bodies + e.bodies) == ([b] + Deframe(after).bodies) + e.bodies;
    }
  }

  lemma FirstOfBoth(s: Bytes, t: Bytes)
    requires HasBody(s)
    ensures HasBody(s + t) && FirstBody(s + t) == FirstBody(s)
    ensures AfterFirst(s + t) == if AfterFirst(s) == [] then Clobbered(t) else AfterFirst(s) + t
  {
    hide Read32, LegalLength, Clobbered;
    ReadAppend(s, t, 0);
    var end := 4 + Read32(s, 0);
    assert (s + t)[4..end] == s[4..end] && (s + t)[end..] == s[end..] + t;
    ClobberAppend(s[end..], t);
  }

  lemma ClobberAppend(s: Bytes, t: Bytes)
    ensures Clobbered(s + t) == if s == [] then Clobbered(t) else Clobbered(s) + t
  {
    assert s == [] ==> s + t == t;
  }

  /** Only a delivered body empties the buffer. */
  lemma RestOf(s: Bytes)
    requires s != []
    ensures Deframe(s).bodies != [] || Deframe(s).rest != []
  {
    hide Deframe;
    DeframeStep(s);
  }

  /** What begins with a nonzero byte is delivered like what begins with the NUL only if both are refused. */
  lemma FirstByteMatters(p: Bytes)
    ensures Alike(Deframe(p), Deframe(Clobbered(p)))
       <==> !(p != [] && p[0] != 0 && (|p| < 4 || LegalLength(Read32(Clobbered(p), 0))))
  {
    hide Deframe;
    DeframeStep(p);
    DeframeStep(Clobbered(p));
    if p == [] || p[0] == 0 {
      assert Clobbered(p) == p;
    } else if |p| >= 4 {
      assert Read32(p, 0) >= 0x100_0000;
    } else {
      assert Clobbered(p)[0] != p[0];
    }
  }

  lemma {:induction false} RefusedForGood(s: Bytes, t: Bytes)
    requires !Deframe(s).ok
    ensures Alike(Deframe(s + t), Deframe(s))
    decreases |s|
  {
    hide Deframe;
    DeframeStep(s);
    DeframeStep(s + t);
    ReadAppend(s, t, 0);
    if HasBody(s) {
      FirstOfBoth(s, t);
      if AfterFirst(s) == [] {
        DeframeStep([]);
      } else {
        RefusedForGood(AfterFirst(s), t);
      }
    }
  }

  /**
   One more segment keeps the delivery of the segments like that of the uncut stream
   in a buffer without a limit exactly when its cut does not matter.
   */
  lemma CutStep(r: Deframed, s: Bytes, p: Bytes)
    requires Alike(r, Deframe(s))
    ensures Alike(Extended(r, p), Deframe(s + p)) <==> !CutMatters(r, p)
  {
    hide Deframe, Clobbered;
    if !r.ok {
      RefusedForGood(s, p);
    } else if p == [] {
      assert s + p == s;
    } else {
      DeframeAppend(s, p);
      if Overflows(r, p) {
        OverflowMatters(r, p);
      } else if r.bodies != [] && r.rest == [] {
        assert [] + p == p;
        FirstByteMatters(p);
        SamePrefix(r.bodies, Deframe(p), Deframe(Clobbered(p)));
      }
    }
  }

  /** Where a segment overflows, the uncut stream either is refused as well or delivers one more body. */
  lemma OverflowMatters(r: Deframed, p: Bytes)
    requires Overflows(r, p)
    ensures Alike(r.(ok := false), Prepend(r.bodies, Deframe(Uncut(r, p)))) <==> !LegalLength(Read32(Uncut(r, p), 0))
  {
    hide Deframe;
    var w := Uncut(r, p);
    DeframeStep(w);
    if LegalLength(Read32(w, 0)) {
      assert |(r.bodies + Deframe(w).bodies)| > |r.bodies|;
    } else {
      assert r.bodies + [] == r.bodies;
    }
  }

  lemma SamePrefix(bodies: seq<Bytes>, a: Deframed, b: Deframed)
    ensures Alike(Prepend(bodies, a), Prepend(bodies, b)) <==> Alike(a, b)
  {
    assert (bodies + a.bodies)[|bodies|..] == a.bodies && (bodies + b.bodies)[|bodies|..] == b.bodies;
  }

  ghost predicate AlikeThroughout(segments: seq<Bytes>) {
    forall k {:trigger segments[..k]} :: 0 <= k <= |segments| ==>
      Alike(Received(segments[..k]), Deframe(Joined(segments[..k])))
  }

  ghost predicate NoCutMatters(segments: seq<Bytes>) {
    forall k {:trigger segments[..k]} :: 0 <= k < |segments| ==> !CutMatters(Received(segments[..k]), segments[k])
  }

  /**
   Any stream, legal or not: at every moment the segments have been delivered like the
   uncut stream in a buffer without a limit, exactly when none of the cuts matters.
   */
  lemma {:induction false} SegmentationIff(segments: seq<Bytes>)
    ensures AlikeThroughout(segments) <==> NoCutMatters(segments)
  {
    hide Deframe, Alike, CutMatters, Received, Joined;
    if NoCutMatters(segments) {
      forall k | 0 <= k <= |segments|
        ensures Alike(Received(segments[..k]), Deframe(Joined(segments[..k])))
      {
        AlikeUpTo(segments, k);
      }
    } else {
      var k :| 0 <= k < |segments| && CutMatters(Received(segments[..k]), segments[k]);
      if Alike(Received(segments[..k]), Deframe(Joined(segments[..k]))) {
        NextSegment(segments, k);
        assert !Alike(Received(segments[..k + 1]), Deframe(Joined(segments[..k + 1])));
      }
    }
  }

  lemma NextSegment(segments: seq<Bytes>, k: nat)
    requires k < |segments| && Alike(Received(segments[..k]), Deframe(Joined(segments[..k])))
    ensures Alike(Received(segments[..k + 1]), Deframe(Joined(segments[..k + 1])))
       <==> !CutMatters(Received(segments[..k]), segments[k])
  {
    hide Deframe, Alike, CutMatters, Extended;
    assert segments[..k + 1][..k] == segments[..k];
    CutStep(Received(segments[..k]), Joined(segments[..k]), segments[k]);
  }

  lemma {:induction false} AlikeUpTo(segments: seq<Bytes>, k: nat)
    requires NoCutMatters(segments) && k <= |segments|
    ensures Alike(Received(segments[..k]), Deframe(Joined(segments[..k])))
  {
    hide CutMatters;
    if k == 0 {
      assert segments[..0] == [];
    } else {
      hide Deframe, Alike, Received, Joined;
      AlikeUpTo(segments, k - 1);
      NextSegment(segments, k - 1);
    }
  }

  /** Such a cut exists: a length with a nonzero top byte is refused behind it, and taken for a legal one without it. */
  lemma IllegalDependsOnSegmentation()
    ensures CutMatters(Received([GOOD]), BAD)
    ensures Received([GOOD + BAD]) == Deframed([[65], [66]], [], true)
    ensures Received([GOOD, BAD]).bodies == [[65]] && !Received([GOOD, BAD]).ok
  {
    hide Deframe, Clobbered;
    DeframeTogether();
    DeframeApart();
    ReceivedOne(GOOD + BAD);
    ReceivedOne(GOOD);
    ReceivedTwo(GOOD, BAD);
    assert [GOOD] + [BAD] == [GOOD, BAD] && [] + BAD == BAD;
    BadCut();
  }

  lemma BadCut()
    ensures BAD != [] && BAD[0] != 0 && |BAD| >= 4 && LegalLength(Read32(Clobbered(BAD), 0))
  {
    assert Clobbered(BAD) == [0, 0, 0, 1, 66];
  }

  // -------------------------------------------------------------- an overflowing cut

  /** A frame as large as the buffer allows. */
  function Frame(body: Bytes): Bytes
    requires LegalLength(|body|)
  {
    Be32(|body|) + body
  }

  lemma FrameDelivers(body: Bytes)
    requires LegalLength(|body|)
    ensures Deframe(Frame(body)) == Deframed([body], [], true)
  {
    hide Deframe, Be32;
    var f := Frame(body);
    ReadAppend(Be32(|body|), body, 0);
    DeframeStep(f);
    assert f[4..4 + |body|] == body && f[4 + |body|..] == [];
    DeframeStep([]);
  }

  lemma FrameWaits(body: Bytes)
    requires LegalLength(|body|)
    ensures var f := Frame(body); Deframe(f[..|f| - 1]) == Deframed([], f[..|f| - 1], true)
  {
    hide Deframe, Be32;
    var f := Frame(body);
    var s := f[..|f| - 1];
    assert s == Be32(|body|) + body[..|body| - 1];
    ReadAppend(Be32(|body|), body[..|body| - 1], 0);
    DeframeStep(s);
  }

  /**
   Legal streams fail as well when a cut falls badly: two frames, the first of the
   largest size, are delivered when cut between them and refused when cut one byte earlier.
   */
  lemma OverflowDependsOnSegmentation(large: Bytes, small: Bytes)
    requires |large| == BODY_MAX && LegalLength(|small|)
    ensures var f := Frame(large);
      && Received([f] + [Frame(small)]) == Deframed([large, small], [], true)
      && Received([f[..|f| - 1]] + [[f[|f| - 1]] + Frame(small)]) == Deframed([], f[..|f| - 1], false)
      && CutMatters(Received([f[..|f| - 1]]), [f[|f| - 1]] + Frame(small))
  {
    hide Deframe, Frame, Clobbered;
    var f := Frame(large);
    FrameDelivers(large);
    FrameDelivers(small);
    FrameWaits(large);
    FrameLength(large);
    FrameLength(small);
    var early, late := f[..|f| - 1], [f[|f| - 1]] + Frame(small);
    ReceivedOne(f);
    ReceivedOne(early);
    ReceivedTwo(f, Frame(small));
    ReceivedTwo(early, late);
    assert [] + Frame(small) == Frame(small) && [large] + [small] == [large, small];
    assert early + late == f + Frame(small);
    ReadAppend(f, Frame(small), 0);
  }

  lemma FrameLength(body: Bytes)
    requires LegalLength(|body|)
    ensures |Frame(body)| == 4 + |body| && Read32(Frame(body), 0) == |body|
  {
    hide Be32;
    ReadAppend(Be32(|body|), body, 0);
  }

  lemma ReceivedOne(s: Bytes)
    requires 0 < |s| <= APP_MAX
    ensures Received([s]) == Deframe(s)
  {
    hide Deframe;
    assert [s][..0] == [] && [] + s == s;
    assert [] + Deframe(s).bodies == Deframe(s).bodies;
  }

  lemma ReceivedTwo(s: Bytes, t: Bytes)
    ensures Received([s] + [t]) == Extended(Received([s]), t)
  {
    hide Extended;
    assert ([s] + [t])[..1] == [s];
  }

  const GOOD: Bytes := [0, 0, 0, 1, 65]
  const BAD: Bytes := [1, 0, 0, 1, 66]

  lemma DeframeTogether()
    ensures Deframe(GOOD + BAD) == Deframed([[65], [66]], [], true)
  {
    hide Deframe;
    var c: Bytes := [0, 0, 0, 1, 66];
    assert Clobbered((GOOD + BAD)[5..]) == c;
    DeframeStep(GOOD + BAD);
    DeframeStep(c);
    DeframeStep([]);
    assert FirstBody(GOOD + BAD) == [65] && FirstBody(c) == [66];
  }

  lemma DeframeApart()
    ensures Deframe(GOOD) == Deframed([[65]], [], true)
    ensures Deframe(BAD) == Deframed([], BAD, false)
  {
    hide Deframe;
    DeframeStep(GOOD);
    DeframeStep(BAD);
    DeframeStep([]);
    assert AfterFirst(GOOD) == [] && FirstBody(GOOD) == [65];
  }
}
