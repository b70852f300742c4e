/**
 The sending half of the usbmux probe (src/usbmux_probe.cpp, SendTcpPayload,
 SendTcp, Enqueue and PumpTx): a payload is cut into TCP packets, queued in a
 12-slot ring and submitted one transfer at a time.
 */
module ProbeSend {
  import opened Bytes
  import opened MuxProto
  import opened Ring

  const TX_MAX := 4096
  const CHUNK := 3584
  const QUEUE_DEPTH := 12
  const LOCKDOWN_PORT := 62078
  const LOCAL_PORT := 1
  const ACK: byte := 0x10

  /** The header fields that stay the same while one payload is sent. */
  datatype Line = Line(rxSeq: word, ack: dword, window: dword)

  function PacketOf(line: Line, muxSeq: word, seqno: dword, flags: byte, payload: Bytes): (r: Bytes)
    requires |payload| <= CHUNK
    ensures |r| == 36 + |payload|
  {
    Packet(muxSeq, line.rxSeq, Tcp(LOCAL_PORT, LOCKDOWN_PORT, seqno, line.ack, flags, Scaled(line.window), payload))
  }

  /** The packets of a payload: full chunks and a last one. */
  function Packets(line: Line, muxSeq: word, seqno: dword, payload: Bytes): seq<Bytes>
    decreases |payload|
  {
    if payload == [] then []
    else
      var n := if |payload| > CHUNK then CHUNK else |payload|;
      [PacketOf(line, muxSeq, seqno, ACK, payload[..n])]
      + Packets(line, Wrap16(muxSeq + 1), Wrap32(seqno + n), payload[n..])
  }

  /** PumpTx submits a packet. */
  predicate Pumps(attached: bool, txBusy: bool, count: nat, failed: bool) {
    attached && !txBusy && count > 0 && !failed
  }

  class ProbeLink {
    const queue: array<Bytes>
    var head: nat
    var tail: nat
    var count: nat
    var txBusy: bool
    var attached: bool
    var failed: bool
    var muxTxSeq: word
    var muxRxSeq: word
    var tcpTxSeq: dword
    var tcpAck: dword
    var tcpWindow: dword
    /** Packets accepted by Enqueue, and those of them handed to the USB submit call. */
    ghost var enqueued: seq<Bytes>
    ghost var submitted: seq<Bytes>

    ghost predicate Valid()
      reads this, queue
    {
      queue.Length == QUEUE_DEPTH && RingOk(QUEUE_DEPTH, head, tail, count) &&
      (forall i :: 0 <= i < count ==> 0 < |Entries(queue[..], head, count)[i]| <= TX_MAX) &&
      enqueued == submitted + Entries(queue[..], head, count)
    }

    constructor ()
      ensures Valid() && count == 0 && !failed && attached && enqueued == []
    {
      queue := new Bytes[QUEUE_DEPTH](_ => []);
      head, tail, count := 0, 0, 0;
      txBusy, attached, failed := false, true, false;
      muxTxSeq, muxRxSeq, tcpTxSeq, tcpAck, tcpWindow := 0, 0, 0, 0, 131072;
      enqueued, submitted := [], [];
    }

    method Fail()
      modifies this`failed
      ensures failed
    {
      failed := true;
    }

    /** Takes the oldest packet out of the ring. */
    method TakeHead() returns (p: Bytes)
      requires queue.Length == QUEUE_DEPTH && RingOk(QUEUE_DEPTH, head, tail, count) && count > 0
      modifies this`head, this`count, queue
      ensures RingOk(QUEUE_DEPTH, head, tail, count) && count == old(count) - 1
      ensures old(Entries(queue[..], head, count)) == [p] + Entries(queue[..], head, count)
    {
      p := queue[head];
      PopEntry(queue[..], head, tail, count, []);
      ghost var was := queue[..];
      queue[head] := [];
      assert queue[..] == was[head := []];
      head := (head + 1) % QUEUE_DEPTH;
      count := count - 1;
    }

    /** Submits the head packet unless a transfer is in flight; the submit call may refuse it. */
    method PumpTx()
      requires Valid()
      modifies this`head, this`count, this`txBusy, this`failed, this`submitted, queue
      ensures Valid() && count <= old(count) && (old(failed) ==> failed)
      ensures if Pumps(attached, old(txBusy), old(count), old(failed))
        then submitted == old(submitted) + [old(Entries(queue[..], head, count))[0]] && (txBusy <==> !failed)
        else submitted == old(submitted) && txBusy == old(txBusy) && failed == old(failed)
    {
      hide Entries;
      if !attached || txBusy || count == 0 || failed {
        return;
      }
      ghost var entries := Entries(queue[..], head, count);
      // The source fails on an entry that is empty or too long; Valid rules it out.
      assert 0 < |entries[0]| <= TX_MAX;
      var p := TakeHead();
      assert entries[0] == p && entries[1..] == Entries(queue[..], head, count);
      ghost var rest := Entries(queue[..], head, count);
      assert submitted + ([p] + rest) == (submitted + [p]) + rest;
      txBusy := true;
      submitted := submitted + [p];
      var refused: bool := *;
      if refused {
        txBusy := false;
        Fail();
      }
    }

    method TxComplete(error: bool)
      requires Valid()
      modifies this`head, this`count, this`txBusy, this`failed, this`submitted, queue
      ensures Valid()
      ensures if Pumps(attached && !error, false, old(count), old(failed))
        then submitted == old(submitted) + [old(Entries(queue[..], head, count))[0]] && (txBusy <==> !failed)
        else submitted == old(submitted) && txBusy == (old(txBusy) && !attached)
             && failed == (old(failed) || (attached && error))
    {
      if !attached {
        return;
      }
      txBusy := false;
      if error {
        Fail();
        return;
      }
      PumpTx();
    }

    method Enqueue(data: Bytes) returns (ok: bool)
      requires Valid()
      modifies this`head, this`tail, this`count, this`txBusy, this`failed, this`enqueued, this`submitted, queue
      ensures Valid() && ok == (0 < |data| <= TX_MAX && old(count) < QUEUE_DEPTH)
      ensures enqueued == if ok then old(enqueued) + [data] else old(enqueued)
      ensures if ok then count <= old(count) + 1 else count == old(count) && failed
      ensures old(failed) ==> failed
    {
      if |data| == 0 || |data| > TX_MAX || count >= QUEUE_DEPTH {
        Fail();
        return false;
      }
      PushEntry(queue[..], head, tail, count, data);
      ghost var was := queue[..];
      queue[tail] := data;
      assert queue[..] == was[tail := data];
      tail := (tail + 1) % QUEUE_DEPTH;
      count := count + 1;
      enqueued := enqueued + [data];
      PumpTx();
      return true;
    }

    method SendTcp(flags: byte, payload: Bytes) returns (ok: bool)
      requires Valid() && |payload| <= CHUNK
      modifies this`head, this`tail, this`count, this`txBusy, this`failed, this`enqueued, this`submitted, queue
      modifies this`muxTxSeq, this`tcpTxSeq
      ensures Valid() && ok == (old(count) < QUEUE_DEPTH) && count <= old(count) + 1
      ensures muxTxSeq == Wrap16(old(muxTxSeq) + 1)
      ensures tcpTxSeq == if ok && payload != [] then Wrap32(old(tcpTxSeq) + |payload|) else old(tcpTxSeq)
      ensures enqueued == if !ok then old(enqueued) else
        old(enqueued) + [PacketOf(Line(muxRxSeq, tcpAck, tcpWindow), old(muxTxSeq), old(tcpTxSeq), flags, payload)]
    {
      hide PacketOf, Wrap16, Wrap32;
      var p := BuildPacket(flags, payload);
      var next := muxTxSeq + 1;
      muxTxSeq := Wrap16(next);
      ok := Enqueue(p);
      if ok && |payload| > 0 {
        tcpTxSeq := Wrap32(tcpTxSeq + |payload|);
      }
    }

    method BuildPacket(flags: byte, payload: Bytes) returns (p: Bytes)
      requires |payload| <= CHUNK
      ensures p == PacketOf(Line(muxRxSeq, tcpAck, tcpWindow), muxTxSeq, tcpTxSeq, flags, payload)
    {
      var built := BuildTcpPacket(TX_MAX, muxTxSeq, muxRxSeq, LOCAL_PORT, LOCKDOWN_PORT, tcpTxSeq, tcpAck,
                                  flags, tcpWindow, payload);
      return built.value;
    }

    /** With room for all its packets a payload is queued completely and in order. */
    method SendTcpPayload(payload: Bytes) returns (ok: bool)
      requires Valid()
      modifies this`head, this`tail, this`count, this`txBusy, this`failed, this`enqueued, this`submitted, queue
      modifies this`muxTxSeq, this`tcpTxSeq
      ensures Valid() && (payload == [] ==> !ok)
      ensures var packets := Packets(Line(muxRxSeq, tcpAck, tcpWindow), old(muxTxSeq), old(tcpTxSeq), payload);
              (payload != [] && old(count) + |packets| <= QUEUE_DEPTH ==> ok) &&
              (ok ==> enqueued == old(enqueued) + packets &&
                      muxTxSeq == Wrap16(old(muxTxSeq) + |packets|) && tcpTxSeq == Wrap32(old(tcpTxSeq) + |payload|))
    {
      hide PacketOf, Packets, Pending;
      if |payload| == 0 {
        return false;
      }
      PendingStart(Line(muxRxSeq, tcpAck, tcpWindow), muxTxSeq, tcpTxSeq, payload, enqueued);
      ghost var line := Line(muxRxSeq, tcpAck, tcpWindow);
      ghost var all := Packets(line, muxTxSeq, tcpTxSeq, payload);
      ghost var before, mux, seqno, room := enqueued, muxTxSeq, tcpTxSeq, QUEUE_DEPTH - count;
      var sent := 0;
      while sent < |payload|
        invariant 0 <= sent <= |payload| && Valid()
        invariant line == Line(muxRxSeq, tcpAck, tcpWindow)
        invariant Pending(line, muxTxSeq, tcpTxSeq, payload, sent, all, enqueued, before, mux, seqno)
        invariant count + (room + |before|) <= QUEUE_DEPTH + |enqueued|
      {
        var chunk := if |payload| - sent > CHUNK then CHUNK else |payload| - sent;
        PendingStep(line, muxTxSeq, tcpTxSeq, payload, sent, all, enqueued, before, mux, seqno);
        var queued := SendTcp(ACK, payload[sent..sent + chunk]);
        if !queued {
          return false;
        }
        sent := sent + chunk;
      }
      PendingDone(line, muxTxSeq, tcpTxSeq, payload, all, enqueued, before, mux, seqno);
      return true;
    }
  }

  /** What is queued together with the packets of the bytes still to send is what was queued before and all packets. */
  predicate Pending(line: Line, muxNow: word, seqNow: dword, payload: Bytes, sent: nat,
                    all: seq<Bytes>, queued: seq<Bytes>, before: seq<Bytes>, mux: word, seqno: dword)
  {
    sent <= |payload| &&
    var rest := Packets(line, muxNow, seqNow, payload[sent..]);
    queued + rest == before + all &&
    Wrap16(muxNow + |rest|) == Wrap16(mux + |all|) && Wrap32(seqNow + (|payload| - sent)) == Wrap32(seqno + |payload|)
  }

  lemma PendingStep(line: Line, muxNow: word, seqNow: dword, payload: Bytes, sent: nat,
                    all: seq<Bytes>, queued: seq<Bytes>, before: seq<Bytes>, mux: word, seqno: dword)
    requires Pending(line, muxNow, seqNow, payload, sent, all, queued, before, mux, seqno) && sent < |payload|
    ensures var n := if |payload| - sent > CHUNK then CHUNK else |payload| - sent;
            |queued| < |before| + |all| &&
            Pending(line, Wrap16(muxNow + 1), Wrap32(seqNow + n), payload, sent + n, all,
                    queued + [PacketOf(line, muxNow, seqNow, ACK, payload[sent..sent + n])], before, mux, seqno)
  {
    hide PacketOf, Wrap16, Wrap32;
    var n := if |payload| - sent > CHUNK then CHUNK else |payload| - sent;
    var rest := payload[sent..];
    assert rest[..n] == payload[sent..sent + n] && rest[n..] == payload[sent + n..];
    var p := PacketOf(line, muxNow, seqNow, ACK, payload[sent..sent + n]);
    var tail := Packets(line, Wrap16(muxNow + 1), Wrap32(seqNow + n), payload[sent + n..]);
    assert Packets(line, muxNow, seqNow, rest) == [p] + tail;
    assert queued + ([p] + tail) == (queued + [p]) + tail;
    Wrap16Add(muxNow + 1, |tail|);
    Wrap32Add(seqNow + n, |payload| - (sent + n));
  }

  lemma PendingStart(line: Line, mux: word, seqno: dword, payload: Bytes, queued: seq<Bytes>)
    ensures Pending(line, mux, seqno, payload, 0, Packets(line, mux, seqno, payload), queued, queued, mux, seqno)
  {
    hide Packets;
    assert payload[0..] == payload;
  }

  lemma PendingDone(line: Line, muxNow: word, seqNow: dword, payload: Bytes,
                    all: seq<Bytes>, queued: seq<Bytes>, before: seq<Bytes>, mux: word, seqno: dword)
    requires Pending(line, muxNow, seqNow, payload, |payload|, all, queued, before, mux, seqno)
    ensures queued == before + all && muxNow == Wrap16(mux + |all|) && seqNow == Wrap32(seqno + |payload|)
  {
    assert payload[|payload|..] == [];
  }

  // ---------------------------------------------------------- at the other end

  /** The payloads of a packet sequence, as ParseMux and ParseTcp read them; None at the first bad packet. */
  function Reassembled(packets: seq<Bytes>): Option<Bytes> {
    if packets == [] then Some([])
    else
      match ParseMux(packets[0], true)
      case None => None
      case Some(m) =>
        match ParseTcp(m)
        case None => None
        case Some(t) =>
          var rest := Reassembled(packets[1..]);
          if rest.None? then None else Some(t.payload + rest.value)
  }

  /** Packet `i` carries the i-th chunk under consecutive mux and TCP sequence numbers. */
  predicate IsNth(packets: seq<Bytes>, i: nat, line: Line, muxSeq: word, seqno: dword, payload: Bytes)
    requires i < |packets|
  {
    CHUNK * i < |payload| &&
    var end := if CHUNK * (i + 1) < |payload| then CHUNK * (i + 1) else |payload|;
    var t := Tcp(LOCAL_PORT, LOCKDOWN_PORT, Wrap32(seqno + CHUNK * i), line.ack, ACK, Scaled(line.window),
                 payload[CHUNK * i..end]);
    var m := ParseMux(packets[i], true);
    m.Some? && m.value.txSeq == Wrap16(muxSeq + i) && m.value.rxSeq == line.rxSeq && ParseTcp(m.value) == Some(t)
  }

  lemma FirstParses(line: Line, muxSeq: word, seqno: dword, payload: Bytes)
    requires |payload| <= CHUNK
    ensures var t := Tcp(LOCAL_PORT, LOCKDOWN_PORT, seqno, line.ack, ACK, Scaled(line.window), payload);
            var p := PacketOf(line, muxSeq, seqno, ACK, payload);
            ParseMux(p, true) == Some(ParsedMux(PROTO_TCP, |p|, muxSeq, line.rxSeq, TcpBytes(t))) &&
            ParseTcp(ParseMux(p, true).value) == Some(t)
  {
    hide Packet, TcpBytes, ParseMux, ParseTcp;
    var t := Tcp(LOCAL_PORT, LOCKDOWN_PORT, seqno, line.ack, ACK, Scaled(line.window), payload);
    PacketParses(muxSeq, line.rxSeq, t, []);
    assert Packet(muxSeq, line.rxSeq, t) + [] == Packet(muxSeq, line.rxSeq, t);
  }

  /** Parsing the packets in order and concatenating gives back the payload. */
  lemma {:induction false} PacketsReassemble(line: Line, muxSeq: word, seqno: dword, payload: Bytes)
    ensures Reassembled(Packets(line, muxSeq, seqno, payload)) == Some(payload)
    ensures CHUNK * |Packets(line, muxSeq, seqno, payload)| < |payload| + CHUNK
    decreases |payload|
  {
    hide PacketOf, ParseMux, ParseTcp, TcpBytes, Wrap16, Wrap32;
    if payload != [] {
      var n := if |payload| > CHUNK then CHUNK else |payload|;
      FirstParses(line, muxSeq, seqno, payload[..n]);
      PacketsReassemble(line, Wrap16(muxSeq + 1), Wrap32(seqno + n), payload[n..]);
      var rest := Packets(line, Wrap16(muxSeq + 1), Wrap32(seqno + n), payload[n..]);
      assert Packets(line, muxSeq, seqno, payload)[1..] == rest;
      assert payload[..n] + payload[n..] == payload;
    }
  }

  lemma WrapSame(m: word, d: dword)
    ensures Wrap16(m) == m && Wrap32(d) == d
  {
  }

  lemma Shift(p: Bytes, n: nat, a: nat, b: nat)
    requires a <= b && n + b <= |p|
    ensures p[n..][a..b] == p[n + a..n + b]
  {
  }

  lemma {:induction false} PacketsInSequence(line: Line, muxSeq: word, seqno: dword, payload: Bytes, i: nat)
    requires i < |Packets(line, muxSeq, seqno, payload)|
    ensures IsNth(Packets(line, muxSeq, seqno, payload), i, line, muxSeq, seqno, payload)
    decreases |payload|
  {
    hide PacketOf, ParseMux, ParseTcp, TcpBytes, Wrap16, Wrap32;
    var n := if |payload| > CHUNK then CHUNK else |payload|;
    var rest := Packets(line, Wrap16(muxSeq + 1), Wrap32(seqno + n), payload[n..]);
    if i == 0 {
      FirstParses(line, muxSeq, seqno, payload[..n]);
      WrapSame(muxSeq, seqno);
    } else {
      PacketsInSequence(line, Wrap16(muxSeq + 1), Wrap32(seqno + n), payload[n..], i - 1);
      assert n == CHUNK;
      assert Packets(line, muxSeq, seqno, payload)[i] == rest[i - 1];
      var end := if CHUNK * (i + 1) < |payload| then CHUNK * (i + 1) else |payload|;
      Shift(payload, n, CHUNK * (i - 1), end - n);
      Wrap16Add(muxSeq + 1, i - 1);
      Wrap32Add(seqno + n, CHUNK * (i - 1));
    }
  }

  /** At most 10 packets for a payload of 1..32768 bytes, so with at most 2 queued there is room for all. */
  lemma RoomForPayload(line: Line, muxSeq: word, seqno: dword, payload: Bytes, queued: nat)
    requires 1 <= |payload| <= 32768 && queued <= 2
    ensures 1 <= |Packets(line, muxSeq, seqno, payload)| <= 10
    ensures queued + |Packets(line, muxSeq, seqno, payload)| <= QUEUE_DEPTH
  {
    hide PacketOf;
    PacketsReassemble(line, muxSeq, seqno, payload);
  }
}
