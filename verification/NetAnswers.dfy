/**
 What the DNS answer walk of the standalone stack (src/net_stack.cpp) finds: of every
 reply built from questions and resource records (section 4.1 of RFC 1035), whatever
 stands in front, the first IPv4 address.
 */
module NetAnswers {
  import opened Bytes
  import opened NetWire

  // ----------------------------------------------------------------------- names

  /** Labels of 1 to 63 bytes, ended by the root or by a pointer to the rest of the name. */
  datatype Name = Name(labels: seq<Bytes>, pointer: Option<word>)

  predicate NameOk(n: Name) {
    && |n.labels| < LABELS && (forall i :: 0 <= i < |n.labels| ==> 0 < |n.labels[i]| < 64)
    && (n.pointer.Some? ==> n.pointer.value >= 0xC000)
  }

  function LabelBytes(labels: seq<Bytes>): Bytes
    requires forall i :: 0 <= i < |labels| ==> 0 < |labels[i]| < 64
  {
    if labels == [] then [] else [|labels[0]|] + labels[0] + LabelBytes(labels[1..])
  }

  function NameEnd(pointer: Option<word>): (r: Bytes)
    ensures 1 <= |r| <= 2
  {
    if pointer.None? then [0] else Be16(pointer.value)
  }

  function NameBytes(n: Name): Bytes
    requires NameOk(n)
  {
    LabelBytes(n.labels) + NameEnd(n.pointer)
  }

  /** `piece` stands at `o`. */
  predicate At(p: Bytes, o: nat, piece: Bytes) {
    o + |piece| <= |p| && p[o..o + |piece|] == piece
  }

  lemma Parts(p: Bytes, o: nat, a: Bytes, b: Bytes)
    ensures At(p, o, a + b) <==> At(p, o, a) && At(p, o + |a|, b)
  {
    if At(p, o, a + b) {
      assert p[o..o + |a + b|][..|a|] == a && p[o..o + |a + b|][|a|..] == b;
    }
  }

  lemma {:induction false} LabelsSkipped(p: Bytes, o: nat, labels: seq<Bytes>, pointer: Option<word>, guard: nat)
    requires forall i :: 0 <= i < |labels| ==> 0 < |labels[i]| < 64
    requires |labels| < guard && (pointer.Some? ==> pointer.value >= 0xC000)
    requires At(p, o, LabelBytes(labels) + NameEnd(pointer))
    ensures AfterName(p, o, guard) == o + |LabelBytes(labels)| + |NameEnd(pointer)|
    decreases |labels|
  {
    if labels == [] {
      assert LabelBytes(labels) + NameEnd(pointer) == NameEnd(pointer);
      assert p[o] == NameEnd(pointer)[0];
    } else {
      var head, rest := [|labels[0]|] + labels[0], LabelBytes(labels[1..]) + NameEnd(pointer);
      assert LabelBytes(labels) + NameEnd(pointer) == head + rest;
      Parts(p, o, head, rest);
      assert p[o] == p[o..o + |head|][0] == |labels[0]|;
      LabelsSkipped(p, o + |head|, labels[1..], pointer, guard - 1);
    }
  }

  lemma NameSkipped(p: Bytes, o: nat, n: Name)
    requires NameOk(n) && At(p, o, NameBytes(n))
    ensures AfterName(p, o, LABELS) == o + |NameBytes(n)|
  {
    LabelsSkipped(p, o, n.labels, n.pointer, LABELS);
  }

  // ------------------------------------------------------------ questions and records

  datatype Question = Question(name: Name, kind: word, class_: word)

  function QuestionBytes(q: Question): Bytes
    requires NameOk(q.name)
  {
    NameBytes(q.name) + (Be16(q.kind) + Be16(q.class_))
  }

  predicate AsksOk(qs: seq<Question>) {
    forall i :: 0 <= i < |qs| ==> NameOk(qs[i].name)
  }

  function QuestionsBytes(qs: seq<Question>): Bytes
    requires AsksOk(qs)
  {
    if qs == [] then [] else QuestionBytes(qs[0]) + QuestionsBytes(qs[1..])
  }

  lemma {:induction false} QuestionsSkipped(p: Bytes, o: nat, qs: seq<Question>)
    requires AsksOk(qs) && At(p, o, QuestionsBytes(qs)) && o > 0
    ensures AfterQuestions(p, o, |qs|) == o + |QuestionsBytes(qs)|
    decreases |qs|
  {
    hide AfterName, NameBytes;
    if qs != [] {
      Parts(p, o, QuestionBytes(qs[0]), QuestionsBytes(qs[1..]));
      Parts(p, o, NameBytes(qs[0].name), Be16(qs[0].kind) + Be16(qs[0].class_));
      NameSkipped(p, o, qs[0].name);
      QuestionsSkipped(p, o + |QuestionBytes(qs[0])|, qs[1..]);
    }
  }

  datatype Record = Record(name: Name, kind: word, class_: word, ttl: dword, data: Bytes)

  predicate RecordOk(r: Record) {
    NameOk(r.name) && |r.data| < 0x1_0000
  }

  function RecordTail(r: Record): Bytes
    requires RecordOk(r)
  {
    Be16(r.kind) + Be16(r.class_) + Be32(r.ttl) + Be16(|r.data|) + r.data
  }

  function RecordBytes(r: Record): Bytes
    requires RecordOk(r)
  {
    NameBytes(r.name) + RecordTail(r)
  }

  predicate AllOk(rs: seq<Record>) {
    forall i :: 0 <= i < |rs| ==> RecordOk(rs[i])
  }

  function RecordsBytes(rs: seq<Record>): Bytes
    requires AllOk(rs)
  {
    if rs == [] then [] else RecordBytes(rs[0]) + RecordsBytes(rs[1..])
  }

  /** An IPv4 address of the Internet class. */
  predicate IsA(r: Record) {
    r.kind == 1 && r.class_ == 1 && |r.data| == 4
  }

  lemma TailRead(p: Bytes, o: nat, r: Record)
    requires RecordOk(r) && At(p, o, RecordTail(r))
    ensures o + 10 + |r.data| <= |p| && Read16(p, o) == r.kind && Read16(p, o + 2) == r.class_
    ensures Read16(p, o + 8) == |r.data| && At(p, o + 10, r.data)
  {
    hide Be32;
    var t := RecordTail(r);
    assert forall i :: 0 <= i < |t| ==> p[o + i] == t[i];
    assert t[..2] == Be16(r.kind) && t[2..4] == Be16(r.class_) && t[8..10] == Be16(|r.data|) && t[10..] == r.data;
    assert t[0] == t[..2][0] && t[1] == t[..2][1] && t[2] == t[2..4][0] && t[3] == t[2..4][1];
    assert t[8] == t[8..10][0] && t[9] == t[8..10][1];
    assert p[o + 10..o + 10 + |r.data|] == p[o..o + |t|][10..];
  }

  /** The first address among the records, and what is said when there is none. */
  function FirstOf(rs: seq<Record>): Answer {
    if rs == [] then NoAddress
    else if IsA(rs[0]) then Address(Read32(rs[0].data, 0))
    else FirstOf(rs[1..])
  }

  lemma FirstByte(p: Bytes, o: nat, data: Bytes)
    requires |data| == 4 && At(p, o, data)
    ensures Read32(p, o) == Read32(data, 0)
  {
    assert p[o..o + 4][0] == p[o] && p[o..o + 4][1] == p[o + 1] && p[o..o + 4][2] == p[o + 2] && p[o..o + 4][3] == p[o + 3];
  }

  lemma OneWalked(p: Bytes, o: nat, r: Record, n: nat)
    requires RecordOk(r) && At(p, o, RecordBytes(r)) && n > 0
    ensures FirstAddress(p, o, n) ==
      if IsA(r) then Address(Read32(r.data, 0)) else FirstAddress(p, o + |RecordBytes(r)|, n - 1)
  {
    hide AfterName, NameBytes, RecordTail, Read32, At;
    var e := o + |NameBytes(r.name)|;
    Parts(p, o, NameBytes(r.name), RecordTail(r));
    NameSkipped(p, o, r.name);
    TailRead(p, e, r);
    TailLength(r);
    NameLength(r.name);
    if IsA(r) {
      FirstByte(p, e + 10, r.data);
    }
  }

  lemma {:induction false} RecordsWalked(p: Bytes, o: nat, rs: seq<Record>)
    requires AllOk(rs) && At(p, o, RecordsBytes(rs))
    ensures FirstAddress(p, o, |rs|) == FirstOf(rs)
    decreases |rs|
  {
    hide AfterName, RecordBytes, Read32, At;
    if rs != [] {
      Parts(p, o, RecordBytes(rs[0]), RecordsBytes(rs[1..]));
      OneWalked(p, o, rs[0], |rs|);
      RecordsWalked(p, o + |RecordBytes(rs[0])|, rs[1..]);
    }
  }

  lemma TailLength(r: Record)
    requires RecordOk(r)
    ensures |RecordTail(r)| == 10 + |r.data|
  {
  }

  lemma NameLength(n: Name)
    requires NameOk(n)
    ensures |NameBytes(n)| > 0
  {
  }

  // -------------------------------------------------------------------- the reply

  function Header(id: word, flags: word, qd: word, an: word, rest: dword): (r: Bytes)
    ensures |r| == 12 && Read16(r, 0) == id && Read16(r, 2) == flags && Read16(r, 4) == qd && Read16(r, 6) == an
  {
    Be16(id) + Be16(flags) + Be16(qd) + Be16(an) + Be32(rest)
  }

  /** A message with these questions and answers; `rest` counts what `tail` holds. */
  function Message(id: word, flags: word, qs: seq<Question>, rs: seq<Record>, rest: dword, tail: Bytes): Bytes
    requires AsksOk(qs) && AllOk(rs) && |qs| < 0x1_0000 && |rs| < 0x1_0000
  {
    Header(id, flags, |qs|, |rs|, rest) + QuestionsBytes(qs) + RecordsBytes(rs) + tail
  }

  /** Behind any questions, aliases and other records the walk finds the first IPv4 address, or that there is none. */
  lemma AnswerFound(id: word, flags: word, qs: seq<Question>, rs: seq<Record>, rest: dword, tail: Bytes)
    requires AsksOk(qs) && AllOk(rs) && |qs| < 0x1_0000 && |rs| < 0x1_0000
    ensures var p := Message(id, flags, qs, rs, rest, tail);
      |p| >= 12 && Read16(p, 0) == id && Read16(p, 2) == flags && Resolved(p) == FirstOf(rs)
  {
    hide QuestionsBytes, RecordsBytes, AfterQuestions, FirstAddress, FirstOf;
    var p, h := Message(id, flags, qs, rs, rest, tail), Header(id, flags, |qs|, |rs|, rest);
    var a, b := QuestionsBytes(qs), RecordsBytes(rs);
    assert p == h + (a + (b + tail));
    assert p[0..|p|] == p;
    Parts(p, 0, h, a + (b + tail));
    Parts(p, 12, a, b + tail);
    Parts(p, 12 + |a|, b, tail);
    assert forall i :: 0 <= i < 12 ==> p[i] == h[i];
    QuestionsSkipped(p, 12, qs);
    RecordsWalked(p, 12 + |a|, rs);
  }
}
