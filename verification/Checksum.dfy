/**
 The Internet checksum (section 1 of RFC 1071) as both private stacks and the
 frame translator compute it: 16-bit words summed in a 32-bit accumulator, end
 around carry, complement, and for UDP and TCP the pseudo header and the
 replacement of 0 by 0xFFFF.
 */
module Checksum {
  import opened Bytes

  /** The plain sum of the big-endian words of `s`, an odd last byte being a high byte. */
  function WordSum(s: Bytes): nat
  {
    if |s| == 0 then 0
    else if |s| == 1 then s[0] as int * 0x100
    else Read16(s, 0) + WordSum(s[2..])
  }

  /** One's-complement value of a plain sum: 0 only for 0, else its residue in 1..65535. */
  function Ones(x: nat): word {
    if x == 0 then 0 else (x - 1) % 0xFFFF + 1
  }

  function Finished(x: nat): word {
    0xFFFF - Ones(x)
  }

  /** What a transport checksum field holds: 0 is sent as 0xFFFF. */
  function Field(x: nat): word {
    if Finished(x) == 0 then 0xFFFF else Finished(x)
  }

  function Pseudo(src: dword, dst: dword, proto: byte, n: word): (r: Bytes)
    ensures |r| == 12
  {
    Be32(src) + Be32(dst) + [0, proto] + Be16(n)
  }

  /** Plain sum over pseudo header and segment. */
  function SegmentSum(src: dword, dst: dword, proto: byte, p: Bytes): nat
    requires |p| < 0x1_0000
  {
    WordSum(Pseudo(src, dst, proto, |p|)) + WordSum(p)
  }

  /** The receiver's test: the words, checksum included, add up to 0xFFFF. */
  predicate Verifies(x: nat) {
    Ones(x) == 0xFFFF
  }

  lemma AddMultiple(a: nat, q: nat)
    ensures (a + 0xFFFF * q) % 0xFFFF == a % 0xFFFF
  {
  }

  lemma FoldStep(x: nat)
    requires x >= 0x1_0000
    ensures 0 < x % 0x1_0000 + x / 0x1_0000 < x
    ensures Ones(x % 0x1_0000 + x / 0x1_0000) == Ones(x)
  {
    var y := x % 0x1_0000 + x / 0x1_0000;
    AddMultiple(y - 1, x / 0x1_0000);
    assert x - 1 == (y - 1) + 0xFFFF * (x / 0x1_0000);
  }

  lemma {:induction false} WordSumBound(s: Bytes)
    ensures WordSum(s) <= 0xFFFF * ((|s| + 1) / 2)
  {
    if |s| >= 2 {
      WordSumBound(s[2..]);
    }
  }

  /** The end-around-carry loop. */
  method Fold(start: dword) returns (sum: word)
    ensures sum == Ones(start)
  {
    var x: dword := start;
    while x >= 0x1_0000
      invariant Ones(x) == Ones(start)
    {
      FoldStep(x);
      x := x % 0x1_0000 + x / 0x1_0000;
    }
    sum := x;
  }

  /** The summing loop; the accumulator is 32 bits wide and never overflows. */
  method SumWords(p: Bytes, start: word) returns (sum: word)
    requires |p| < 0x1_0000
    ensures sum == Ones(start + WordSum(p))
  {
    var i := 0;
    var acc: dword := start;
    while |p| - i >= 2
      invariant 0 <= i <= |p|
      invariant acc <= start + 0x8000 * i
      invariant acc + WordSum(p[i..]) == start + WordSum(p)
    {
      assert p[i..][2..] == p[i + 2..];
      acc := acc + Read16(p, i);
      i := i + 2;
    }
    if |p| - i == 1 {
      acc := acc + p[i] as int * 0x100;
    }
    sum := Fold(acc);
  }

  method FinishChecksum(sum: word) returns (c: word)
    ensures c == 0xFFFF - Ones(sum)
  {
    var folded := Fold(sum);
    c := 0xFFFF - folded;
  }

  method ChecksumOf(p: Bytes) returns (c: word)
    requires |p| < 0x1_0000
    ensures c == Finished(WordSum(p))
  {
    var sum := SumWords(p, 0);
    OnesOnes(WordSum(p), 0);
    c := FinishChecksum(sum);
  }

  method TransportChecksum(src: dword, dst: dword, proto: byte, p: Bytes) returns (c: word)
    requires |p| < 0x1_0000
    ensures c == Field(SegmentSum(src, dst, proto, p))
  {
    hide Ones, WordSum, Pseudo;
    var pseudo := Pseudo(src, dst, proto, |p|);
    var first := SumWords(pseudo, 0);
    var second := SumWords(p, first);
    c := FinishChecksum(second);
    FoldedTwice(WordSum(pseudo), WordSum(p), first, second, c);
    if c == 0 {
      c := 0xFFFF;
    }
  }

  /** Folding early changes nothing. */
  lemma OnesOnes(x: nat, y: nat)
    ensures Ones(Ones(x) + y) == Ones(x + y)
  {
    if x != 0 {
      var q := (x - 1) / 0xFFFF;
      AddMultiple(Ones(x) + y - 1, q);
      assert x + y - 1 == (Ones(x) + y - 1) + 0xFFFF * q;
    }
  }

  /** Neither does folding again at the end. */
  lemma FoldedTwice(x: nat, y: nat, first: word, second: word, c: word)
    requires first == Ones(0 + x) && second == Ones(first + y) && c == 0xFFFF - Ones(second)
    ensures c == Finished(x + y)
  {
    OnesOnes(x, y);
    OnesOnes(x + y, 0);
  }

  /** A sum verifies exactly when it is a positive multiple of 0xFFFF. */
  lemma VerifiesIff(x: nat)
    ensures Verifies(x) <==> x > 0 && x % 0xFFFF == 0
  {
    if x > 0 {
      var q, r := (x - 1) / 0xFFFF, (x - 1) % 0xFFFF;
      assert x == 0xFFFF * q + r + 1;
      if r == 0xFFFE {
        AddMultiple(0, q + 1);
        assert x == 0 + 0xFFFF * (q + 1);
      } else {
        AddMultiple(r + 1, q);
      }
    }
  }

  /** Adding the complement makes any sum verify (section 1 of RFC 1071). */
  lemma FinishedVerifies(x: nat)
    ensures Verifies(x + Finished(x))
  {
    if x > 0 {
      var q := (x - 1) / 0xFFFF;
      assert x + Finished(x) == 0 + 0xFFFF * (q + 1);
      AddMultiple(0, q + 1);
    }
    VerifiesIff(x + Finished(x));
  }

  /** Among the nonzero fields exactly one makes the sum verify: the one that is sent. */
  lemma FieldUnique(x: nat, c: word)
    requires c != 0
    ensures Verifies(x + c) <==> c == Field(x)
  {
    FinishedVerifies(x);
    VerifiesIff(x + c);
    VerifiesIff(x + Field(x));
    VerifiesIff(x + Finished(x));
    if Finished(x) == 0 {
      AddMultiple(x, 1);
    }
    if Verifies(x + c) {
      var a, b := (x + c) / 0xFFFF, (x + Field(x)) / 0xFFFF;
      assert c - Field(x) == 0xFFFF * (a - b);
    }
  }

  /** Splitting at an even offset splits the sum. */
  lemma {:induction false} WordSumAppend(a: Bytes, b: Bytes)
    requires |a| % 2 == 0
    ensures WordSum(a + b) == WordSum(a) + WordSum(b)
  {
    if |a| == 0 {
      assert a + b == b;
    } else {
      assert (a + b)[2..] == a[2..] + b;
      WordSumAppend(a[2..], b);
    }
  }

  /** Storing a word at an even offset moves the sum by the difference. */
  lemma {:induction false} WordSumPut16(s: Bytes, o: nat, v: word)
    requires o % 2 == 0 && o + 2 <= |s|
    ensures WordSum(Put16(s, o, v)) == WordSum(s) - Read16(s, o) + v
  {
    var t := Put16(s, o, v);
    if o == 0 {
      assert t[2..] == s[2..];
    } else {
      assert t[2..] == Put16(s[2..], o - 2, v);
      WordSumPut16(s[2..], o - 2, v);
    }
  }

  /** A segment whose field at `o` was 0 verifies once the computed field is stored. */
  lemma StoredFieldVerifies(src: dword, dst: dword, proto: byte, p: Bytes, o: nat)
    requires |p| < 0x1_0000 && o % 2 == 0 && o + 2 <= |p| && Read16(p, o) == 0
    ensures var c := Field(SegmentSum(src, dst, proto, p));
            Verifies(SegmentSum(src, dst, proto, Put16(p, o, c)))
  {
    var sum := SegmentSum(src, dst, proto, p);
    WordSumPut16(p, o, Field(sum));
    FieldUnique(sum, Field(sum));
  }
}
