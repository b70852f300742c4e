/**
 Bytes, 16-bit and 32-bit words of the wire formats, all big endian, and the
 wrap-around arithmetic of the 32-bit counters.
 */
module Bytes {

  type byte = b: int | 0 <= b < 0x100
  type word = w: int | 0 <= w < 0x1_0000
  type dword = d: int | 0 <= d < 0x1_0000_0000
  type Bytes = seq<byte>
  type Mac = m: Bytes | |m| == 6 witness [0, 0, 0, 0, 0, 0]

  datatype Option<+T> = None | Some(value: T)

  const TWO_32 := 0x1_0000_0000

  function Wrap16(x: int): word {
    x % 0x1_0000
  }

  function Wrap32(x: int): dword {
    x % 0x1_0000_0000
  }

  /** Counters may be wrapped early. */
  lemma Wrap16Add(a: int, n: int)
    ensures Wrap16(Wrap16(a) + n) == Wrap16(a + n)
  {
    assert a + n == (a % 0x1_0000 + n) + 0x1_0000 * (a / 0x1_0000);
  }

  lemma Wrap32Add(a: int, n: int)
    ensures Wrap32(Wrap32(a) + n) == Wrap32(a + n)
  {
    assert a + n == (a % 0x1_0000_0000 + n) + 0x1_0000_0000 * (a / 0x1_0000_0000);
  }

  function Read16(s: Bytes, o: nat): word
    requires o + 2 <= |s|
  {
    s[o] as int * 0x100 + s[o + 1] as int
  }

  function Read32(s: Bytes, o: nat): dword
    requires o + 4 <= |s|
  {
    0x1_0000 * Read16(s, o) + Read16(s, o + 2)
  }

  function Be16(v: word): (r: Bytes)
    ensures |r| == 2 && Read16(r, 0) == v
  {
    [v / 0x100, v % 0x100]
  }

  function Be32(v: dword): (r: Bytes)
    ensures |r| == 4 && Read32(r, 0) == v
  {
    Be16(v / 0x1_0000) + Be16(v % 0x1_0000)
  }

  /** The buffer `s` after the source's two-byte store at `o`. */
  function Put16(s: Bytes, o: nat, v: word): (r: Bytes)
    requires o + 2 <= |s|
    ensures |r| == |s| && Read16(r, o) == v
    ensures forall k :: 0 <= k < |s| && k != o && k != o + 1 ==> r[k] == s[k]
  {
    s[o := v / 0x100][o + 1 := v % 0x100]
  }

  function Put32(s: Bytes, o: nat, v: dword): (r: Bytes)
    requires o + 4 <= |s|
    ensures |r| == |s| && Read32(r, o) == v
    ensures forall k :: 0 <= k < |s| && !(o <= k < o + 4) ==> r[k] == s[k]
  {
    Put16(Put16(s, o, v / 0x1_0000), o + 2, v % 0x1_0000)
  }

  function Zeros(n: nat): (r: Bytes)
    ensures |r| == n && forall k :: 0 <= k < n ==> r[k] == 0
  {
    seq(n, _ => 0)
  }

  /** Reading a field of a concatenation from the part that holds it. */
  lemma ReadAppend(a: Bytes, b: Bytes, o: nat)
    ensures o + 2 <= |a| ==> Read16(a + b, o) == Read16(a, o)
    ensures o + 4 <= |a| ==> Read32(a + b, o) == Read32(a, o)
    ensures o + 2 <= |b| ==> Read16(a + b, |a| + o) == Read16(b, o)
    ensures o + 4 <= |b| ==> Read32(a + b, |a| + o) == Read32(b, o)
  {
  }
}
