/**
 Base64 (src/base64.cpp; section 4 of RFC 4648): plain and 64-column encoding, and
 a decoder that skips white space. Decoding undoes encoding for every byte string.
 */
module Base64 {
  import opened Bytes

  // ------------------------------------------------------------------ white space

  predicate IsSpace(c: char) {
    c == ' ' || c == '\r' || c == '\n' || c == '\t'
  }

  function Stripped(s: string): string {
    if s == "" then ""
    else if IsSpace(s[0]) then Stripped(s[1..])
    else [s[0]] + Stripped(s[1..])
  }

  lemma {:induction false} StrippedAppend(a: string, b: string)
    ensures Stripped(a + b) == Stripped(a) + Stripped(b)
  {
    if a == "" {
      assert a + b == b;
    } else {
      assert (a + b)[1..] == a[1..] + b;
      StrippedAppend(a[1..], b);
    }
  }

  lemma {:induction false} StrippedSame(s: string)
    requires forall i :: 0 <= i < |s| ==> !IsSpace(s[i])
    ensures Stripped(s) == s
  {
    if s != "" {
      StrippedSame(s[1..]);
      assert s == [s[0]] + s[1..];
    }
  }

  // ----------------------------------------------------------------------- digits

  type sextet = v: int | 0 <= v < 64

  function Digit(v: sextet): char {
    if v < 26 then ('A' as int + v) as char
    else if v < 52 then ('a' as int + v - 26) as char
    else if v < 62 then ('0' as int + v - 52) as char
    else if v == 62 then '+'
    else '/'
  }

  /** -1 for a character that is no digit. */
  function Value(c: char): int {
    if 'A' <= c <= 'Z' then c as int - 'A' as int
    else if 'a' <= c <= 'z' then c as int - 'a' as int + 26
    else if '0' <= c <= '9' then c as int - '0' as int + 52
    else if c == '+' then 62
    else if c == '/' then 63
    else -1
  }

  lemma ValueDigit(v: sextet)
    ensures Value(Digit(v)) == v && Digit(v) != '=' && !IsSpace(Digit(v)) && Digit(v) != '<'
  {
  }

  /** Digits are exactly the characters with a value. */
  lemma DigitValue(c: char)
    ensures Value(c) >= 0 <==> exists v: sextet :: Digit(v) == c
    ensures Value(c) >= 0 ==> Value(c) < 64 && Digit(Value(c)) == c
  {
    if Value(c) >= 0 {
      var v: sextet := Value(c);
      assert Digit(v) == c;
    }
  }

  // --------------------------------------------------------------------- encoding

  type Triple = b: Bytes | 1 <= |b| <= 3 witness [0]
  type word24 = v: int | 0 <= v < 0x100_0000

  function Packed(b: Triple): word24 {
    b[0] as int * 0x1_0000 + (if |b| > 1 then b[1] as int * 0x100 else 0) + (if |b| > 2 then b[2] as int else 0)
  }

  /** The four characters of up to three bytes. */
  function Quad(b: Triple): (q: string)
    ensures |q| == 4
  {
    var v := Packed(b);
    [Digit(v / 0x4_0000 % 64), Digit(v / 0x1000 % 64),
     if |b| > 1 then Digit(v / 0x40 % 64) else '=', if |b| > 2 then Digit(v % 64) else '=']
  }

  function Head(b: Bytes): Bytes {
    if |b| < 3 then b else b[..3]
  }

  function Encoded(b: Bytes): string {
    if b == [] then "" else Quad(Head(b)) + Encoded(b[|Head(b)|..])
  }

  /** Complete lines of 64 characters, each ended by a newline, then what is left over. */
  function Lines(s: string): string {
    if |s| < 64 then s else s[..64] + "\n" + Lines(s[64..])
  }

  /** The length of what is left over. */
  function Column(s: string): (c: nat)
    ensures c < 64
  {
    if |s| < 64 then |s| else Column(s[64..])
  }

  function Laid(s: string, wrap: bool): string {
    if wrap then Lines(s) else s
  }

  function Text(b: Bytes, wrap: bool): string {
    if wrap && Column(Encoded(b)) != 0 then Lines(Encoded(b)) + "\n" else Laid(Encoded(b), wrap)
  }

  // --------------------------------------------------------------------- decoding

  const PAD := -2

  function Joined(a: int, b: int, c: int, d: int): int {
    a * 0x4_0000 + b * 0x1000 + c * 0x40 + d
  }

  /** The bytes of four collected values; padding shortens them. None when a leading one is padding. */
  function Group(q: seq<int>): (r: Option<Bytes>)
    requires |q| == 4 && forall i :: 0 <= i < 4 ==> q[i] == PAD || 0 <= q[i] < 64
  {
    if q[0] < 0 || q[1] < 0 then None
    else
      var v := Joined(q[0], q[1], if q[2] < 0 then 0 else q[2], if q[3] < 0 then 0 else q[3]);
      Some([v / 0x1_0000 % 0x100]
           + (if q[2] != PAD then [v / 0x100 % 0x100] else [])
           + (if q[3] != PAD then [v % 0x100] else []))
  }

  predicate Collected(q: seq<int>) {
    |q| < 4 && forall i :: 0 <= i < |q| ==> q[i] == PAD || 0 <= q[i] < 64
  }

  /** What a character adds to the collected values; None when it is no base64 character. */
  function Symbol(c: char): (r: Option<int>)
    ensures r.Some? ==> r.value == PAD || 0 <= r.value < 64
  {
    if c == '=' then Some(PAD) else if Value(c) < 0 then None else Some(Value(c))
  }

  function DecodeFrom(q: seq<int>, s: string): Option<Bytes>
    requires Collected(q)
    decreases |s|
  {
    if s == "" then if q == [] then Some([]) else None
    else if IsSpace(s[0]) then DecodeFrom(q, s[1..])
    else if Symbol(s[0]).None? then None
    else
      var p := q + [Symbol(s[0]).value];
      if |p| < 4 then DecodeFrom(p, s[1..])
      else
        var g, rest := Group(p), DecodeFrom([], s[1..]);
        if g.None? || rest.None? then None else Some(g.value + rest.value)
  }

  function Decoded(s: string): Option<Bytes> {
    DecodeFrom([], s)
  }

  // -------------------------------------------------------------------- round trip

  lemma {:induction false} DecodeStripped(q: seq<int>, s: string)
    requires Collected(q)
    ensures DecodeFrom(q, s) == DecodeFrom(q, Stripped(s))
    decreases |s|
  {
    if s != "" {
      if IsSpace(s[0]) {
        DecodeStripped(q, s[1..]);
      } else {
        var t := Stripped(s);
        assert t[0] == s[0] && t[1..] == Stripped(s[1..]);
        if Symbol(s[0]).Some? {
          var p := q + [Symbol(s[0]).value];
          DecodeStripped(if |p| < 4 then p else [], s[1..]);
        }
      }
    }
  }

  /** Four symbols are decoded as one group. */
  lemma DecodeFour(a: string, rest: string, q: seq<int>)
    requires |a| == 4 && |q| == 4 && forall i :: 0 <= i < 4 ==> q[i] == PAD || 0 <= q[i] < 64
    requires forall i :: 0 <= i < 4 ==> !IsSpace(a[i]) && Symbol(a[i]) == Some(q[i])
    ensures Decoded(a + rest) == (var g, d := Group(q), Decoded(rest);
                                  if g.None? || d.None? then None else Some(g.value + d.value))
  {
    var s := a + rest;
    assert s[1..][1..] == s[2..] && s[2..][1..] == s[3..] && s[3..][1..] == rest;
    assert [q[0]] + [q[1]] + [q[2]] + [q[3]] == q;
    assert [] + [q[0]] == [q[0]];
    DecodeOne([], s, q[0]);
    DecodeOne([q[0]], s[1..], q[1]);
    DecodeOne([q[0]] + [q[1]], s[2..], q[2]);
  }

  lemma DecodeOne(q: seq<int>, s: string, v: int)
    requires Collected(q) && |q| < 3 && s != "" && !IsSpace(s[0]) && Symbol(s[0]) == Some(v)
    ensures DecodeFrom(q, s) == DecodeFrom(q + [v], s[1..])
  {
  }

  function Values(b: Triple): (q: seq<int>)
    ensures |q| == 4 && forall i :: 0 <= i < 4 ==> q[i] == PAD || 0 <= q[i] < 64
  {
    var v := Packed(b);
    [v / 0x4_0000 % 64, v / 0x1000 % 64, if |b| > 1 then v / 0x40 % 64 else PAD, if |b| > 2 then v % 64 else PAD]
  }

  lemma QuadValues(b: Triple)
    ensures forall i :: 0 <= i < 4 ==> !IsSpace(Quad(b)[i]) && Quad(b)[i] != '<' && Symbol(Quad(b)[i]) == Some(Values(b)[i])
  {
    forall v: sextet ensures Value(Digit(v)) == v && Digit(v) != '=' && !IsSpace(Digit(v)) && Digit(v) != '<' {
      ValueDigit(v);
    }
  }

  lemma SplitSextets(v: word24)
    ensures Joined(v / 0x4_0000 % 64, v / 0x1000 % 64, v / 0x40 % 64, v % 64) == v
  {
    var a, b, c := v / 0x40, v / 0x1000, v / 0x4_0000;
    Nested(v);
    SumOfSextets(v, a, b, c, v % 64, a % 64, b % 64);
    assert c % 64 == c;
  }

  lemma Nested(v: word24)
    ensures v / 0x1000 == v / 0x40 / 0x40 && v / 0x4_0000 == v / 0x1000 / 0x40 && v / 0x4_0000 < 64
  {
  }

  lemma SumOfSextets(v: nat, a: nat, b: nat, c: nat, x: nat, y: nat, z: nat)
    requires v == a * 64 + x && a == b * 64 + y && b == c * 64 + z
    ensures Joined(c, z, y, x) == v
  {
  }

  lemma SplitBytes(b: Triple)
    ensures Packed(b) / 0x1_0000 % 0x100 == b[0]
    ensures |b| > 1 ==> Packed(b) / 0x100 % 0x100 == b[1]
    ensures |b| > 2 ==> Packed(b) % 0x100 == b[2]
    ensures |b| < 3 ==> Packed(b) % 64 == 0
    ensures |b| < 2 ==> Packed(b) / 0x40 % 64 == 0
  {
    var x: byte := if |b| > 1 then b[1] else 0;
    var y: byte := if |b| > 2 then b[2] else 0;
    ByteParts(b[0], x, y);
  }

  lemma ByteParts(a: byte, b: byte, c: byte)
    ensures var v: nat := a as int * 0x1_0000 + b as int * 0x100 + c as int;
      && v / 0x1_0000 % 0x100 == a && v / 0x100 % 0x100 == b && v % 0x100 == c
      && (c == 0 ==> v % 64 == 0) && (b == 0 && c == 0 ==> v / 0x40 % 64 == 0)
  {
    var v: nat := a as int * 0x1_0000 + b as int * 0x100 + c as int;
    assert v / 0x100 == a as int * 0x100 + b as int;
    assert v / 0x1_0000 == a as int;
    assert b == 0 && c == 0 ==> v / 0x40 == a as int * 0x400;
  }

  /** The byte group of a quad's values is the bytes it was made from. */
  lemma GroupValues(b: Triple)
    ensures Group(Values(b)) == Some(b)
  {
    hide Packed, Joined;
    SplitSextets(Packed(b));
    SplitBytes(b);
    if |b| == 1 {
      assert b == [b[0]] + [] + [];
    } else if |b| == 2 {
      assert b == [b[0]] + [b[1]] + [];
    } else {
      assert b == [b[0]] + [b[1]] + [b[2]];
    }
  }

  lemma {:induction false} DecodeEncoded(b: Bytes)
    ensures Decoded(Encoded(b)) == Some(b)
  {
    if b != [] {
      var h := Head(b);
      QuadValues(h);
      GroupValues(h);
      DecodeEncoded(b[|h|..]);
      DecodeFour(Quad(h), Encoded(b[|h|..]), Values(h));
      assert h + b[|h|..] == b;
    }
  }

  lemma {:induction false} EncodedSymbols(b: Bytes)
    ensures forall i :: 0 <= i < |Encoded(b)| ==> !IsSpace(Encoded(b)[i]) && Encoded(b)[i] != '<'
  {
    if b != [] {
      QuadValues(Head(b));
      EncodedSymbols(b[|Head(b)|..]);
    }
  }

  lemma {:induction false} StrippedLines(s: string)
    requires forall i :: 0 <= i < |s| ==> !IsSpace(s[i])
    ensures Stripped(Lines(s)) == s
  {
    if |s| < 64 {
      StrippedSame(s);
    } else {
      StrippedSame(s[..64]);
      StrippedLines(s[64..]);
      StrippedAppend(s[..64] + "\n", Lines(s[64..]));
      StrippedAppend(s[..64], "\n");
      assert Stripped("\n") == "";
    }
  }

  /** Decoding undoes encoding, whether or not the text is broken into lines. */
  lemma RoundTrip(b: Bytes, wrap: bool)
    ensures Decoded(Text(b, wrap)) == Some(b)
    ensures '<' !in Encoded(b) && Stripped(Encoded(b)) == Encoded(b)
  {
    var e := Encoded(b);
    EncodedSymbols(b);
    StrippedSame(e);
    StrippedLines(e);
    StrippedAppend(Lines(e), "\n");
    assert Stripped("\n") == "";
    assert e + "" == e;
    assert Stripped(Text(b, wrap)) == e;
    DecodeStripped([], Text(b, wrap));
    DecodeEncoded(b);
  }

  // ------------------------------------------------------------- the two routines

  lemma {:induction false} LinesSnoc(s: string, c: char)
    ensures Lines(s + [c]) == Lines(s) + [c] + (if Column(s) == 63 then "\n" else "")
    ensures Column(s + [c]) == if Column(s) == 63 then 0 else Column(s) + 1
  {
    var t := s + [c];
    if |s| < 63 {
    } else if |s| == 63 {
      assert t[..64] == t && t[64..] == "";
    } else {
      assert t[..64] == s[..64] && t[64..] == s[64..] + [c];
      LinesSnoc(s[64..], c);
    }
  }

  lemma {:induction false} LaidGrows(a: string, b: string, wrap: bool)
    ensures |Laid(a, wrap)| + |b| <= |Laid(a + b, wrap)|
    decreases |b|
  {
    if b == "" {
      assert a + b == a;
    } else {
      assert a + b == (a + [b[0]]) + b[1..];
      LinesSnoc(a, b[0]);
      LaidGrows(a + [b[0]], b[1..], wrap);
    }
  }

  /** The inner loop: four characters, breaking the line after the 64th. `done` is what is laid out already. */
  method EmitQuad(ghost done: string, out: string, column: nat, q: string, cap: nat, wrap: bool)
    returns (r: Option<string>, col: nat)
    requires |q| == 4 && out == Laid(done, wrap) && (wrap ==> column == Column(done))
    ensures r.Some? ==> r.value == Laid(done + q, wrap) && (wrap ==> col == Column(done + q))
    ensures |Laid(done + q, wrap)| + 1 <= cap ==> r.Some?
    ensures r.None? ==> |Laid(done + q, wrap)| + 1 > cap
  {
    var o, j := out, 0;
    col := column;
    assert done + q[..0] == done;
    while j < 4
      invariant 0 <= j <= 4
      invariant o == Laid(done + q[..j], wrap) && (wrap ==> col == Column(done + q[..j]))
    {
      assert done + q[..j + 1] == (done + q[..j]) + [q[j]];
      assert done + q == (done + q[..j]) + q[j..];
      LinesSnoc(done + q[..j], q[j]);
      if |o| + 2 > cap {
        LaidGrows(done + q[..j], q[j..], wrap);
        return None, col;
      }
      o := o + [q[j]];
      if wrap {
        col := col + 1;
        if col == 64 {
          o := o + "\n";
          col := 0;
        }
      }
      j := j + 1;
    }
    assert q[..4] == q;
    return Some(o), col;
  }

  /** "" stands for the source's 0: the text does not fit, or there is none. */
  method Encode(b: Bytes, cap: nat, wrap: bool) returns (out: string)
    ensures out == if |Text(b, wrap)| + 1 <= cap then Text(b, wrap) else ""
  {
    var i, col := 0, 0;
    ghost var done := "";
    out := "";
    assert b[0..] == b;
    while i < |b|
      invariant 0 <= i <= |b| && done + Encoded(b[i..]) == Encoded(b)
      invariant out == Laid(done, wrap) && (wrap ==> col == Column(done))
    {
      ghost var all := done;
      var q := Quad(Head(b[i..]));
      var r, c := EmitQuad(done, out, col, q, cap, wrap);
      EncodedStep(b, i, done);
      if r.None? {
        TooLong(b, done + q, wrap);
        return "";
      }
      out, col, done := r.value, c, done + q;
      i := if i + 3 < |b| then i + 3 else |b|;
    }
    assert b[i..] == [] && done + "" == done;
    if wrap && col != 0 {
      if |out| + 1 > cap {
        return "";
      }
      out := out + "\n";
    }
    if |out| >= cap {
      return "";
    }
  }

  lemma EncodedStep(b: Bytes, i: nat, done: string)
    requires i < |b| && done + Encoded(b[i..]) == Encoded(b)
    ensures var n := if i + 3 < |b| then i + 3 else |b|;
            done + Quad(Head(b[i..])) + Encoded(b[n..]) == Encoded(b)
  {
    hide Encoded, Quad;
    EncodedNext(b, i);
  }

  lemma EncodedNext(b: Bytes, i: nat)
    requires i < |b|
    ensures var n := if i + 3 < |b| then i + 3 else |b|;
            Encoded(b[i..]) == Quad(Head(b[i..])) + Encoded(b[n..])
  {
    hide Quad;
    var h := Head(b[i..]);
    assert b[i..][|h|..] == b[i + |h|..];
  }

  lemma TooLong(b: Bytes, prefix: string, wrap: bool)
    requires prefix <= Encoded(b)
    ensures |Laid(prefix, wrap)| <= |Text(b, wrap)|
  {
    var rest := Encoded(b)[|prefix|..];
    assert prefix + rest == Encoded(b);
    LaidGrows(prefix, rest, wrap);
  }

  function Prefixed(out: Bytes, r: Option<Bytes>): Option<Bytes> {
    if r.None? then None else Some(out + r.value)
  }

  lemma DecodeStep(q: seq<int>, s: string, out: Bytes)
    requires Collected(q) && s != "" && !IsSpace(s[0]) && Symbol(s[0]).Some?
    ensures var p := q + [Symbol(s[0]).value];
      Prefixed(out, DecodeFrom(q, s)) ==
        if |p| < 4 then Prefixed(out, DecodeFrom(p, s[1..]))
        else if Group(p).None? then None
        else Prefixed(out + Group(p).value, Decoded(s[1..]))
  {
    var p := q + [Symbol(s[0]).value];
    if |p| == 4 && Group(p).Some? && Decoded(s[1..]).Some? {
      assert out + (Group(p).value + Decoded(s[1..]).value) == out + Group(p).value + Decoded(s[1..]).value;
    }
  }

  /** [] stands for the source's 0: malformed, too long, or empty. */
  method Decode(s: string, cap: nat) returns (out: Bytes)
    ensures out == if Decoded(s).Some? && |Decoded(s).value| <= cap then Decoded(s).value else []
  {
    hide DecodeFrom, Group, Symbol;
    var q: seq<int>, i := [], 0;
    out := [];
    assert s[0..] == s;
    StartDecode(s);
    while i < |s|
      invariant 0 <= i <= |s| && |out| <= cap && Collected(q)
      invariant Decoded(s) == Prefixed(out, DecodeFrom(q, s[i..]))
    {
      assert s[i..][1..] == s[i + 1..];
      var c := s[i];
      if !IsSpace(c) {
        if Symbol(c).None? {
          SkipOrStop(q, s[i..]);
          return [];
        }
        DecodeStep(q, s[i..], out);
        q := q + [Symbol(c).value];
        if |q| == 4 {
          var g := Group(q);
          if g.None? || |out| + |g.value| > cap {
            return [];
          }
          out := out + g.value;
          q := [];
        }
      } else {
        SkipOrStop(q, s[i..]);
      }
      i := i + 1;
    }
    assert s[i..] == "";
    EndDecode(q);
    if q != [] {
      return [];
    }
  }

  lemma StartDecode(s: string)
    ensures Decoded(s) == Prefixed([], DecodeFrom([], s))
  {
    if Decoded(s).Some? {
      assert [] + Decoded(s).value == Decoded(s).value;
    }
  }

  lemma SkipOrStop(q: seq<int>, s: string)
    requires Collected(q) && s != ""
    ensures IsSpace(s[0]) ==> DecodeFrom(q, s) == DecodeFrom(q, s[1..])
    ensures !IsSpace(s[0]) && Symbol(s[0]).None? ==> DecodeFrom(q, s) == None
  {
  }

  lemma EndDecode(q: seq<int>)
    requires Collected(q)
    ensures DecodeFrom(q, "") == if q == [] then Some([]) else None
  {
  }

  // ------------------------------------------------------------------ test vectors

  lemma NothingEncoded()
    ensures Encoded([]) == ""
  {
  }

  /** Three bytes after another are encoded one after another. */
  lemma QuadThen(a: Triple, b: Bytes)
    requires |a| == 3 || b == []
    ensures Encoded(a + b) == Quad(a) + Encoded(b)
  {
    assert Head(a + b) == a && (a + b)[|a|..] == b;
  }

  lemma WholeQuad(b: Triple, v: word24)
    requires |b| == 3 && v == Packed(b)
    ensures Encoded(b) == [Digit(v / 0x4_0000 % 64), Digit(v / 0x1000 % 64), Digit(v / 0x40 % 64), Digit(v % 64)]
  {
    hide Encoded, Digit;
    NothingEncoded();
    QuadThen(b, []);
    assert b + [] == b;
  }

  /** Test vectors of section 10 of RFC 4648, and the two last digits of its table. */
  lemma TestVectors()
    ensures Encoded([0x66, 0x6F, 0x6F]) == "Zm9v" && Encoded([0x62, 0x61, 0x72]) == "YmFy"
    ensures Encoded([0xFB, 0xFF, 0xBF]) == "+/+/"
  {
    hide Encoded;
    WholeQuad([0x66, 0x6F, 0x6F], 0x66_6F6F);
    WholeQuad([0x62, 0x61, 0x72], 0x62_6172);
    WholeQuad([0xFB, 0xFF, 0xBF], 0xFB_FFBF);
  }

  /** And the padding of what is left. */
  lemma PaddedVectors()
    ensures Encoded([0x66]) == "Zg==" && Encoded([0x66, 0x6F]) == "Zm8="
  {
    hide Encoded;
    var a: Triple, b: Triple := [0x66], [0x66, 0x6F];
    NothingEncoded();
    QuadThen(a, []);
    QuadThen(b, []);
    assert a + [] == a && b + [] == b;
    assert Packed(a) == 0x66_0000 && Packed(b) == 0x66_6F00;
  }
}
