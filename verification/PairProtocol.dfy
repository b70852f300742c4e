/**
 The pairing plists (src/pair_protocol.cpp): escaping and unescaping, extraction
 by first-occurrence search, the pairing request and the classification of
 replies. A Dafny string stands for the characters of a C string before its NUL.
 */
module PairProtocol {
  import opened Bytes
  import opened Base64

  // ------------------------------------------------------- strings and search

  predicate Without(s: string, c: char) {
    c !in s
  }

  predicate OccursAt(s: string, needle: string, i: nat) {
    i + |needle| <= |s| && s[i..i + |needle|] == needle
  }

  /** strstr from position `i`: the first occurrence. */
  function FindFrom(s: string, needle: string, i: nat): (r: Option<nat>)
    ensures r.Some? ==> i <= r.value && OccursAt(s, needle, r.value)
    decreases |s| - i
  {
    if i + |needle| > |s| then None
    else if OccursAt(s, needle, i) then Some(i)
    else FindFrom(s, needle, i + 1)
  }

  predicate Contains(s: string, needle: string) {
    FindFrom(s, needle, 0).Some?
  }

  lemma {:induction false} FindSkips(s: string, needle: string, i: nat, j: nat)
    requires i <= j && forall k :: i <= k < j ==> !OccursAt(s, needle, k)
    requires |needle| > 0
    ensures FindFrom(s, needle, i) == FindFrom(s, needle, j)
    decreases j - i
  {
    if i < j {
      if i + |needle| <= |s| {
        FindSkips(s, needle, i + 1, j);
      }
    }
  }

  // ------------------------------------------------------------------ escaping

  function EscapeChar(c: char): (r: string)
    ensures |r| > 0 && r[0] != '<' && Without(r, '<')
  {
    if c == '&' then "&amp;"
    else if c == '<' then "&lt;"
    else if c == '>' then "&gt;"
    else if c == '"' then "&quot;"
    else if c == '\'' then "&apos;"
    else [c]
  }

  function Escaped(s: string): string {
    if s == "" then "" else EscapeChar(s[0]) + Escaped(s[1..])
  }

  function StartsWith(s: string, p: string): bool {
    |p| <= |s| && s[..|p|] == p
  }

  /** The character an unescape step yields and how much it consumes; None for an unknown entity. */
  function UnescapeStep(s: string): (r: Option<(char, nat)>)
    requires s != ""
    ensures r.Some? ==> 0 < r.value.1 <= |s|
  {
    if s[0] != '&' then Some((s[0], 1))
    else if StartsWith(s, "&amp;") then Some(('&', 5))
    else if StartsWith(s, "&lt;") then Some(('<', 4))
    else if StartsWith(s, "&gt;") then Some(('>', 4))
    else if StartsWith(s, "&quot;") then Some(('"', 6))
    else if StartsWith(s, "&apos;") then Some(('\'', 6))
    else None
  }

  function Unescaped(s: string): Option<string>
    decreases |s|
  {
    if s == "" then Some("")
    else
      match UnescapeStep(s)
      case None => None
      case Some((c, n)) =>
        var rest := Unescaped(s[n..]);
        if rest.None? then None else Some([c] + rest.value)
  }

  lemma EscapeCharStep(c: char, y: string)
    ensures UnescapeStep(EscapeChar(c) + y) == Some((c, |EscapeChar(c)|))
  {
    var x := EscapeChar(c) + y;
    assert x[..|EscapeChar(c)|] == EscapeChar(c);
    assert |EscapeChar(c)| >= 4 ==> x[1] == EscapeChar(c)[1] && x[2] == EscapeChar(c)[2] && x[3] == EscapeChar(c)[3];
  }

  /** Unescaping undoes escaping, for every string. */
  lemma {:induction false} UnescapeEscaped(s: string)
    ensures Unescaped(Escaped(s)) == Some(s)
  {
    if s != "" {
      EscapeCharStep(s[0], Escaped(s[1..]));
      assert (EscapeChar(s[0]) + Escaped(s[1..]))[|EscapeChar(s[0])|..] == Escaped(s[1..]);
      UnescapeEscaped(s[1..]);
      assert [s[0]] + s[1..] == s;
    }
  }

  lemma {:induction false} EscapedHasNoTag(s: string)
    ensures Without(Escaped(s), '<') && |Escaped(s)| >= |s|
  {
    if s != "" {
      EscapedHasNoTag(s[1..]);
    }
  }

  /** None when the buffer is too small; the text it holds otherwise. */
  method XmlEscape(src: string, cap: nat) returns (dst: Option<string>)
    ensures dst.Some? <==> |Escaped(src)| + 1 <= cap
    ensures dst.Some? ==> dst.value == Escaped(src)
  {
    if cap == 0 {
      return None;
    }
    var out, i := "", 0;
    while i < |src|
      invariant 0 <= i <= |src| && |out| + 1 <= cap
      invariant out + Escaped(src[i..]) == Escaped(src)
    {
      var repl := EscapeChar(src[i]);
      assert src[i..][1..] == src[i + 1..];
      assert out + (repl + Escaped(src[i + 1..])) == (out + repl) + Escaped(src[i + 1..]);
      if |repl| + 1 > cap - |out| {
        return None;
      }
      out := out + repl;
      i := i + 1;
    }
    assert src[i..] == "";
    return Some(out);
  }

  lemma UnescapedAt(s: string, p: nat)
    requires p < |s|
    ensures Unescaped(s[p..]).Some? <==> (var step := UnescapeStep(s[p..]);
            step.Some? && Unescaped(s[p + step.value.1..]).Some?)
    ensures Unescaped(s[p..]).Some? ==> (var step := UnescapeStep(s[p..]).value;
            Unescaped(s[p..]).value == [step.0] + Unescaped(s[p + step.1..]).value)
  {
    hide UnescapeStep;
    var step := UnescapeStep(s[p..]);
    if step.Some? {
      assert s[p..][step.value.1..] == s[p + step.value.1..];
    }
  }

  method XmlUnescape(s: string, cap: nat) returns (dst: Option<string>)
    ensures dst.Some? <==> Unescaped(s).Some? && |Unescaped(s).value| < cap
    ensures dst.Some? ==> dst == Unescaped(s)
  {
    hide UnescapeStep, Unescaped;
    if cap == 0 {
      return None;
    }
    var out, p := "", 0;
    assert s[0..] == s;
    while p < |s|
      invariant 0 <= p <= |s| && |out| < cap
      invariant Unescaped(s[p..]).None? <==> Unescaped(s).None?
      invariant Unescaped(s).Some? ==> Unescaped(s).value == out + Unescaped(s[p..]).value
    {
      var step := UnescapeStep(s[p..]);
      UnescapedAt(s, p);
      if step.None? {
        return None;
      }
      var c, n := step.value.0, step.value.1;
      if |out| + 1 >= cap {
        return None;
      }
      assert Unescaped(s).Some? ==>
          Unescaped(s).value == (out + [c]) + Unescaped(s[p + n..]).value;
      out := out + [c];
      p := p + n;
    }
    UnescapedEmpty();
    assert s[p..] == "" && out + "" == out;
    return Some(out);
  }

  lemma UnescapedEmpty()
    ensures Unescaped("") == Some("")
  {
  }

  // ---------------------------------------------------------------- extraction

  function KeyNeedle(key: string): string {
    "<key>" + key + "</key>"
  }

  function Open(name: string): string {
    "<" + name + ">"
  }

  /** find_key: its needle buffer has 160 characters. */
  function FindKey(xml: string, key: string): Option<nat> {
    if key == "" || |key| + 12 >= 160 then None
    else FindFrom(xml, KeyNeedle(key), 0)
  }

  /** The text between the first opening tag after the key and the next closing tag. */
  function FindValue(xml: string, key: string, name: string): (r: Option<string>) {
    var k := FindKey(xml, key);
    if k.None? then None
    else
      var b := FindFrom(xml, Open(name), k.value);
      if b.None? then None
      else
        var start := b.value + |Open(name)|;
        var e := FindFrom(xml, Open("/" + name), start);
        if e.None? then None else Some(xml[start..e.value])
  }

  function StringValue(xml: string, key: string, cap: nat): Option<string> {
    var v := FindValue(xml, key, "string");
    if cap < 2 || v.None? then None
    else
      var u := Unescaped(v.value);
      if u.None? || |u.value| >= cap then None else u
  }

  function DataValue(xml: string, key: string, cap: nat): Option<string> {
    var v := FindValue(xml, key, "data");
    if cap < 2 || v.None? then None
    else
      var u := Stripped(v.value);
      if u == "" || |u| >= cap then None else Some(u)
  }

  method XmlExtractStringValue(xml: string, key: string, cap: nat) returns (dst: Option<string>)
    ensures dst == StringValue(xml, key, cap)
  {
    hide FindFrom, Unescaped;
    var k := FindKey(xml, key);
    if k.None? || cap < 2 {
      return None;
    }
    var b := FindFrom(xml, "<string>", k.value);
    assert Open("string") == "<string>" && Open("/" + "string") == "</string>";
    if b.None? {
      return None;
    }
    var e := FindFrom(xml, "</string>", b.value + 8);
    if e.None? {
      return None;
    }
    dst := XmlUnescape(xml[b.value + 8..e.value], cap);
  }

  method XmlExtractDataB64Value(xml: string, key: string, cap: nat) returns (dst: Option<string>)
    ensures dst == DataValue(xml, key, cap)
  {
    hide FindFrom;
    var k := FindKey(xml, key);
    if k.None? || cap < 2 {
      return None;
    }
    var b := FindFrom(xml, "<data>", k.value);
    assert Open("data") == "<data>" && Open("/" + "data") == "</data>";
    if b.None? {
      return None;
    }
    var e := FindFrom(xml, "</data>", b.value + 6);
    if e.None? {
      return None;
    }
    dst := StripSpaces(xml[b.value + 6..e.value], cap);
  }

  /** The copying loop of the data extractor. */
  method StripSpaces(v: string, cap: nat) returns (dst: Option<string>)
    requires cap >= 2
    ensures dst == (if Stripped(v) == "" || |Stripped(v)| >= cap then None else Some(Stripped(v)))
  {
    var out, p := "", 0;
    assert v[0..] == v;
    while p < |v|
      invariant 0 <= p <= |v| && |out| < cap
      invariant Stripped(v) == out + Stripped(v[p..])
    {
      assert v[p..][1..] == v[p + 1..];
      if !IsSpace(v[p]) {
        assert Stripped(v) == (out + [v[p]]) + Stripped(v[p + 1..]);
        if |out| + 1 >= cap {
          return None;
        }
        out := out + [v[p]];
      }
      p := p + 1;
    }
    assert v[p..] == "" && out + "" == out;
    return if out == "" then None else Some(out);
  }

  // ---------------------------------------------------------- documents of tags

  /** An opening or closing tag and the text up to the next one. */
  datatype Tag = Tag(name: string, text: string)

  function RenderTag(t: Tag): string {
    Open(t.name) + t.text
  }

  function Render(tags: seq<Tag>): string {
    if tags == [] then "" else RenderTag(tags[0]) + Render(tags[1..])
  }

  predicate Clean(t: Tag) {
    Without(t.name, '<') && Without(t.name, '>') && Without(t.text, '<')
  }

  predicate AllClean(tags: seq<Tag>) {
    forall i :: 0 <= i < |tags| ==> Clean(tags[i])
  }

  lemma {:induction false} RenderAppend(a: seq<Tag>, b: seq<Tag>)
    ensures Render(a + b) == Render(a) + Render(b)
  {
    if a == [] {
      assert a + b == b;
    } else {
      assert (a + b)[1..] == a[1..] + b;
      RenderAppend(a[1..], b);
    }
  }

  predicate TagAt(doc: string, at: nat, t: Tag) {
    OccursAt(doc, RenderTag(t), at)
  }

  lemma NoCharAt(s: string, c: char, i: nat)
    requires Without(s, c) && i < |s|
    ensures s[i] != c
  {
  }

  /** The characters of a tag in the document. */
  lemma TagChar(doc: string, at: nat, t: Tag)
    requires TagAt(doc, at, t)
    ensures doc[at] == '<' && doc[at + 1..at + 1 + |t.name|] == t.name
    ensures doc[at + 1 + |t.name|] == '>'
    ensures doc[at + 2 + |t.name|..at + |RenderTag(t)|] == t.text
  {
    var r := RenderTag(t);
    assert doc[at] == r[0];
    assert forall i :: 0 <= i < |r| ==> doc[at + i] == doc[at..at + |r|][i] == r[i];
    assert r[1..1 + |t.name|] == t.name && r[2 + |t.name|..] == t.text;
  }

  lemma NeedleChar(doc: string, at: nat, needle: string, i: nat)
    requires OccursAt(doc, needle, at) && i < |needle|
    ensures doc[at + i] == needle[i]
  {
    assert doc[at..at + |needle|][i] == needle[i];
  }

  lemma Halves(doc: string, at: nat, x: string, y: string)
    requires OccursAt(doc, x + y, at)
    ensures OccursAt(doc, x, at) && OccursAt(doc, y, at + |x|)
  {
    var both := doc[at..at + |x + y|];
    assert both[..|x|] == doc[at..at + |x|];
    assert (x + y)[..|x|] == x;
    assert both[|x|..] == doc[at + |x|..at + |x + y|];
    assert (x + y)[|x|..] == y;
  }

  lemma SubOccurs(doc: string, at: nat, a: string, b: string, c: string)
    requires OccursAt(doc, a + b + c, at)
    ensures OccursAt(doc, a, at) && OccursAt(doc, b, at + |a|)
  {
    hide OccursAt;
    Halves(doc, at, a + b, c);
    Halves(doc, at, a, b);
  }

  /** Two names closed by ">" at the same place are the same. */
  lemma SameName(doc: string, p: nat, a: string, b: string)
    requires OccursAt(doc, a + ">", p) && OccursAt(doc, b + ">", p)
    requires Without(a, '>') && Without(b, '>')
    ensures a == b
  {
    NeedleChar(doc, p, a + ">", |a|);
    NeedleChar(doc, p, b + ">", |b|);
    if |a| < |b| {
      NeedleChar(doc, p, b + ">", |a|);
      assert false;
    } else if |b| < |a| {
      NeedleChar(doc, p, a + ">", |b|);
      assert false;
    } else {
      assert a + ">" == doc[p..p + |a| + 1] == b + ">";
      assert a == (a + ">")[..|a|];
      assert b == (b + ">")[..|a|];
    }
  }

  /** An opening needle occurs at a tag exactly when the names agree. */
  lemma OpenHit(doc: string, at: nat, t: Tag, n: string)
    requires TagAt(doc, at, t) && Clean(t) && Without(n, '>')
    ensures OccursAt(doc, Open(n), at) <==> t.name == n
  {
    hide Without;
    assert RenderTag(t) == "<" + (t.name + ">") + t.text && "" + RenderTag(t) == RenderTag(t);
    assert RenderTag(t) == "" + Open(t.name) + t.text;
    SubOccurs(doc, at, "<", t.name + ">", t.text);
    SubOccurs(doc, at, "", Open(t.name), t.text);
    if OccursAt(doc, Open(n), at) {
      assert Open(n) == "<" + (n + ">") + "";
      SubOccurs(doc, at, "<", n + ">", "");
      SameName(doc, at + 1, t.name, n);
    }
  }

  predicate EndsOrOpens(doc: string, at: nat) {
    at >= |doc| || doc[at] == '<'
  }

  /** The key needle does not occur at any other tag. */
  lemma KeyMiss(doc: string, at: nat, t: Tag, key: string)
    requires TagAt(doc, at, t) && Clean(t) && Without(key, '<')
    requires EndsOrOpens(doc, at + |RenderTag(t)|)
    requires t.name != "key" || t.text != key
    ensures !OccursAt(doc, KeyNeedle(key), at)
  {
    var needle := KeyNeedle(key);
    if OccursAt(doc, needle, at) {
      TagChar(doc, at, t);
      assert Open("key") == "<key>" && needle == "<key>" + (key + "<") + "/key>";
      SubOccurs(doc, at, "<key>", key + "<", "/key>");
      OpenHit(doc, at, t, "key");
      KeyTextMiss(doc, at + 5, t.text, key);
    }
  }

  /** A text before a tag or the end is not followed by a shorter or longer one and "<". */
  lemma KeyTextMiss(doc: string, at: nat, text: string, key: string)
    requires at + |text| <= |doc| && doc[at..at + |text|] == text && Without(text, '<') && Without(key, '<')
    requires EndsOrOpens(doc, at + |text|) && text != key
    ensures !OccursAt(doc, key + "<", at)
  {
    if OccursAt(doc, key + "<", at) {
      if |text| < |key| {
        NeedleChar(doc, at, key + "<", |text|);
        assert false;
      } else if |text| > |key| {
        NeedleChar(doc, at, key + "<", |key|);
        NoCharAt(text, '<', |key|);
        assert false;
      } else {
        assert "" + key + "<" == key + "<";
        SubOccurs(doc, at, "", key, "<");
        assert false;
      }
    }
  }

  /** A search for a needle that opens with "<" goes on at the next tag. */
  lemma SkipTag(doc: string, at: nat, t: Tag, needle: string)
    requires TagAt(doc, at, t) && Clean(t) && needle != "" && needle[0] == '<'
    requires !OccursAt(doc, needle, at)
    ensures FindFrom(doc, needle, at) == FindFrom(doc, needle, at + |RenderTag(t)|)
  {
    TagChar(doc, at, t);
    var next := at + |RenderTag(t)|;
    forall k | at <= k < next ensures !OccursAt(doc, needle, k) {
      if OccursAt(doc, needle, k) && k != at {
        NeedleChar(doc, k, needle, 0);
        TagInside(doc, at, t, k);
        assert false;
      }
    }
    FindSkips(doc, needle, at, next);
  }

  lemma TagInside(doc: string, at: nat, t: Tag, k: nat)
    requires TagAt(doc, at, t) && Clean(t) && at < k < at + |RenderTag(t)|
    ensures doc[k] != '<'
  {
    TagChar(doc, at, t);
    var j := k - at - 1;
    if j < |t.name| {
      assert doc[k] == doc[at + 1..at + 1 + |t.name|][j];
      NoCharAt(t.name, '<', j);
    } else if j > |t.name| {
      assert doc[k] == doc[at + 2 + |t.name|..at + |RenderTag(t)|][j - 1 - |t.name|];
      NoCharAt(t.text, '<', j - 1 - |t.name|);
    }
  }

  predicate KeyFree(tags: seq<Tag>, key: string) {
    forall i :: 0 <= i < |tags| ==> tags[i] != Tag("key", key)
  }

  predicate TagsAt(doc: string, at: nat, tags: seq<Tag>) {
    OccursAt(doc, Render(tags), at) && EndsOrOpens(doc, at + |Render(tags)|)
  }

  lemma TagsAtSplit(doc: string, at: nat, tags: seq<Tag>)
    requires TagsAt(doc, at, tags) && tags != []
    ensures TagAt(doc, at, tags[0]) && TagsAt(doc, at + |RenderTag(tags[0])|, tags[1..])
    ensures EndsOrOpens(doc, at + |RenderTag(tags[0])|)
  {
    var r, r0 := Render(tags), RenderTag(tags[0]);
    assert doc[at..at + |r|][..|r0|] == doc[at..at + |r0|];
    assert doc[at..at + |r|][|r0|..] == doc[at + |r0|..at + |r|];
    if |tags| > 1 {
      assert Render(tags[1..])[0] == RenderTag(tags[1])[0] == '<';
      assert doc[at + |r0|..at + |r|][0] == '<';
    }
  }

  /** The search for a key skips all tags before it. */
  lemma {:induction false} FindKeyAfter(doc: string, at: nat, tags: seq<Tag>, key: string)
    requires TagsAt(doc, at, tags) && AllClean(tags) && KeyFree(tags, key) && Without(key, '<')
    ensures FindFrom(doc, KeyNeedle(key), at) == FindFrom(doc, KeyNeedle(key), at + |Render(tags)|)
    decreases |tags|
  {
    hide FindFrom, Without, OccursAt, RenderTag, EndsOrOpens;
    if tags != [] {
      TagsAtSplit(doc, at, tags);
      KeyMiss(doc, at, tags[0], key);
      SkipTag(doc, at, tags[0], KeyNeedle(key));
      FindKeyAfter(doc, at + |RenderTag(tags[0])|, tags[1..], key);
    }
  }

  // ----------------------------------------------------------- key-value entries

  /** A key and its value, as add_key_string and add_key_data write them. */
  function Entry(kind: string, key: string, value: string): seq<Tag> {
    [Tag("key", key), Tag("/key", ""), Tag(kind, value), Tag("/" + kind, "")]
  }

  predicate Plain(name: string) {
    Without(name, '<') && Without(name, '>')
  }

  lemma RenderEntry(kind: string, key: string, value: string)
    ensures Render(Entry(kind, key, value)) ==
            KeyNeedle(key) + Open(kind) + value + Open("/" + kind)
  {
    var e := Entry(kind, key, value);
    RenderFour(e[0], e[1], e[2], e[3]);
    assert RenderTag(e[0]) + RenderTag(e[1]) == KeyNeedle(key);
  }

  lemma RenderFour(a: Tag, b: Tag, c: Tag, d: Tag)
    ensures Render([a, b, c, d]) == RenderTag(a) + RenderTag(b) + RenderTag(c) + RenderTag(d)
  {
    assert [a, b, c, d] == [a] + [b] + [c] + [d];
    RenderOne(a);
    RenderOne(b);
    RenderOne(c);
    RenderOne(d);
    RenderAppend([a] + [b] + [c], [d]);
    RenderAppend([a] + [b], [c]);
    RenderAppend([a], [b]);
  }

  lemma RenderOne(a: Tag)
    ensures Render([a]) == RenderTag(a)
  {
    assert RenderTag(a) + Render([a][1..]) == RenderTag(a);
  }

  /** The first opening needle at or after a key entry is the entry's own. */
  lemma FindOpenInEntry(doc: string, at: nat, kind: string, key: string, value: string)
    requires OccursAt(doc, Render(Entry(kind, key, value)), at)
    requires Without(key, '<') && Without(value, '<') && Plain(kind)
    requires kind != "key" && kind != "/key"
    ensures FindFrom(doc, Open(kind), at) == Some(at + |KeyNeedle(key)|)
    ensures FindFrom(doc, Open("/" + kind), at + |KeyNeedle(key)| + |Open(kind)|)
         == Some(at + |KeyNeedle(key)| + |Open(kind)| + |value|)
  {
    hide *;
    EntryTags(doc, at, kind, key, value);
    TagLengths(key, kind, value);
    var t0, t1, t2, t3 := Tag("key", key), Tag("/key", ""), Tag(kind, value), Tag("/" + kind, "");
    var q := at + |KeyNeedle(key)|;
    OpenAfterTwo(doc, at, at + |RenderTag(t0)|, q, t0, t1, t2);
    CloseAfterText(doc, q, t2, t3);
  }

  lemma OpenAfterTwo(doc: string, at: nat, p: nat, q: nat, t0: Tag, t1: Tag, t2: Tag)
    requires TagAt(doc, at, t0) && TagAt(doc, p, t1) && TagAt(doc, q, t2)
    requires p == at + |RenderTag(t0)| && q == p + |RenderTag(t1)|
    requires Clean(t0) && Clean(t1) && Clean(t2) && t0.name != t2.name && t1.name != t2.name
    ensures FindFrom(doc, Open(t2.name), at) == Some(q)
  {
    hide FindFrom, Without, RenderTag;
    OpenHit(doc, at, t0, t2.name);
    SkipTag(doc, at, t0, Open(t2.name));
    OpenHit(doc, p, t1, t2.name);
    SkipTag(doc, p, t1, Open(t2.name));
    OpenHit(doc, q, t2, t2.name);
    FoundHere(doc, Open(t2.name), q);
  }

  lemma FoundHere(doc: string, needle: string, at: nat)
    requires OccursAt(doc, needle, at)
    ensures FindFrom(doc, needle, at) == Some(at)
  {
  }

  /** From inside a tag's text the next needle is the tag that follows. */
  lemma CloseAfterText(doc: string, at: nat, t: Tag, next: Tag)
    requires TagAt(doc, at, t) && TagAt(doc, at + |RenderTag(t)|, next) && Clean(t) && Clean(next)
    ensures FindFrom(doc, Open(next.name), at + |Open(t.name)|) == Some(at + |RenderTag(t)|)
  {
    hide FindFrom, Without;
    var from, to := at + |Open(t.name)|, at + |RenderTag(t)|;
    forall k | from <= k < to ensures !OccursAt(doc, Open(next.name), k) {
      TagInside(doc, at, t, k);
      if OccursAt(doc, Open(next.name), k) {
        NeedleChar(doc, k, Open(next.name), 0);
        assert false;
      }
    }
    FindSkips(doc, Open(next.name), from, to);
    OpenHit(doc, to, next, next.name);
    FoundHere(doc, Open(next.name), to);
  }

  lemma EntryTags(doc: string, at: nat, kind: string, key: string, value: string)
    requires OccursAt(doc, Render(Entry(kind, key, value)), at)
    requires Without(key, '<') && Without(value, '<') && Plain(kind)
    ensures TagAt(doc, at, Tag("key", key)) && TagAt(doc, at + |RenderTag(Tag("key", key))|, Tag("/key", ""))
    ensures TagAt(doc, at + |KeyNeedle(key)|, Tag(kind, value))
    ensures TagAt(doc, at + |KeyNeedle(key)| + |RenderTag(Tag(kind, value))|, Tag("/" + kind, ""))
    ensures Clean(Tag("key", key)) && Clean(Tag("/key", "")) && Clean(Tag(kind, value)) && Clean(Tag("/" + kind, ""))
  {
    hide Without, RenderTag, OccursAt, Render;
    var t := Entry(kind, key, value);
    RenderFour(t[0], t[1], t[2], t[3]);
    PartsOf(doc, at, Render(t), RenderTag(t[0]), RenderTag(t[1]), RenderTag(t[2]), RenderTag(t[3]));
    EntryClean(kind, key, value);
    assert Clean(t[0]) && Clean(t[1]) && Clean(t[2]) && Clean(t[3]);
    TagLengths(key, kind, value);
  }

  lemma TagLengths(key: string, kind: string, value: string)
    ensures |RenderTag(Tag("key", key))| + |RenderTag(Tag("/key", ""))| == |KeyNeedle(key)|
    ensures |RenderTag(Tag(kind, value))| == |Open(kind)| + |value|
  {
  }

  lemma EntryClean(kind: string, key: string, value: string)
    requires Without(key, '<') && Without(value, '<') && Plain(kind)
    ensures AllClean(Entry(kind, key, value))
  {
    PlainNames();
    assert Without("", '<') && Without("", '>');
    assert ("/" + kind)[1..] == kind;
    assert Without("/" + kind, '<') && Without("/" + kind, '>');
  }

  lemma PlainNames()
    ensures Plain("key") && Plain("/key")
  {
    assert "key"[1..] == "ey" && "ey"[1..] == "y" && "y"[1..] == "";
    assert "/key"[1..] == "key";
  }

  /**
   Extraction from any document that begins with clean tags and then the entry:
   whatever follows, the value found is the entry's.
   */
  lemma ValueFound(doc: string, before: seq<Tag>, kind: string, key: string, value: string)
    requires AllClean(before) && KeyFree(before, key)
    requires Render(before) + Render(Entry(kind, key, value)) <= doc
    requires Without(key, '<') && Without(value, '<') && Plain(kind)
    requires kind != "key" && kind != "/key" && key != "" && |key| + 12 < 160
    ensures FindValue(doc, key, kind) == Some(value)
  {
    hide *;
    var at, e := |Render(before)|, Render(Entry(kind, key, value));
    SplitDoc(doc, Render(before), e);
    EntryParts(doc, at, kind, key, value);
    FindKeyIs(doc, at, before, key);
    FindOpenInEntry(doc, at, kind, key, value);
    var b := at + |KeyNeedle(key)|;
    OccursText(doc, value, b + |Open(kind)|);
    FindValueIs(doc, key, kind, at, b, b + |Open(kind)| + |value|);
  }

  lemma FindKeyIs(doc: string, at: nat, before: seq<Tag>, key: string)
    requires at == |Render(before)| && OccursAt(doc, Render(before), 0) && EndsOrOpens(doc, at)
    requires AllClean(before) && KeyFree(before, key) && Without(key, '<')
    requires OccursAt(doc, KeyNeedle(key), at) && key != "" && |key| + 12 < 160
    ensures FindKey(doc, key) == Some(at)
  {
    hide FindFrom, OccursAt, Render, KeyNeedle, Without, EndsOrOpens;
    FindKeyAfter(doc, 0, before, key);
    FoundHere(doc, KeyNeedle(key), at);
  }

  lemma FindValueIs(xml: string, key: string, name: string, k: nat, b: nat, e: nat)
    requires FindKey(xml, key) == Some(k) && FindFrom(xml, Open(name), k) == Some(b)
    requires FindFrom(xml, Open("/" + name), b + |Open(name)|) == Some(e)
    ensures b + |Open(name)| <= e <= |xml|
    ensures FindValue(xml, key, name) == Some(xml[b + |Open(name)|..e])
  {
    hide FindFrom, FindKey, Open;
  }

  lemma OccursText(doc: string, needle: string, at: nat)
    requires OccursAt(doc, needle, at)
    ensures at + |needle| <= |doc| && doc[at..at + |needle|] == needle
  {
  }

  lemma SplitDoc(doc: string, a: string, b: string)
    requires a + b <= doc
    ensures OccursAt(doc, a, 0) && OccursAt(doc, b, |a|)
  {
    var n := |a + b|;
    assert doc[..n] == a + b;
    assert doc[..n][..|a|] == doc[0..|a|] && doc[..n][|a|..] == doc[|a|..n];
  }

  lemma EntryParts(doc: string, at: nat, kind: string, key: string, value: string)
    requires OccursAt(doc, Render(Entry(kind, key, value)), at)
    ensures OccursAt(doc, KeyNeedle(key), at) && EndsOrOpens(doc, at)
    ensures OccursAt(doc, value, at + |KeyNeedle(key)| + |Open(kind)|)
  {
    hide Render;
    RenderEntry(kind, key, value);
    var e := Render(Entry(kind, key, value));
    var needle, o, c := KeyNeedle(key), Open(kind), Open("/" + kind);
    PartsOf(doc, at, e, needle, o, value, c);
    NeedleChar(doc, at, needle, 0);
  }

  lemma PartsOf(doc: string, at: nat, e: string, a: string, b: string, c: string, d: string)
    requires e == a + b + c + d && OccursAt(doc, e, at)
    ensures OccursAt(doc, a, at) && OccursAt(doc, b, at + |a|)
    ensures OccursAt(doc, c, at + |a| + |b|) && OccursAt(doc, d, at + |a| + |b| + |c|)
  {
    assert e == a + b + (c + d) == (a + b) + c + d == (a + b + c) + d + "";
    SubOccurs(doc, at, a, b, c + d);
    SubOccurs(doc, at, a + b, c, d);
    SubOccurs(doc, at, a + b + c, d, "");
  }

  // ------------------------------------------------------------ pairing requests

  datatype Material = Material(hostId: string, systemBuid: string,
                               hostCertificate: string, deviceCertificate: string, rootCertificate: string)

  const DOCTYPE_KIND := "!DOCTYPE plist PUBLIC "
  const DOCTYPE_NAME := "\"-//Apple//DTD PLIST 1.0//EN\" "
  const DOCTYPE_SITE := "\"http://www.apple.com/DTDs/"
  const DOCTYPE_FILE := "PropertyList-1.0.dtd\""
  const DOCTYPE := DOCTYPE_KIND + DOCTYPE_NAME + DOCTYPE_SITE + DOCTYPE_FILE

  function HeadTags(): seq<Tag> {
    [Tag("?xml version=\"1.0\" encoding=\"UTF-8\"?", ""), Tag(DOCTYPE, ""),
     Tag("plist version=\"1.0\"", ""), Tag("dict", "")]
    + Entry("string", "Label", "iPhoneTether360")
    + [Tag("key", "PairRecord"), Tag("/key", ""), Tag("dict", "")]
  }

  /** The key, kind and value of the document's entries; the first five form the pair record. */
  function KeyOf(n: nat): string {
    if n == 1 then "DeviceCertificate" else if n == 2 then "HostCertificate" else if n == 3 then "HostID"
    else if n == 4 then "RootCertificate" else if n == 5 then "SystemBUID" else "Request"
  }

  function KindOf(n: nat): string {
    if n == 1 || n == 2 || n == 4 then "data" else "string"
  }

  function ValueOf(n: nat, request: string, m: Material): string {
    if n == 1 then m.deviceCertificate else if n == 2 then m.hostCertificate else if n == 3 then Escaped(m.hostId)
    else if n == 4 then m.rootCertificate else if n == 5 then Escaped(m.systemBuid) else request
  }

  predicate IsEntry(n: nat) {
    1 <= n <= 5 || n == 7
  }

  function Part(n: nat, request: string, m: Material): seq<Tag> {
    if n == 0 then HeadTags()
    else if n == 6 then [Tag("/dict", "")]
    else Entry(KindOf(n), KeyOf(n), ValueOf(n, request, m))
  }

  function Through(n: nat, request: string, m: Material): seq<Tag> {
    if n == 0 then Part(0, request, m) else Through(n - 1, request, m) + Part(n, request, m)
  }

  function Options(extended: bool): seq<Tag> {
    if extended
    then [Tag("key", "PairingOptions"), Tag("/key", ""), Tag("dict", ""),
          Tag("key", "ExtendedPairingErrors"), Tag("/key", ""), Tag("true/", ""), Tag("/dict", "")]
    else []
  }

  function TailTags(extended: bool): seq<Tag> {
    Version() + Options(extended) + Ends()
  }

  function RequestTags(request: string, m: Material, extended: bool): seq<Tag> {
    Through(7, request, m) + TailTags(extended)
  }

  function RequestXml(request: string, m: Material, extended: bool): string {
    Render(RequestTags(request, m, extended))
  }

  /** What the builder refuses whatever the room: its escape buffers hold 256 characters. */
  predicate Buildable(request: string, m: Material) {
    && request != "" && m.deviceCertificate != "" && m.hostCertificate != "" && m.rootCertificate != ""
    && Escaped(m.hostId) != "" && |Escaped(m.hostId)| + 1 <= 256
    && Escaped(m.systemBuid) != "" && |Escaped(m.systemBuid)| + 1 <= 256
  }

  /** append: `buf` is the text so far, None once an append has failed. */
  function Append(buf: Option<string>, s: string, cap: nat): Option<string> {
    if buf.None? || |buf.value| + |s| + 1 > cap then None else Some(buf.value + s)
  }

  method AddKeyString(buf: string, cap: nat, key: string, value: string) returns (r: Option<string>)
    ensures r.Some? <==> (Escaped(value) != "" && |Escaped(value)| + 1 <= 256
        && |buf| + |Render(Entry("string", key, Escaped(value)))| + 1 <= cap)
    ensures r.Some? ==> r.value == buf + Render(Entry("string", key, Escaped(value)))
  {
    hide Escaped, Render;
    var escaped := XmlEscape(value, 256);
    if escaped.None? || escaped.value == "" {
      return None;
    }
    r := AppendEntry(buf, cap, key, "</key><string>", escaped.value, "</string>");
    RenderEntry("string", key, escaped.value);
    assert Open("/" + "string") == "</string>" && "</key><string>" == "</key>" + Open("string");
    assert KeyNeedle(key) + Open("string") + escaped.value == "<key>" + key + "</key><string>" + escaped.value;
  }

  method AddKeyData(buf: string, cap: nat, key: string, b64: string) returns (r: Option<string>)
    ensures r.Some? <==> b64 != "" && |buf| + |Render(Entry("data", key, b64))| + 1 <= cap
    ensures r.Some? ==> r.value == buf + Render(Entry("data", key, b64))
  {
    hide Render;
    if b64 == "" {
      return None;
    }
    r := AppendEntry(buf, cap, key, "</key><data>", b64, "</data>");
    RenderEntry("data", key, b64);
    assert Open("/" + "data") == "</data>" && "</key><data>" == "</key>" + Open("data");
    assert KeyNeedle(key) + Open("data") + b64 == "<key>" + key + "</key><data>" + b64;
  }

  /** The five appends shared by add_key_string and add_key_data. */
  method AppendEntry(buf: string, cap: nat, key: string, open: string, value: string, close: string)
    returns (r: Option<string>)
    ensures r == Append(Some(buf), "<key>" + key + open + value + close, cap)
  {
    r := Append(Some(buf), "<key>", cap);
    r := Append(r, key, cap);
    r := Append(r, open, cap);
    r := Append(r, value, cap);
    r := Append(r, close, cap);
    assert buf + "<key>" + key + open + value + close == buf + ("<key>" + key + open + value + close);
  }

  function RecordThrough(n: nat, request: string, m: Material): string {
    Render(Through(n, request, m))
  }

  lemma Grows(n: nat, request: string, m: Material)
    ensures RecordThrough(n + 1, request, m) == RecordThrough(n, request, m) + Render(Part(n + 1, request, m))
  {
    RenderAppend(Through(n, request, m), Part(n + 1, request, m));
  }

  lemma {:induction false} PrefixOfRequest(n: nat, request: string, m: Material, extended: bool)
    requires n <= 7
    ensures RecordThrough(n, request, m) <= RequestXml(request, m, extended)
    decreases 7 - n
  {
    hide Render, Part;
    if n == 7 {
      RenderAppend(Through(7, request, m), TailTags(extended));
    } else {
      Grows(n, request, m);
      PrefixOfRequest(n + 1, request, m, extended);
    }
  }

  /** The pair record: the document up to its fifth entry. */
  method BuildRecord(request: string, m: Material, cap: nat) returns (r: Option<string>)
    requires request != ""
    ensures r.Some? <==> Buildable(request, m) && |RecordThrough(5, request, m)| + 1 <= cap
    ensures r.Some? ==> r.value == RecordThrough(5, request, m)
  {
    hide Render, Escaped, Through, HeadTags, Entry;
    Lengths(request, m);
    r := Append(Some(""), Render(HeadTags()), cap);
    HeadText(request, m);
    if r.None? {
      return None;
    }
    r := AddKeyData(r.value, cap, "DeviceCertificate", m.deviceCertificate);
    if r.None? {
      return None;
    }
    r := AddKeyData(r.value, cap, "HostCertificate", m.hostCertificate);
    if r.None? {
      return None;
    }
    r := AddKeyString(r.value, cap, "HostID", m.hostId);
    if r.None? {
      return None;
    }
    r := AddKeyData(r.value, cap, "RootCertificate", m.rootCertificate);
    if r.None? {
      return None;
    }
    r := AddKeyString(r.value, cap, "SystemBUID", m.systemBuid);
  }

  lemma HeadText(request: string, m: Material)
    ensures RecordThrough(0, request, m) == "" + Render(HeadTags())
  {
  }

  lemma Lengths(request: string, m: Material)
    ensures RecordThrough(1, request, m) ==
      RecordThrough(0, request, m) + Render(Entry("data", "DeviceCertificate", m.deviceCertificate))
    ensures RecordThrough(2, request, m) ==
      RecordThrough(1, request, m) + Render(Entry("data", "HostCertificate", m.hostCertificate))
    ensures RecordThrough(3, request, m) ==
      RecordThrough(2, request, m) + Render(Entry("string", "HostID", Escaped(m.hostId)))
    ensures RecordThrough(4, request, m) ==
      RecordThrough(3, request, m) + Render(Entry("data", "RootCertificate", m.rootCertificate))
    ensures RecordThrough(5, request, m) ==
      RecordThrough(4, request, m) + Render(Entry("string", "SystemBUID", Escaped(m.systemBuid)))
  {
    hide Render, RecordThrough, Escaped, Entry;
    Grows(0, request, m);
    Grows(1, request, m);
    Grows(2, request, m);
    Grows(3, request, m);
    Grows(4, request, m);
  }

  lemma Regroup(a: string, b: string, c: string, d: string, e: string, f: string)
    ensures a + b + (c + d + e + f) == a + (b + c + d) + e + f
  {
  }

  lemma RequestPiece(request: string, m: Material)
    ensures RecordThrough(7, request, m)
         == RecordThrough(5, request, m) + "</dict><key>Request</key><string>" + request + "</string>"
  {
    hide *;
    Grows(5, request, m);
    Grows(6, request, m);
    LastParts(request, m);
    Regroup(RecordThrough(5, request, m), "</dict>", "<key>Request</key>", "<string>", request, "</string>");
    assert "</dict>" + "<key>Request</key>" + "<string>" == "</dict><key>Request</key><string>";
  }

  lemma LastParts(request: string, m: Material)
    ensures Render(Part(6, request, m)) == "</dict>"
    ensures Render(Part(7, request, m)) == "<key>Request</key>" + "<string>" + request + "</string>"
  {
    RenderOne(Tag("/dict", ""));
    RenderEntry("string", "Request", request);
    assert Open("/" + "string") == "</string>" && KeyNeedle("Request") == "<key>Request</key>";
  }

  function Version(): seq<Tag> {
    Entry("string", "ProtocolVersion", "2")
  }

  function Ends(): seq<Tag> {
    [Tag("/dict", ""), Tag("/plist", "")]
  }

  /** The request document in the pieces the builder appends. */
  lemma RequestText(request: string, m: Material, extended: bool)
    ensures RequestXml(request, m, extended)
         == RecordThrough(5, request, m) + "</dict><key>Request</key><string>" + request + "</string>"
          + Render(Version()) + Render(Options(extended)) + Render(Ends())
  {
    hide Render, Through, RecordThrough, Version, Options, Ends;
    RenderAppend(Through(7, request, m), TailTags(extended));
    RenderAppend(Version() + Options(extended), Ends());
    RenderAppend(Version(), Options(extended));
    RequestPiece(request, m);
    ThroughText(request, m);
    Regroup2(RecordThrough(7, request, m), Render(Version()), Render(Options(extended)), Render(Ends()));
  }

  lemma Regroup2(a: string, b: string, c: string, d: string)
    ensures a + (b + c + d) == a + b + c + d
  {
  }

  lemma ThroughText(request: string, m: Material)
    ensures Render(Through(7, request, m)) == RecordThrough(7, request, m)
  {
  }

  method BuildPairingRequestXml(request: string, m: Material, extended: bool, cap: nat) returns (dst: Option<string>)
    ensures dst.Some? <==> Buildable(request, m) && |RequestXml(request, m, extended)| + 1 <= cap
    ensures dst.Some? ==> dst.value == RequestXml(request, m, extended)
  {
    hide Buildable, RecordThrough, RequestXml, Render;
    PrefixOfRequest(5, request, m, extended);
    RequestText(request, m, extended);
    SizeFacts(request, m, extended);
    if request == "" || cap < 2 {
      return None;
    }
    dst := BuildRecord(request, m, cap);
    dst := Append(dst, "</dict><key>Request</key><string>", cap);
    dst := Append(dst, request, cap);
    dst := Append(dst, "</string>", cap);
    dst := Append(dst, Render(Version()), cap);
    if extended {
      dst := Append(dst, Render(Options(true)), cap);
    }
    dst := Append(dst, Render(Ends()), cap);
  }

  lemma SizeFacts(request: string, m: Material, extended: bool)
    ensures Buildable(request, m) ==> request != ""
    ensures |RequestXml(request, m, extended)| >= 2 && Render(Options(false)) == ""
  {
    PrefixOfRequest(0, request, m, extended);
    assert |RenderTag(HeadTags()[0])| > 2;
  }

  // ------------------------------------------------------------------ round trip

  /** Base64 text: no markup and no white space. */
  predicate DataText(s: string) {
    Without(s, '<') && Stripped(s) == s
  }

  lemma Base64IsDataText(b: Bytes)
    ensures DataText(Encoded(b))
  {
    hide Encoded, Stripped;
    RoundTrip(b, false);
  }

  predicate Certificates(m: Material) {
    DataText(m.hostCertificate) && DataText(m.deviceCertificate) && DataText(m.rootCertificate)
  }

  lemma KeyFreeAppend(a: seq<Tag>, b: seq<Tag>, key: string)
    requires KeyFree(a, key) && AllClean(a) && KeyFree(b, key) && AllClean(b)
    ensures KeyFree(a + b, key) && AllClean(a + b)
  {
  }

  lemma FixedNames()
    ensures Plain("dict") && Plain("/dict") && Plain("/plist") && Plain("true/") && Plain("") && Plain("2")
    ensures Plain("string") && Plain("data") && Plain("plist version=\"1.0\"")
  {
  }

  lemma FixedKeys()
    ensures Plain("Label") && Plain("iPhoneTether360") && Plain("PairRecord") && Plain("ProtocolVersion")
  {
  }

  lemma OptionKeys()
    ensures Plain("PairingOptions") && Plain("ExtendedPairingErrors") && Plain("Error")
  {
  }

  lemma RecordKeys()
    ensures Plain("DeviceCertificate") && Plain("HostCertificate") && Plain("HostID")
  {
  }

  lemma OtherKeys()
    ensures Plain("RootCertificate") && Plain("SystemBUID") && Plain("Request")
  {
  }

  lemma KeysPlain(n: nat)
    ensures Plain(KeyOf(n)) && KeyOf(n) != "" && |KeyOf(n)| < 20
  {
    hide Plain;
    RecordKeys();
    OtherKeys();
  }

  lemma FixedProlog()
    ensures Plain("?xml version=\"1.0\" encoding=\"UTF-8\"?") && Plain(DOCTYPE)
  {
    PrologKind();
    PrologSite();
    PlainAppend(DOCTYPE_KIND, DOCTYPE_NAME);
    PlainAppend(DOCTYPE_KIND + DOCTYPE_NAME, DOCTYPE_SITE);
    PlainAppend(DOCTYPE_KIND + DOCTYPE_NAME + DOCTYPE_SITE, DOCTYPE_FILE);
    assert Plain("?xml version=\"1.0\" encoding=\"UTF-8\"?");
  }

  lemma PrologKind()
    ensures Plain(DOCTYPE_KIND) && Plain(DOCTYPE_NAME)
  {
  }

  lemma PrologSite()
    ensures Plain(DOCTYPE_SITE) && Plain(DOCTYPE_FILE)
  {
  }

  lemma PlainAppend(a: string, b: string)
    requires Plain(a) && Plain(b)
    ensures Plain(a + b)
  {
  }

  lemma HeadClean()
    ensures AllClean(HeadTags())
  {
    hide Plain;
    FixedNames();
    FixedKeys();
    FixedProlog();
    PlainNames();
    EntryClean("string", "Label", "iPhoneTether360") by {
      PlainText("Label");
      PlainText("iPhoneTether360");
    }
    PlainText("PairRecord");
    PlainTags("?xml version=\"1.0\" encoding=\"UTF-8\"?", DOCTYPE, "plist version=\"1.0\"", "dict");
    PlainTag("dict", "");
    PlainTag("key", "PairRecord");
    PlainTag("/key", "");
  }

  lemma PlainTags(a: string, b: string, c: string, d: string)
    requires Plain(a) && Plain(b) && Plain(c) && Plain(d)
    ensures AllClean([Tag(a, ""), Tag(b, ""), Tag(c, ""), Tag(d, "")])
  {
  }

  lemma PlainTag(a: string, text: string)
    requires Plain(a) && Without(text, '<')
    ensures Clean(Tag(a, text))
  {
  }

  lemma PlainText(a: string)
    requires Plain(a)
    ensures Without(a, '<')
  {
  }

  lemma PartClean(n: nat, request: string, m: Material)
    requires Certificates(m) && Without(request, '<')
    ensures AllClean(Part(n, request, m))
  {
    hide Plain, HeadTags, Entry, DataText;
    if n == 0 {
      HeadClean();
    } else if n == 6 {
      FixedNames();
      PlainTag("/dict", "");
    } else {
      FixedNames();
      KeysPlain(n);
      PlainText(KeyOf(n));
      ValueClean(n, request, m);
      EntryClean(KindOf(n), KeyOf(n), ValueOf(n, request, m));
    }
  }

  lemma ValueClean(n: nat, request: string, m: Material)
    requires Certificates(m) && Without(request, '<')
    ensures Without(ValueOf(n, request, m), '<')
  {
    hide Escaped, Stripped, Without;
    EscapedHasNoTag(m.hostId);
    EscapedHasNoTag(m.systemBuid);
  }

  lemma KeysDiffer(n: nat, k: nat)
    requires IsEntry(n) && IsEntry(k) && n < k
    ensures KeyOf(n) != KeyOf(k)
  {
    assert "RootCertificate"[0] == 'R';
  }

  lemma HeadKeyFree(key: string)
    requires key != "Label" && key != "PairRecord"
    ensures KeyFree(HeadTags(), key)
  {
    assert forall t <- HeadTags() :: t.name == "key" ==> t.text == "Label" || t.text == "PairRecord";
  }

  lemma EntryKeyFree(kind: string, name: string, value: string, key: string)
    requires name != key && kind != "key"
    ensures KeyFree(Entry(kind, name, value), key)
  {
    var e := Entry(kind, name, value);
    assert "/" + kind != "key" by {
      assert ("/" + kind)[0] == '/';
    }
    assert e[0] != Tag("key", key) && e[1] != Tag("key", key) && e[2] != Tag("key", key) && e[3] != Tag("key", key);
  }

  lemma PartKeyFree(n: nat, request: string, m: Material, key: string)
    requires key != "Label" && key != "PairRecord" && (IsEntry(n) ==> KeyOf(n) != key) && n <= 7
    ensures KeyFree(Part(n, request, m), key)
  {
    hide Plain, HeadTags, Entry, Escaped;
    if n == 0 {
      HeadKeyFree(key);
    } else if n != 6 {
      EntryKeyFree(KindOf(n), KeyOf(n), ValueOf(n, request, m), key);
    }
  }

  /** Before the `k`-th entry the document has no key of that name and no stray markup. */
  lemma {:induction false} Before(n: nat, request: string, m: Material, key: string)
    requires Certificates(m) && Without(request, '<') && n <= 7
    requires key != "Label" && key != "PairRecord"
    requires forall i :: 1 <= i <= n && IsEntry(i) ==> KeyOf(i) != key
    ensures AllClean(Through(n, request, m)) && KeyFree(Through(n, request, m), key)
  {
    hide Part, KeyOf, Certificates, Without, AllClean, KeyFree;
    PartClean(n, request, m);
    PartKeyFree(n, request, m, key);
    if n > 0 {
      Before(n - 1, request, m, key);
      KeyFreeAppend(Through(n - 1, request, m), Part(n, request, m), key);
    }
  }

  /** Every entry of a built document is found under its key, with the value put in. */
  lemma EntryFound(n: nat, request: string, m: Material, extended: bool)
    requires IsEntry(n) && Certificates(m) && Without(request, '<')
    ensures FindValue(RequestXml(request, m, extended), KeyOf(n), KindOf(n)) == Some(ValueOf(n, request, m))
  {
    hide Certificates, Render, Through, Without, FindValue, Entry, Plain, ValueOf, RequestXml, AllClean, KeyFree, Escaped;
    hide KeyOf;
    var xml := RequestXml(request, m, extended);
    forall i | 1 <= i <= n - 1 && IsEntry(i) ensures KeyOf(i) != KeyOf(n) {
      KeysDiffer(i, n);
    }
    NotHeadKey(n);
    Before(n - 1, request, m, KeyOf(n));
    Grows(n - 1, request, m);
    PrefixOfRequest(n, request, m, extended);
    KeysPlain(n);
    KindsPlain(n);
    PlainText(KeyOf(n));
    ValueClean(n, request, m);
    ValueFound(xml, Through(n - 1, request, m), KindOf(n), KeyOf(n), ValueOf(n, request, m));
  }

  lemma NotHeadKey(n: nat)
    ensures KeyOf(n) != "Label" && KeyOf(n) != "PairRecord" && KeyOf(n) != "Error"
  {
  }

  lemma KindsPlain(n: nat)
    ensures Plain(KindOf(n)) && KindOf(n) != "key" && KindOf(n) != "/key"
  {
    hide Plain;
    FixedNames();
  }

  /** Reading a request back: every value extracted is the one that was put in, given room. */
  lemma PairingRoundTrip(request: string, m: Material, extended: bool, cap: nat)
    requires Buildable(request, m) && Certificates(m) && Without(request, '<')
    ensures var xml := RequestXml(request, m, extended);
      && (|m.hostId| < cap ==> StringValue(xml, "HostID", cap) == Some(m.hostId))
      && (|m.systemBuid| < cap ==> StringValue(xml, "SystemBUID", cap) == Some(m.systemBuid))
      && (|request| < cap && '&' !in request ==> StringValue(xml, "Request", cap) == Some(request))
      && (|m.deviceCertificate| < cap ==> DataValue(xml, "DeviceCertificate", cap) == Some(m.deviceCertificate))
      && (|m.hostCertificate| < cap ==> DataValue(xml, "HostCertificate", cap) == Some(m.hostCertificate))
      && (|m.rootCertificate| < cap ==> DataValue(xml, "RootCertificate", cap) == Some(m.rootCertificate))
  {
    hide FindValue, Escaped, Unescaped, Stripped, RequestXml, Without;
    forall n | IsEntry(n)
      ensures FindValue(RequestXml(request, m, extended), KeyOf(n), KindOf(n)) == Some(ValueOf(n, request, m))
    {
      EntryFound(n, request, m, extended);
    }
    var xml := RequestXml(request, m, extended);
    assert FindValue(xml, KeyOf(1), KindOf(1)) == Some(m.deviceCertificate);
    assert FindValue(xml, KeyOf(2), KindOf(2)) == Some(m.hostCertificate);
    assert FindValue(xml, KeyOf(3), KindOf(3)) == Some(Escaped(m.hostId));
    assert FindValue(xml, KeyOf(4), KindOf(4)) == Some(m.rootCertificate);
    assert FindValue(xml, KeyOf(5), KindOf(5)) == Some(Escaped(m.systemBuid));
    assert FindValue(xml, KeyOf(7), KindOf(7)) == Some(request);
    UnescapeEscaped(m.hostId);
    UnescapeEscaped(m.systemBuid);
    EmptyEscapes(m);
    if '&' !in request {
      UnescapePlain(request);
    }
  }

  lemma EmptyEscapes(m: Material)
    ensures Escaped(m.hostId) != "" ==> |m.hostId| >= 1
    ensures Escaped(m.systemBuid) != "" ==> |m.systemBuid| >= 1
  {
  }

  lemma {:induction false} UnescapePlain(s: string)
    requires '&' !in s
    ensures Unescaped(s) == Some(s)
  {
    if s != "" {
      UnescapePlain(s[1..]);
      assert [s[0]] + s[1..] == s;
    }
  }

  // --------------------------------------------------------------------- replies

  datatype PairReply = Invalid | Success | PendingTrust | Denied | InvalidHost | Error

  predicate ReplyMatches(xml: string, expected: string) {
    expected == "" || StringValue(xml, "Request", 64) == Some(expected)
  }

  function ParsePairingReplyXml(xml: string, expected: string): (r: PairReply)
    ensures r == Success ==> ReplyMatches(xml, expected) && !Contains(xml, "<key>Error</key>")
  {
    if !Contains(xml, "<plist") || !ReplyMatches(xml, expected) then Invalid
    else if Contains(xml, "<key>Error</key>") then
      if Contains(xml, "PairingDialogResponsePending")
         || (!Contains(xml, "UserDeniedPairing") && Contains(xml, "PairingDialog")) then PendingTrust
      else if Contains(xml, "UserDeniedPairing") then Denied
      else if Contains(xml, "InvalidHostID") || Contains(xml, "MissingHostID")
              || Contains(xml, "InvalidPairRecord") then InvalidHost
      else Error
    else Success
  }

  lemma {:induction false} FindFromFinds(s: string, needle: string, i: nat, j: nat)
    requires i <= j && OccursAt(s, needle, j)
    ensures FindFrom(s, needle, i).Some?
    decreases j - i
  {
    if i < j {
      FindFromFinds(s, needle, i + 1, j);
    }
  }

  lemma TailClean(extended: bool)
    ensures AllClean(TailTags(extended)) && KeyFree(TailTags(extended), "Error")
  {
    hide Plain, Entry;
    FixedNames();
    FixedKeys();
    OptionKeys();
    PlainNames();
    PlainText("ProtocolVersion");
    PlainText("2");
    EntryClean("string", "ProtocolVersion", "2");
    EntryKeyFree("string", "ProtocolVersion", "2", "Error");
    OptionsClean(extended);
    KeyFreeAppend(Version(), Options(extended), "Error");
    PlainTag("/dict", "");
    PlainTag("/plist", "");
    KeyFreeAppend(Version() + Options(extended), Ends(), "Error");
  }

  lemma OptionsClean(extended: bool)
    ensures AllClean(Options(extended)) && KeyFree(Options(extended), "Error")
  {
    hide Plain;
    FixedNames();
    OptionKeys();
    PlainNames();
    PlainText("PairingOptions");
    PlainText("ExtendedPairingErrors");
    PlainTag("key", "PairingOptions");
    PlainTag("key", "ExtendedPairingErrors");
    PlainTag("/key", "");
    PlainTag("dict", "");
    PlainTag("/dict", "");
    PlainTag("true/", "");
  }

  /** No request document holds an Error key. */
  lemma NoErrorKey(request: string, m: Material, extended: bool)
    requires Certificates(m) && Without(request, '<')
    ensures !Contains(RequestXml(request, m, extended), "<key>Error</key>")
  {
    hide Certificates, Without, Part, Through, TailTags, KeyOf, FindFrom, Render, AllClean, KeyFree;
    var xml, tags := RequestXml(request, m, extended), RequestTags(request, m, extended);
    forall i | 1 <= i <= 7 && IsEntry(i) ensures KeyOf(i) != "Error" {
      NotHeadKey(i);
    }
    Before(7, request, m, "Error");
    TailClean(extended);
    KeyFreeAppend(Through(7, request, m), TailTags(extended), "Error");
    assert OccursAt(xml, Render(tags), 0);
    OptionKeys();
    PlainText("Error");
    FindKeyAfter(xml, 0, tags, "Error");
    NothingAtEnd(xml, KeyNeedle("Error"));
    assert KeyNeedle("Error") == "<key>Error</key>";
  }

  lemma NothingAtEnd(s: string, needle: string)
    requires needle != ""
    ensures FindFrom(s, needle, |s|) == None
  {
  }

  lemma HasPlist(request: string, m: Material, extended: bool)
    ensures Contains(RequestXml(request, m, extended), "<plist")
  {
    hide FindFrom, Through, RequestXml, HeadTags, Render, OccursAt;
    PlistInHead();
    var xml, pre := RequestXml(request, m, extended), Render(HeadTags()[..2]);
    PrefixOfRequest(0, request, m, extended);
    HeadText(request, m);
    SplitDoc(xml, pre, "<plist");
    FindFromFinds(xml, "<plist", 0, |pre|);
  }

  lemma PlistInHead()
    ensures |HeadTags()| > 2 && Render(HeadTags()[..2]) + "<plist" <= Render(HeadTags())
  {
    hide Render;
    var head := HeadTags();
    assert head[..2] + head[2..] == head;
    RenderAppend(head[..2], head[2..]);
    PlistTag(head[2..]);
  }

  lemma PlistTag(rest: seq<Tag>)
    requires rest != [] && rest[0] == Tag("plist version=\"1.0\"", "")
    ensures "<plist" <= Render(rest)
  {
    assert "<plist" <= RenderTag(rest[0]);
  }

  /**
   A reply that only echoes a request document counts as success exactly when it
   answers the request that was expected.
   */
  lemma EchoAnswersOnlyItself(request: string, m: Material, extended: bool, expected: string)
    requires Buildable(request, m) && Certificates(m) && Without(request, '<') && '&' !in request
    requires expected != "" && |request| < 64
    ensures ParsePairingReplyXml(RequestXml(request, m, extended), expected)
         == if expected == request then Success else Invalid
  {
    hide FindFrom, RequestXml, Contains, Certificates, StringValue, DataValue, Buildable;
    PairingRoundTrip(request, m, extended, 64);
    NoErrorKey(request, m, extended);
    HasPlist(request, m, extended);
  }
}
