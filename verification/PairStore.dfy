/**
 The stored pair record (src/pair_store.cpp): a text of key=value lines behind a
 magic line, written into a fixed buffer and read back line by line.
 */
module PairStore {
  import opened Bytes
  import opened PairIdentity
  import opened PairProtocol

  const MAGIC := "IT360PAIR1"
  const TEXT_MAX := 65536

  datatype StoredPairRecord = Stored(udid: string, identity: Identity, escrowBag: string, wifiAddress: string)

  // --------------------------------------------------------------------- the text

  function Line(key: string, value: string): string {
    key + "=" + value + "\n"
  }

  function Lines(fields: seq<(string, string)>): string {
    if fields == [] then "" else Line(fields[0].0, fields[0].1) + Lines(fields[1..])
  }

  function Fields(r: StoredPairRecord): (f: seq<(string, string)>)
    ensures |f| == 10
  {
    [("UDID", r.udid), ("HostID", r.identity.hostId), ("SystemBUID", r.identity.systemBuid),
     ("RootCertificate", r.identity.rootCertificate), ("RootPrivateKey", r.identity.rootKey),
     ("HostCertificate", r.identity.hostCertificate), ("HostPrivateKey", r.identity.hostKey),
     ("DeviceCertificate", r.identity.deviceCertificate), ("EscrowBag", r.escrowBag),
     ("WiFiAddress", r.wifiAddress)]
  }

  function RecordText(r: StoredPairRecord): string {
    MAGIC + "\n" + Lines(Fields(r))
  }

  /** The capacities of the record's character arrays, the closing NUL included. */
  function FieldMax(i: nat): nat {
    if i == 0 then 96 else if i == 1 || i == 2 || i == 9 then 64 else if i == 8 then 16384 else 8192
  }

  ghost predicate Sized(r: StoredPairRecord) {
    forall i :: 0 <= i < 10 ==> |Fields(r)[i].1| < FieldMax(i)
  }

  ghost predicate OneLine(fields: seq<(string, string)>) {
    forall i :: 0 <= i < |fields| ==> '\n' !in fields[i].1
  }

  /** Both optional fields may be empty; reading demands all others. */
  ghost predicate Complete(r: StoredPairRecord) {
    forall i :: 0 <= i < 8 ==> Fields(r)[i].1 != ""
  }

  // --------------------------------------------------------------------- writing

  function AddLine(buf: Option<string>, key: string, value: string, cap: nat): Option<string> {
    Append(Append(Append(Append(buf, key, cap), "=", cap), value, cap), "\n", cap)
  }

  /** A text that fits a buffer; None stands for a failed append. */
  function Fitting(s: string, cap: nat): Option<string> {
    if |s| + 1 <= cap then Some(s) else None
  }

  function Upto(r: StoredPairRecord, n: nat): string
    requires n <= 10
  {
    MAGIC + "\n" + Lines(Fields(r)[..n])
  }

  lemma {:induction false} LinesSnoc(fields: seq<(string, string)>, key: string, value: string)
    ensures Lines(fields + [(key, value)]) == Lines(fields) + Line(key, value)
  {
    if fields == [] {
      assert [(key, value)][1..] == [] && Line(key, value) + "" == Line(key, value);
      assert fields + [(key, value)] == [(key, value)];
    } else {
      assert (fields + [(key, value)])[1..] == fields[1..] + [(key, value)];
      LinesSnoc(fields[1..], key, value);
    }
  }

  lemma NextLine(p: Option<string>, r: StoredPairRecord, n: nat, key: string, value: string, cap: nat)
    requires n < 10 && Fields(r)[n] == (key, value) && p == Fitting(Upto(r, n), cap)
    ensures AddLine(p, key, value, cap) == Fitting(Upto(r, n + 1), cap)
  {
    hide Line;
    AddLineAdds(p, key, value, cap);
    LinesSnoc(Fields(r)[..n], key, value);
    assert Fields(r)[..n] + [(key, value)] == Fields(r)[..n + 1];
    assert Upto(r, n + 1) == Upto(r, n) + Line(key, value);
  }

  lemma AddLineAdds(buf: Option<string>, key: string, value: string, cap: nat)
    ensures AddLine(buf, key, value, cap) == Append(buf, Line(key, value), cap)
  {
    if buf.Some? {
      assert buf.value + key + "=" + value + "\n" == buf.value + Line(key, value);
    }
  }

  function Serialized(r: StoredPairRecord, cap: nat): Option<string> {
    if cap < 2 || r.udid == "" || r.identity.hostId == "" || r.identity.systemBuid == "" || |RecordText(r)| + 1 > cap
    then None else Some(RecordText(r))
  }

  method SerializePairRecord(r: StoredPairRecord, cap: nat) returns (text: Option<string>)
    ensures text == Serialized(r, cap)
  {
    if cap < 2 || r.udid == "" || r.identity.hostId == "" || r.identity.systemBuid == "" {
      return None;
    }
    hide AddLine, Lines, Upto, Fields, Fitting, RecordText, Append;
    TenFields(r);
    var p := Append(Some(""), MAGIC, cap);
    p := Append(p, "\n", cap);
    HeadFits(p, r, cap);
    NextLine(p, r, 0, "UDID", r.udid, cap);
    p := AddLine(p, "UDID", r.udid, cap);
    NextLine(p, r, 1, "HostID", r.identity.hostId, cap);
    p := AddLine(p, "HostID", r.identity.hostId, cap);
    NextLine(p, r, 2, "SystemBUID", r.identity.systemBuid, cap);
    p := AddLine(p, "SystemBUID", r.identity.systemBuid, cap);
    NextLine(p, r, 3, "RootCertificate", r.identity.rootCertificate, cap);
    p := AddLine(p, "RootCertificate", r.identity.rootCertificate, cap);
    NextLine(p, r, 4, "RootPrivateKey", r.identity.rootKey, cap);
    p := AddLine(p, "RootPrivateKey", r.identity.rootKey, cap);
    NextLine(p, r, 5, "HostCertificate", r.identity.hostCertificate, cap);
    p := AddLine(p, "HostCertificate", r.identity.hostCertificate, cap);
    NextLine(p, r, 6, "HostPrivateKey", r.identity.hostKey, cap);
    p := AddLine(p, "HostPrivateKey", r.identity.hostKey, cap);
    NextLine(p, r, 7, "DeviceCertificate", r.identity.deviceCertificate, cap);
    p := AddLine(p, "DeviceCertificate", r.identity.deviceCertificate, cap);
    NextLine(p, r, 8, "EscrowBag", r.escrowBag, cap);
    p := AddLine(p, "EscrowBag", r.escrowBag, cap);
    NextLine(p, r, 9, "WiFiAddress", r.wifiAddress, cap);
    p := AddLine(p, "WiFiAddress", r.wifiAddress, cap);
    WholeText(r);
    FittingText(RecordText(r), cap);
    return p;
  }

  lemma FittingText(s: string, cap: nat)
    ensures Fitting(s, cap) == if |s| + 1 > cap then None else Some(s)
  {
  }

  lemma TenFields(r: StoredPairRecord)
    ensures Fields(r)[0] == ("UDID", r.udid)
    ensures Fields(r)[1] == ("HostID", r.identity.hostId)
    ensures Fields(r)[2] == ("SystemBUID", r.identity.systemBuid)
    ensures Fields(r)[3] == ("RootCertificate", r.identity.rootCertificate)
    ensures Fields(r)[4] == ("RootPrivateKey", r.identity.rootKey)
    ensures Fields(r)[5] == ("HostCertificate", r.identity.hostCertificate)
    ensures Fields(r)[6] == ("HostPrivateKey", r.identity.hostKey)
    ensures Fields(r)[7] == ("DeviceCertificate", r.identity.deviceCertificate)
    ensures Fields(r)[8] == ("EscrowBag", r.escrowBag)
    ensures Fields(r)[9] == ("WiFiAddress", r.wifiAddress)
  {
  }

  lemma HeadFits(p: Option<string>, r: StoredPairRecord, cap: nat)
    requires p == Append(Append(Some(""), MAGIC, cap), "\n", cap)
    ensures p == Fitting(Upto(r, 0), cap)
  {
    assert "" + MAGIC + "\n" == Upto(r, 0);
  }

  lemma WholeText(r: StoredPairRecord)
    ensures Upto(r, 10) == RecordText(r)
  {
    assert Fields(r)[..10] == Fields(r);
  }

  // --------------------------------------------------------------------- reading

  /** The position of the first newline, or the end. */
  function LineEnd(s: string): (n: nat)
    ensures n <= |s| && (n < |s| ==> s[n] == '\n') && '\n' !in s[..n]
  {
    if s == "" || s[0] == '\n' then 0
    else
      assert s[..1 + LineEnd(s[1..])] == [s[0]] + s[1..][..LineEnd(s[1..])];
      1 + LineEnd(s[1..])
  }

  predicate IsLineOf(line: string, key: string) {
    |line| > |key| && line[..|key|] == key && line[|key|] == '='
  }

  function LineValue(text: string, key: string): Option<string>
    decreases |text|
  {
    if text == "" then None
    else
      var e := LineEnd(text);
      if IsLineOf(text[..e], key) then Some(text[|key| + 1..e])
      else if e == |text| then None
      else LineValue(text[e + 1..], key)
  }

  function Field(text: string, key: string, cap: nat, required: bool): Option<string> {
    var v := LineValue(text, key);
    if v.None? then if required || cap == 0 then None else Some("")
    else if |v.value| + 1 > cap || (required && v.value == "") then None
    else v
  }

  /** strchr for the end of the first line. */
  method FindLineEnd(s: string) returns (e: nat)
    ensures e == LineEnd(s)
  {
    hide LineEnd;
    e := 0;
    while e < |s| && s[e] != '\n'
      invariant 0 <= e <= |s| && '\n' !in s[..e]
    {
      assert s[..e + 1] == s[..e] + [s[e]];
      e := e + 1;
    }
    EndOfLine(s, e);
  }

  /** `p` is the text from the source's pointer on. */
  method FindLineValue(text: string, key: string) returns (r: Option<string>)
    ensures r == LineValue(text, key)
  {
    hide LineValue, LineEnd;
    var p := text;
    while p != ""
      invariant LineValue(p, key) == LineValue(text, key)
      decreases |p|
    {
      var e := FindLineEnd(p);
      LineUnfolds(p, key);
      if e > |key| {
        assert p[..e][..|key|] == p[..|key|];
        if p[..|key|] == key && p[|key|] == '=' {
          return Some(p[|key| + 1..e]);
        }
      }
      if e == |p| {
        break;
      }
      p := p[e + 1..];
    }
    NoLine(key);
    return None;
  }

  lemma NoLine(key: string)
    ensures LineValue("", key) == None
  {
  }

  lemma LineUnfolds(s: string, key: string)
    requires s != ""
    ensures IsLineOf(s[..LineEnd(s)], key) ==> LineValue(s, key) == Some(s[|key| + 1..LineEnd(s)])
    ensures !IsLineOf(s[..LineEnd(s)], key) && LineEnd(s) == |s| ==> LineValue(s, key) == None
    ensures !IsLineOf(s[..LineEnd(s)], key) && LineEnd(s) < |s| ==>
      LineValue(s, key) == LineValue(s[LineEnd(s) + 1..], key)
  {
    hide LineEnd;
  }

  lemma {:induction false} EndOfLine(s: string, n: nat)
    requires n <= |s| && '\n' !in s[..n] && (n < |s| ==> s[n] == '\n')
    ensures LineEnd(s) == n
    decreases n
  {
    if n > 0 {
      assert s[0] == s[..n][0];
      assert s[1..][..n - 1] == s[..n][1..];
      EndOfLine(s[1..], n - 1);
    }
  }

  method GetLine(text: string, key: string, cap: nat, required: bool) returns (r: Option<string>)
    ensures r == Field(text, key, cap, required)
  {
    hide LineValue;
    var v := FindLineValue(text, key);
    if v.None? {
      return if required || cap == 0 then None else Some("");
    }
    if |v.value| + 1 > cap {
      return None;
    }
    return if required && v.value == "" then None else v;
  }

  function Deserialized(text: string): Option<StoredPairRecord> {
    if |text| <= |MAGIC| || text[..|MAGIC|] != MAGIC || text[|MAGIC|] != '\n' then None
    else
      var udid := Field(text, "UDID", 96, true);
      var hostId := Field(text, "HostID", 64, true);
      var systemBuid := Field(text, "SystemBUID", 64, true);
      var rootCertificate := Field(text, "RootCertificate", 8192, true);
      var rootKey := Field(text, "RootPrivateKey", 8192, true);
      var hostCertificate := Field(text, "HostCertificate", 8192, true);
      var hostKey := Field(text, "HostPrivateKey", 8192, true);
      var deviceCertificate := Field(text, "DeviceCertificate", 8192, true);
      var escrowBag := Field(text, "EscrowBag", 16384, false);
      var wifiAddress := Field(text, "WiFiAddress", 64, false);
      if udid.None? || hostId.None? || systemBuid.None? || rootCertificate.None? || rootKey.None?
         || hostCertificate.None? || hostKey.None? || deviceCertificate.None? || escrowBag.None? || wifiAddress.None?
      then None
      else Some(Stored(udid.value,
                       Identity(hostId.value, systemBuid.value, rootCertificate.value, rootKey.value,
                                hostCertificate.value, hostKey.value, deviceCertificate.value),
                       escrowBag.value, wifiAddress.value))
  }

  method DeserializePairRecord(text: string) returns (r: Option<StoredPairRecord>)
    ensures r == Deserialized(text)
  {
    hide Field;
    if |text| <= |MAGIC| || text[..|MAGIC|] != MAGIC || text[|MAGIC|] != '\n' {
      return None;
    }
    var udid := GetLine(text, "UDID", 96, true);
    if udid.None? { return None; }
    var hostId := GetLine(text, "HostID", 64, true);
    if hostId.None? { return None; }
    var systemBuid := GetLine(text, "SystemBUID", 64, true);
    if systemBuid.None? { return None; }
    var rootCertificate := GetLine(text, "RootCertificate", 8192, true);
    if rootCertificate.None? { return None; }
    var rootKey := GetLine(text, "RootPrivateKey", 8192, true);
    if rootKey.None? { return None; }
    var hostCertificate := GetLine(text, "HostCertificate", 8192, true);
    if hostCertificate.None? { return None; }
    var hostKey := GetLine(text, "HostPrivateKey", 8192, true);
    if hostKey.None? { return None; }
    var deviceCertificate := GetLine(text, "DeviceCertificate", 8192, true);
    if deviceCertificate.None? { return None; }
    var escrowBag := GetLine(text, "EscrowBag", 16384, false);
    if escrowBag.None? { return None; }
    var wifiAddress := GetLine(text, "WiFiAddress", 64, false);
    if wifiAddress.None? { return None; }
    var identity := Identity(hostId.value, systemBuid.value, rootCertificate.value, rootKey.value,
                             hostCertificate.value, hostKey.value, deviceCertificate.value);
    return Some(Stored(udid.value, identity, escrowBag.value, wifiAddress.value));
  }

  // ------------------------------------------------------------------ round trip

  predicate KeyName(key: string) {
    '=' !in key && '\n' !in key
  }

  /** A line belongs to the key before its first "=", whatever its value holds. */
  lemma LineOfKey(k: string, v: string, key: string)
    requires KeyName(k) && KeyName(key)
    ensures IsLineOf(k + "=" + v, key) <==> k == key
  {
    var line := k + "=" + v;
    assert line[|k|] == '=' && line[..|k|] == k;
    if IsLineOf(line, key) {
      if |key| < |k| {
        assert false;
      } else if |key| > |k| {
        assert false;
      }
    }
  }

  lemma FirstLine(k: string, v: string, rest: string, key: string)
    requires KeyName(k) && KeyName(key) && '\n' !in v
    ensures LineValue(Line(k, v) + rest, key) == if k == key then Some(v) else LineValue(rest, key)
  {
    hide LineValue, LineEnd, KeyName, IsLineOf;
    var line := k + "=" + v;
    var s := Line(k, v) + rest;
    assert s == line + "\n" + rest;
    assert s[..|line|] == line && s[|line|] == '\n' && s[|line| + 1..] == rest;
    NoNewline(k, v);
    EndOfLine(s, |line|);
    LineOfKey(k, v, key);
    LineUnfolds(s, key);
    if k == key {
      assert s[|key| + 1..|line|] == v;
    }
  }

  lemma NoNewline(k: string, v: string)
    requires KeyName(k) && '\n' !in v
    ensures '\n' !in k + "=" + v
  {
  }

  /** Each field is found under its key: the first line with that key wins. */
  lemma {:induction false} FieldFound(fields: seq<(string, string)>, n: nat)
    requires n < |fields| && OneLine(fields)
    requires forall i :: 0 <= i <= n ==> KeyName(fields[i].0)
    requires forall i :: 0 <= i < n ==> fields[i].0 != fields[n].0
    ensures LineValue(Lines(fields), fields[n].0) == Some(fields[n].1)
    decreases n
  {
    hide LineValue, KeyName, Line;
    FirstLine(fields[0].0, fields[0].1, Lines(fields[1..]), fields[n].0);
    if n > 0 {
      var rest := fields[1..];
      assert rest[n - 1] == fields[n];
      assert forall i :: 0 <= i < n - 1 ==> rest[i] == fields[i + 1];
      FieldFound(rest, n - 1);
    }
  }

  lemma MagicSkipped(rest: string, key: string)
    requires KeyName(key) && key != MAGIC
    ensures LineValue(MAGIC + "\n" + rest, key) == LineValue(rest, key)
  {
    hide LineValue, LineEnd;
    var s := MAGIC + "\n" + rest;
    assert s[..|MAGIC|] == MAGIC && s[|MAGIC|] == '\n' && s[|MAGIC| + 1..] == rest;
    EndOfLine(s, |MAGIC|);
    LineUnfolds(s, key);
  }

  lemma RecordKeys(r: StoredPairRecord, n: nat)
    requires n < 10
    ensures KeyName(Fields(r)[n].0) && Fields(r)[n].0 != MAGIC
  {
    NamesA();
    NamesB();
  }

  lemma NamesA()
    ensures KeyName("UDID") && KeyName("HostID") && KeyName("SystemBUID") && KeyName("RootCertificate")
    ensures KeyName("RootPrivateKey")
  {
  }

  lemma NamesB()
    ensures KeyName("HostCertificate") && KeyName("HostPrivateKey") && KeyName("DeviceCertificate")
    ensures KeyName("EscrowBag") && KeyName("WiFiAddress")
  {
  }

  lemma KeysDiffer(r: StoredPairRecord, i: nat, n: nat)
    requires i < n < 10
    ensures Fields(r)[i].0 != Fields(r)[n].0
  {
    assert "HostCertificate"[0] == 'H' && "HostPrivateKey"[4] == 'P';
  }

  lemma RecordField(r: StoredPairRecord, n: nat)
    requires n < 10 && OneLine(Fields(r))
    ensures LineValue(RecordText(r), Fields(r)[n].0) == Some(Fields(r)[n].1)
  {
    hide LineValue, KeyName, Lines, Fields;
    forall i | 0 <= i <= n ensures KeyName(Fields(r)[i].0) {
      RecordKeys(r, i);
    }
    forall i | 0 <= i < n ensures Fields(r)[i].0 != Fields(r)[n].0 {
      KeysDiffer(r, i, n);
    }
    RecordKeys(r, n);
    MagicSkipped(Lines(Fields(r)), Fields(r)[n].0);
    FieldFound(Fields(r), n);
  }

  /** What reading makes of a field of the stored text. */
  lemma FieldRead(r: StoredPairRecord, n: nat)
    requires n < 10 && OneLine(Fields(r)) && Sized(r)
    ensures Field(RecordText(r), Fields(r)[n].0, FieldMax(n), n < 8) ==
            if n < 8 && Fields(r)[n].1 == "" then None else Some(Fields(r)[n].1)
  {
    hide LineValue, RecordText, Fields, FieldMax;
    RecordField(r, n);
  }

  lemma MagicLine(r: StoredPairRecord)
    ensures |RecordText(r)| > |MAGIC| && RecordText(r)[..|MAGIC|] == MAGIC && RecordText(r)[|MAGIC|] == '\n'
  {
    hide Lines, Fields;
    var text := RecordText(r);
    assert text == MAGIC + ("\n" + Lines(Fields(r)));
  }

  /**
   Reading back a stored record gives it exactly when all its required fields are
   filled; values may hold "=", and the optional fields may be empty.
   */
  lemma RoundTripIff(r: StoredPairRecord)
    requires Sized(r) && OneLine(Fields(r))
    ensures Deserialized(RecordText(r)) == if Complete(r) then Some(r) else None
  {
    hide Field, RecordText, Fields;
    MagicLine(r);
    TenFields(r);
    forall n | 0 <= n < 10
      ensures Field(RecordText(r), Fields(r)[n].0, FieldMax(n), n < 8) ==
              if n < 8 && Fields(r)[n].1 == "" then None else Some(Fields(r)[n].1)
    {
      FieldRead(r, n);
    }
  }

  /** The most that the first `n` lines and the magic line can take. */
  function Room(n: nat): nat {
    if n == 0 then 11 else Room(n - 1) + FieldMax(n - 1) + 18
  }

  lemma {:induction false} UptoLength(r: StoredPairRecord, n: nat)
    requires n <= 10 && Sized(r)
    ensures |Upto(r, n)| <= Room(n)
  {
    hide Fields, FieldMax;
    if n == 0 {
      assert Fields(r)[..0] == [];
    } else {
      var f := Fields(r)[n - 1];
      UptoLength(r, n - 1);
      assert Fields(r)[..n] == Fields(r)[..n - 1] + [(f.0, f.1)];
      LinesSnoc(Fields(r)[..n - 1], f.0, f.1);
      ShortKeys(r, n - 1);
      assert |f.1| < FieldMax(n - 1);
    }
  }

  lemma ShortKeys(r: StoredPairRecord, n: nat)
    requires n < 10
    ensures |Fields(r)[n].0| <= 17
  {
  }

  lemma TextSize(r: StoredPairRecord)
    requires Sized(r)
    ensures |RecordText(r)| + 1 <= TEXT_MAX
  {
    hide RecordText, Fields;
    UptoLength(r, 10);
    WholeText(r);
    assert Room(3) == 289 && Room(5) == 16709 && Room(7) == 33129 && Room(9) == 57741;
  }

  /** Every record of fields that fit their arrays fits the file buffer. */
  lemma AlwaysFits(r: StoredPairRecord)
    requires Sized(r) && Complete(r)
    ensures Serialized(r, TEXT_MAX) == Some(RecordText(r))
  {
    hide RecordText;
    TextSize(r);
    assert Fields(r)[0].1 != "" && Fields(r)[1].1 != "" && Fields(r)[2].1 != "";
  }
}
