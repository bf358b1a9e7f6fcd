/** Upserting `created` and `modified`: what a stamp changes, what it keeps, and when it rests. */
module Stamping {
  import opened Options
  import opened Decimal
  import opened Calendar
  import opened Frontmatter
  import opened Yaml

  const CREATED: string := "created"
  const MODIFIED: string := "modified"

  // ---- Values ----------------------------------------------------------------------------

  /** The scalar a value stands for: single quotes are not part of it. */
  function Scalar(raw: string): string {
    if |raw| >= 2 && raw[0] == '\'' && raw[|raw| - 1] == '\'' then raw[1..|raw| - 1] else raw
  }

  /** What counts as no value. */
  predicate Falsy(raw: string) {
    Scalar(raw) == "" || raw in {"~", "null", "Null", "NULL", "false", "False", "FALSE", "0"}
  }

  function Get(d: Data, key: string): string {
    if d == [] then "" else if d[0].key == key then d[0].raw else Get(d[1..], key)
  }

  function Set(d: Data, key: string, raw: string): Data {
    if d == [] then [Entry(key, raw)]
    else if d[0].key == key then [Entry(key, raw)] + d[1..]
    else [d[0]] + Set(d[1..], key, raw)
  }

  /** The whole second `modified` stands for, if it is there and in the Linter form. */
  function ModifiedEpoch(d: Data): Option<int> {
    var raw := Get(d, MODIFIED);
    if Falsy(raw) then None else Parse(Scalar(raw))
  }

  // ---- Quotes ----------------------------------------------------------------------------

  /** `\d{4}-\d{2}-\d{2}T\d{2}:\d{2}:\d{2}Z` */
  predicate TimestampShape(s: string) {
    && |s| == 20
    && s[4] == '-' && s[7] == '-' && s[10] == 'T' && s[13] == ':' && s[16] == ':' && s[19] == 'Z'
    && forall i | i in {0, 1, 2, 3, 5, 6, 8, 9, 11, 12, 14, 15, 17, 18} :: IsDigit(s[i])
  }

  /** The shape, part by part. */
  lemma ShapeExactly(s: string)
    ensures TimestampShape(s) <==>
              && |s| == 20
              && AllDigits(s[..4]) && AllDigits(s[5..7]) && AllDigits(s[8..10])
              && AllDigits(s[11..13]) && AllDigits(s[14..16]) && AllDigits(s[17..19])
              && s == s[..4] + "-" + s[5..7] + "-" + s[8..10] + "T" + s[11..13] + ":" + s[14..16] + ":" + s[17..19] + "Z"
  {
    if |s| == 20 {
      var whole := s[..4] + "-" + s[5..7] + "-" + s[8..10] + "T" + s[11..13] + ":" + s[14..16] + ":" + s[17..19] + "Z";
      assert |whole| == 20;
      assert whole[4] == '-' && whole[7] == '-' && whole[10] == 'T' && whole[13] == ':' && whole[16] == ':' && whole[19] == 'Z';
      if TimestampShape(s) {
        assert s == whole;
      }
      assert s[..4][0] == s[0] && s[..4][1] == s[1] && s[..4][2] == s[2] && s[..4][3] == s[3];
      assert s[5..7][0] == s[5] && s[5..7][1] == s[6] && s[8..10][0] == s[8] && s[8..10][1] == s[9];
      assert s[11..13][0] == s[11] && s[11..13][1] == s[12] && s[14..16][0] == s[14] && s[14..16][1] == s[15];
      assert s[17..19][0] == s[17] && s[17..19][1] == s[18];
    }
  }

  /** The line is `key: '<timestamp>'`. */
  predicate QuotedStamp(line: string, key: string) {
    && |line| == |key| + 24
    && line[..|key| + 3] == key + ": '"
    && TimestampShape(line[|key| + 3..|key| + 23])
    && line[|key| + 23] == '\''
  }

  function UnquoteLine(line: string): string {
    if QuotedStamp(line, CREATED) then CREATED + ": " + line[10..30]
    else if QuotedStamp(line, MODIFIED) then MODIFIED + ": " + line[11..31]
    else line
  }

  /** `TS_PATTERN.sub`, line by line. */
  function Unquote(text: string): string
    decreases |text|
  {
    var k := IndexOf(text, '\n');
    if k == |text| then UnquoteLine(text)
    else UnquoteLine(text[..k]) + "\n" + Unquote(text[k + 1..])
  }

  /** The same on an entry. */
  function UnquoteEntry(e: Entry): Entry {
    if (e.key == CREATED || e.key == MODIFIED) && QuotedRaw(e.raw) then e.(raw := Scalar(e.raw)) else e
  }

  predicate QuotedRaw(raw: string) {
    |raw| == 22 && raw[0] == '\'' && raw[21] == '\'' && TimestampShape(raw[1..21])
  }

  function UnquoteData(d: Data): (u: Data)
    ensures |u| == |d| && forall i | 0 <= i < |d| :: u[i] == UnquoteEntry(d[i])
  {
    if d == [] then [] else [UnquoteEntry(d[0])] + UnquoteData(d[1..])
  }

  lemma QuotedStampMeansQuotedRaw(e: Entry, key: string)
    requires Plain(e) && key != "" && ':' !in key && QuotedStamp(LineOf(e), key)
    ensures e.key == key && QuotedRaw(e.raw)
  {
    hide TimestampShape, IndexOf;
    var line := LineOf(e);
    var tail := line[|key| + 1..];
    assert line[|key|] == line[..|key| + 3][|key|] == (key + ": '")[|key|] == ':';
    assert line[..|key|] == line[..|key| + 3][..|key|] == (key + ": '")[..|key|] == key;
    assert line == key + [':'] + tail;
    FirstIndex(key, ':', tail);
    assert line == e.key + [':'] + line[|e.key| + 1..];
    FirstIndex(e.key, ':', line[|e.key| + 1..]);
    assert line[..|e.key|] == e.key;
    assert line[|key| + 2..] == e.raw;
    assert e.raw[0] == line[..|key| + 3][|key| + 2] == (key + ": '")[|key| + 2];
    assert e.raw[1..21] == line[|key| + 3..|key| + 23];
  }

  lemma QuotedRawMeansQuotedStamp(e: Entry)
    requires Plain(e) && QuotedRaw(e.raw)
    ensures QuotedStamp(LineOf(e), e.key)
  {
    hide TimestampShape;
    var line := LineOf(e);
    assert line == e.key + ": " + e.raw;
    assert line[..|e.key| + 3] == e.key + ": '";
    assert line[|e.key| + 3..|e.key| + 23] == e.raw[1..21];
  }

  lemma UnquoteLineOf(e: Entry)
    requires Plain(e)
    ensures UnquoteLine(LineOf(e)) == LineOf(UnquoteEntry(e)) && Plain(UnquoteEntry(e))
  {
    hide TimestampShape;
    var line := LineOf(e);
    if QuotedStamp(line, CREATED) { QuotedStampMeansQuotedRaw(e, CREATED); }
    if QuotedStamp(line, MODIFIED) { QuotedStampMeansQuotedRaw(e, MODIFIED); }
    if QuotedRaw(e.raw) {
      QuotedRawMeansQuotedStamp(e);
      assert line[|e.key| + 3..|e.key| + 23] == e.raw[1..21];
    }
  }

  /** Removing quotes from the dumped text is removing them from the entries. */
  lemma {:induction false} UnquoteDump(d: Data)
    requires forall e | e in d :: Plain(e)
    ensures Unquote(Dump(d)) == Dump(UnquoteData(d))
    decreases |d|
  {
    hide UnquoteLine, LineOf, UnquoteEntry;
    if d != [] {
      var line, rest := LineOf(d[0]), Dump(d[1..]);
      UnquoteDump(d[1..]);
      UnquoteLineOf(d[0]);
      LinesHaveNoNewline(d[0]);
      assert Dump(d) == line + ['\n'] + rest;
      FirstIndex(line, '\n', rest);
      assert Dump(d)[..|line|] == line && Dump(d)[|line| + 1..] == rest;
      assert UnquoteData(d)[1..] == UnquoteData(d[1..]);
    } else {
      assert UnquoteData(d) == [];
      assert UnquoteLine("") == "" by { EmptyLineStays(); }
    }
  }

  lemma EmptyLineStays()
    ensures UnquoteLine("") == ""
  {
  }

  // ---- The stamp -------------------------------------------------------------------------

  /** Data with the timestamps of second `now` upserted, as new single-quoted scalars. */
  function Upsert(d: Data, now: nat): Data {
    var ts := "'" + Emit(now) + "'";
    Set(if Falsy(Get(d, CREATED)) then Set(d, CREATED, ts) else d, MODIFIED, ts)
  }

  predicate GateOpen(d: Data, mtime: int) {
    ModifiedEpoch(d).None? || mtime > ModifiedEpoch(d).value
  }

  /** The frontmatter's data; a note without a block has none. None where the loader raises. */
  function DataOf(text: string): Option<Data> {
    var fm := Split(text).0;
    if fm.None? then Some([]) else Load(fm.value)
  }

  function Restamped(text: string, d: Data, now: nat): string {
    Assemble(Unquote(Dump(Upsert(d, now))), Split(text).1)
  }

  /** The text a stamp writes, or None when it leaves the file alone. */
  function Stamp(text: string, mtime: int, now: nat): Option<string> {
    match DataOf(text)
    case None => None
    case Some(d) =>
      if GateOpen(d, mtime) && Restamped(text, d, now) != text then Some(Restamped(text, d, now)) else None
  }

  // ---- What it keeps ---------------------------------------------------------------------

  lemma {:induction false} SetIsWellformed(d: Data, key: string, raw: string)
    requires Wellformed(d) && Plain(Entry(key, raw))
    ensures Wellformed(Set(d, key, raw))
    ensures forall e | e in Set(d, key, raw) :: e == Entry(key, raw) || e in d
    decreases |d|
  {
    if d != [] && d[0].key != key {
      SetIsWellformed(d[1..], key, raw);
      var rest := Set(d[1..], key, raw);
      forall j | 0 <= j < |rest| ensures rest[j].key != d[0].key {
        assert rest[j] in rest;
        if rest[j] in d[1..] {
          var i :| 0 <= i < |d| - 1 && d[1..][i] == rest[j];
          assert d[i + 1] == rest[j];
        }
      }
    }
  }

  lemma {:induction false} GetAfterSet(d: Data, key: string, raw: string, k: string)
    ensures Get(Set(d, key, raw), k) == if k == key then raw else Get(d, k)
    decreases |d|
  {
    if d != [] {
      assert Set(d, key, raw)[1..] == if d[0].key == key then d[1..] else Set(d[1..], key, raw);
      GetAfterSet(d[1..], key, raw, k);
    }
  }

  /** The entries other than the two timestamps, in order. */
  function Others(d: Data): Data {
    if d == [] then []
    else if d[0].key == CREATED || d[0].key == MODIFIED then Others(d[1..])
    else [d[0]] + Others(d[1..])
  }

  lemma {:induction false} SetKeepsOthers(d: Data, key: string, raw: string)
    requires key == CREATED || key == MODIFIED
    ensures Others(Set(d, key, raw)) == Others(d)
    decreases |d|
  {
    if d != [] {
      assert Set(d, key, raw)[1..] == if d[0].key == key then d[1..] else Set(d[1..], key, raw);
      SetKeepsOthers(d[1..], key, raw);
    } else {
      assert Set(d, key, raw)[1..] == [];
    }
  }

  lemma {:induction false} UnquoteKeepsOthers(d: Data)
    ensures Others(UnquoteData(d)) == Others(d)
    decreases |d|
  {
    if d != [] {
      assert UnquoteData(d)[1..] == UnquoteData(d[1..]);
      UnquoteKeepsOthers(d[1..]);
    }
  }

  lemma {:induction false} GetUnquoted(d: Data, key: string)
    ensures Get(UnquoteData(d), key)
         == if (key == CREATED || key == MODIFIED) && QuotedRaw(Get(d, key)) then Scalar(Get(d, key)) else Get(d, key)
    decreases |d|
  {
    if d != [] {
      assert UnquoteData(d)[1..] == UnquoteData(d[1..]);
      GetUnquoted(d[1..], key);
    }
  }

  /** Nothing of timestamp shape is itself quoted, so removing quotes keeps the scalar. */
  lemma ScalarSurvives(d: Data, key: string)
    ensures Scalar(Get(UnquoteData(d), key)) == Scalar(Get(d, key))
  {
    GetUnquoted(d, key);
    var raw := Get(d, key);
    if QuotedRaw(raw) {
      assert Scalar(raw)[0] == raw[1] && IsDigit(raw[1..21][0]);
    }
  }

  lemma EmitHasShape(now: nat)
    requires now < END_OF_TIME
    ensures TimestampShape(Emit(now))
  {
    hide DateOf, Padded, TimestampShape;
    var d, s := DateOf(now / 86400), now % 86400;
    PartsHaveShape(Padded(d.year, 4), Padded(d.month, 2), Padded(d.day, 2),
                   Padded(s / 3600, 2), Padded(s % 3600 / 60, 2), Padded(s % 60, 2));
  }

  lemma PartsHaveShape(y: string, mo: string, d: string, h: string, mi: string, s: string)
    requires |y| == 4 && |mo| == |d| == |h| == |mi| == |s| == 2
    requires AllDigits(y) && AllDigits(mo) && AllDigits(d) && AllDigits(h) && AllDigits(mi) && AllDigits(s)
    ensures TimestampShape(y + "-" + mo + "-" + d + "T" + h + ":" + mi + ":" + s + "Z")
  {
    var t := y + "-" + mo + "-" + d + "T" + h + ":" + mi + ":" + s + "Z";
    assert t[0] == y[0] && t[1] == y[1] && t[2] == y[2] && t[3] == y[3] && t[4] == '-';
    assert t[5] == mo[0] && t[6] == mo[1] && t[7] == '-' && t[8] == d[0] && t[9] == d[1] && t[10] == 'T';
    assert t[11] == h[0] && t[12] == h[1] && t[13] == ':' && t[14] == mi[0] && t[15] == mi[1] && t[16] == ':';
    assert t[17] == s[0] && t[18] == s[1] && t[19] == 'Z';
  }

  lemma ShapeIsOneLine(ts: string)
    requires TimestampShape(ts)
    ensures '\n' !in "'" + ts + "'" && QuotedRaw("'" + ts + "'") && Scalar("'" + ts + "'") == ts && !Falsy(ts) && Scalar(ts) == ts
  {
    assert IsDigit(ts[0]);
    forall i | 0 <= i < 20 ensures ts[i] != '\n' {
      if i in {0, 1, 2, 3, 5, 6, 8, 9, 11, 12, 14, 15, 17, 18} {
        assert IsDigit(ts[i]);
      }
    }
    assert ("'" + ts + "'")[1..21] == ts;
  }

  lemma DataIsWellformed(text: string)
    requires DataOf(text).Some?
    ensures Wellformed(DataOf(text).value)
  {
    var fm := Split(text).0;
    if fm.Some? {
      DumpInvertsLoad(fm.value);
    }
  }

  lemma UpsertIsWellformed(d: Data, now: nat)
    requires Wellformed(d) && now < END_OF_TIME
    ensures Wellformed(Upsert(d, now))
  {
    hide Emit, Wellformed;
    EmitHasShape(now);
    ShapeIsOneLine(Emit(now));
    var ts := "'" + Emit(now) + "'";
    SetIsWellformed(d, CREATED, ts);
    SetIsWellformed(d, MODIFIED, ts);
    SetIsWellformed(Set(d, CREATED, ts), MODIFIED, ts);
  }

  lemma UnquotedIsWellformed(d: Data)
    requires Wellformed(d)
    ensures Wellformed(UnquoteData(d))
  {
    var u := UnquoteData(d);
    forall e | e in u ensures Plain(e) {
      var i :| 0 <= i < |u| && u[i] == e;
      assert d[i] in d;
      UnquoteLineOf(d[i]);
    }
  }

  /** A restamped text splits into the upserted data and the old body, and loads as such. */
  lemma RestampedLoads(text: string, now: nat)
    requires DataOf(text).Some? && now < END_OF_TIME
    ensures var d := DataOf(text).value;
            var u := UnquoteData(Upsert(d, now));
            && Split(Restamped(text, d, now)) == (Some(Dump(u)), Split(text).1)
            && DataOf(Restamped(text, d, now)) == Some(u)
  {
    hide Upsert, UnquoteData, Unquote;
    var d := DataOf(text).value;
    var up := Upsert(d, now);
    var u := UnquoteData(up);
    DataIsWellformed(text);
    UpsertIsWellformed(d, now);
    UnquotedIsWellformed(up);
    UnquoteDump(up);
    DumpIsBlock(u);
    SplitInvertsAssemble(Dump(u), Split(text).1);
    LoadInvertsDump(u);
  }

  /** A stamp that writes keeps the body, every other entry in order and a `created` that was set;
      it sets `modified`, and a missing `created`, to the current second, unquoted. */
  lemma StampKeepsTheRest(text: string, mtime: int, now: nat)
    requires Stamp(text, mtime, now).Some? && now < END_OF_TIME
    ensures var out := Stamp(text, mtime, now).value;
            var d := DataOf(text).value;
            && Split(out).1 == Split(text).1
            && DataOf(out).Some?
            && var d' := DataOf(out).value;
            && Others(d') == Others(d)
            && Get(d', MODIFIED) == Emit(now) && ModifiedEpoch(d') == Some(now)
            && if Falsy(Get(d, CREATED)) then Get(d', CREATED) == Emit(now)
               else Scalar(Get(d', CREATED)) == Scalar(Get(d, CREATED))
  {
    hide Emit, Parse, Unquote, Dump, Falsy, Split;
    var d := DataOf(text).value;
    RestampedLoads(text, now);
    UpsertedValues(d, now);
    ScalarSurvives(Upsert(d, now), CREATED);
    ParseInvertsEmit(now);
  }

  lemma UpsertedValues(d: Data, now: nat)
    requires now < END_OF_TIME
    ensures var u := UnquoteData(Upsert(d, now));
            && Others(u) == Others(d)
            && Get(u, MODIFIED) == Emit(now) && !Falsy(Emit(now)) && Scalar(Emit(now)) == Emit(now)
            && (Falsy(Get(d, CREATED)) ==> Get(u, CREATED) == Emit(now))
            && (!Falsy(Get(d, CREATED)) ==> Get(Upsert(d, now), CREATED) == Get(d, CREATED))
  {
    hide Emit, Falsy, QuotedRaw, TimestampShape, Scalar;
    EmitHasShape(now);
    ShapeIsOneLine(Emit(now));
    var ts := "'" + Emit(now) + "'";
    var c := if Falsy(Get(d, CREATED)) then Set(d, CREATED, ts) else d;
    GetAfterSet(d, CREATED, ts, CREATED);
    GetAfterSet(c, MODIFIED, ts, CREATED);
    GetAfterSet(c, MODIFIED, ts, MODIFIED);
    GetUnquoted(Upsert(d, now), CREATED);
    GetUnquoted(Upsert(d, now), MODIFIED);
    SetKeepsOthers(d, CREATED, ts);
    SetKeepsOthers(c, MODIFIED, ts);
    UnquoteKeepsOthers(Upsert(d, now));
  }

  // ---- Exactly what it writes ------------------------------------------------------------

  /** Whether a value counts as not set: empty, or a spelling of null, false or zero. */
  predicate Unset(raw: string) {
    raw in {"", "''", "~", "null", "Null", "NULL", "false", "False", "FALSE", "0"}
  }

  /** An entry after a stamp at second `now`. */
  function StampedEntry(e: Entry, now: nat): Entry {
    if e.key == "modified" || (e.key == "created" && Unset(e.raw)) then Entry(e.key, Emit(now))
    else if e.key == "created" && QuotedRaw(e.raw) then Entry(e.key, e.raw[1..21])
    else e
  }

  /** The entries after a stamp, each in its place, with what was missing added at the end. */
  function Stamped(d: Data, now: nat): Data {
    seq(|d|, i requires 0 <= i < |d| => StampedEntry(d[i], now))
    + (if HasKey(d, "created") then [] else [Entry("created", Emit(now))])
    + (if HasKey(d, "modified") then [] else [Entry("modified", Emit(now))])
  }

  lemma {:induction false} SetAt(d: Data, key: string, raw: string)
    requires forall i, j | 0 <= i < j < |d| :: d[i].key != d[j].key
    ensures var u := Set(d, key, raw);
            && |u| == |d| + (if HasKey(d, key) then 0 else 1)
            && (forall i | 0 <= i < |d| :: u[i] == if d[i].key == key then Entry(key, raw) else d[i])
            && (!HasKey(d, key) ==> u[|d|] == Entry(key, raw))
    decreases |d|
  {
    if d != [] {
      if d[0].key != key {
        SetAt(d[1..], key, raw);
        assert HasKey(d, key) <==> HasKey(d[1..], key) by { HasKeyBehind(d, key); }
      } else {
        assert d[0] in d;
      }
    }
  }

  lemma HasKeyBehind(d: Data, key: string)
    requires d != [] && d[0].key != key
    ensures HasKey(d, key) <==> HasKey(d[1..], key)
  {
    if HasKey(d, key) {
      var e :| e in d && e.key == key;
      assert e in d[1..];
    }
  }

  lemma {:induction false} GetAt(d: Data, key: string)
    requires forall i, j | 0 <= i < j < |d| :: d[i].key != d[j].key
    ensures forall i | 0 <= i < |d| && d[i].key == key :: Get(d, key) == d[i].raw
    ensures !HasKey(d, key) ==> Get(d, key) == ""
    decreases |d|
  {
    if d != [] {
      assert d[0] in d;
      if d[0].key != key {
        GetAt(d[1..], key);
        HasKeyBehind(d, key);
        assert forall i | 1 <= i < |d| :: d[i] == d[1..][i - 1];
      }
    }
  }

  lemma FalsyIsUnset(raw: string)
    ensures Falsy(raw) <==> Unset(raw)
  {
    if |raw| >= 2 && Scalar(raw) == "" {
      assert raw == "''";
    }
  }

  /** The data once `created` is seen to. */
  function WithCreated(d: Data, ts: string): Data {
    if Falsy(Get(d, CREATED)) then Set(d, CREATED, ts) else d
  }

  lemma CreatedAt(d: Data, ts: string)
    requires Wellformed(d)
    ensures var c := WithCreated(d, ts);
            && |c| == |d| + (if HasKey(d, "created") then 0 else 1)
            && (forall i | 0 <= i < |d| ::
                  c[i] == if d[i].key == "created" && Unset(d[i].raw) then Entry(d[i].key, ts) else d[i])
            && (!HasKey(d, "created") ==> c[|d|] == Entry("created", ts))
  {
    hide Unset, Falsy, HasKey;
    GetAt(d, "created");
    SetAt(d, "created", ts);
    FalsyIsUnset(Get(d, "created"));
    assert Unset("") by { FalsyIsUnset(""); EmptyIsFalsy(); }
    HasKeyAt(d, "created");
  }

  /** The upserted data before its quotes are removed, entry by entry. */
  lemma UpsertAt(d: Data, now: nat)
    requires Wellformed(d)
    ensures var ts := "'" + Emit(now) + "'";
            var u := Upsert(d, now);
            && |u| == |d| + (if HasKey(d, "created") then 0 else 1) + (if HasKey(d, "modified") then 0 else 1)
            && (forall i | 0 <= i < |d| ::
                  u[i] == if d[i].key == "modified" || (d[i].key == "created" && Unset(d[i].raw)) then Entry(d[i].key, ts) else d[i])
            && (!HasKey(d, "created") ==> u[|d|] == Entry("created", ts))
            && (!HasKey(d, "modified") ==> u[|u| - 1] == Entry("modified", ts))
  {
    hide Emit, Unset, Falsy, HasKey, Get, Set;
    var ts := "'" + Emit(now) + "'";
    CreatedAt(d, ts);
    var c := WithCreated(d, ts);
    SameKeys(d, c);
    SetAt(c, "modified", ts);
  }

  lemma EmptyIsFalsy()
    ensures Falsy("")
  {
  }

  /** Setting `created` keeps the keys apart and does not bring in `modified`. */
  lemma SameKeys(d: Data, c: Data)
    requires Wellformed(d) && |d| <= |c| <= |d| + 1
    requires forall i | 0 <= i < |d| :: c[i].key == d[i].key
    requires |c| == |d| + 1 ==> c[|d|].key == "created" && !HasKey(d, "created")
    ensures forall i, j | 0 <= i < j < |c| :: c[i].key != c[j].key
    ensures HasKey(c, "modified") <==> HasKey(d, "modified")
  {
    hide Plain;
    forall i, j | 0 <= i < j < |c| ensures c[i].key != c[j].key {
      if j == |d| {
        assert d[i] in d;
      }
    }
    HasKeyAt(d, "modified");
    HasKeyAt(c, "modified");
  }

  lemma HasKeyAt(d: Data, key: string)
    ensures HasKey(d, key) <==> exists i :: 0 <= i < |d| && d[i].key == key
  {
    if HasKey(d, key) {
      var e :| e in d && e.key == key;
      var i :| 0 <= i < |d| && d[i] == e;
    }
    if i :| 0 <= i < |d| && d[i].key == key {
      assert d[i] in d;
    }
  }

  /** Removing the quotes of an upserted entry. */
  lemma UnquotedEntries(e: Entry, now: nat)
    requires now < END_OF_TIME
    ensures var ts := "'" + Emit(now) + "'";
            && UnquoteEntry(if e.key == "modified" || (e.key == "created" && Unset(e.raw)) then Entry(e.key, ts) else e)
               == StampedEntry(e, now)
            && UnquoteEntry(Entry("created", ts)) == Entry("created", Emit(now))
            && UnquoteEntry(Entry("modified", ts)) == Entry("modified", Emit(now))
  {
    hide Emit, TimestampShape, Unset;
    EmitHasShape(now);
    ShapeIsOneLine(Emit(now));
    if QuotedRaw(e.raw) {
      QuotedScalar(e.raw);
    }
  }

  lemma QuotedScalar(raw: string)
    requires QuotedRaw(raw)
    ensures Scalar(raw) == raw[1..21]
  {
  }

  /** The data a stamp leaves, entry by entry and in order. */
  lemma StampedExactly(d: Data, now: nat)
    requires Wellformed(d) && now < END_OF_TIME
    ensures UnquoteData(Upsert(d, now)) == Stamped(d, now)
  {
    hide Emit, Upsert, UnquoteEntry, StampedEntry, Unset, Wellformed;
    UpsertAt(d, now);
    var u, w := UnquoteData(Upsert(d, now)), Stamped(d, now);
    assert |u| == |w|;
    UnquotedEntries(Entry("", ""), now);
    forall i | 0 <= i < |u| ensures u[i] == w[i] {
      assert u[i] == UnquoteEntry(Upsert(d, now)[i]);
      if i < |d| {
        UnquotedEntries(d[i], now);
      }
    }
  }

  /** A stamp that writes puts a proper block holding exactly the stamped entries in front of the
      whole body: the text behind the old block, or all of a text that has none. */
  lemma StampWritesExactly(text: string, mtime: int, now: nat)
    requires Stamp(text, mtime, now).Some? && now < END_OF_TIME
    ensures var out := Stamp(text, mtime, now).value;
            && (NoBlock(text) ==> out == Assemble(Dump(Stamped([], now)), text))
            && (forall fm, body | text == Assemble(fm, body) && IsBlock(fm) ::
                  Load(fm).Some? && out == Assemble(Dump(Stamped(Load(fm).value, now)), body))
  {
    hide IsBlock, Upsert, Stamped, Unquote, Dump, Load, UnquoteData, ModifiedEpoch;
    var d := DataOf(text).value;
    NoBlockExactly(text);
    DataIsWellformed(text);
    UpsertIsWellformed(d, now);
    UnquoteDump(Upsert(d, now));
    StampedExactly(d, now);
    forall fm, body | text == Assemble(fm, body) && IsBlock(fm) ensures Split(text) == (Some(fm), body) {
      SplitInvertsAssemble(fm, body);
    }
  }

  /** What the gate reads of a value: the second it spells, plain or in single quotes. */
  predicate Reads(raw: string, v: int) {
    || Parse(raw) == Some(v)
    || (|raw| >= 2 && raw[0] == '\'' && raw[|raw| - 1] == '\'' && Parse(raw[1..|raw| - 1]) == Some(v))
  }

  lemma ReadableBeginsWithDigits(text: string)
    requires Parse(text).Some?
    ensures |text| >= 5 && IsDigit(text[0])
  {
    assert AllDigits(text[..4]) && text[..4][0] == text[0];
  }

  lemma RawReads(raw: string, v: int)
    ensures (!Falsy(raw) && Parse(Scalar(raw)) == Some(v)) <==> Reads(raw, v)
  {
    hide Parse;
    if Parse(raw).Some? {
      ReadableBeginsWithDigits(raw);
    }
    if Parse(Scalar(raw)).Some? {
      ReadableBeginsWithDigits(Scalar(raw));
    }
  }

  /** The gate knows second `v` exactly when there is a `modified` entry that spells it. */
  lemma GateReadsExactly(d: Data, v: int)
    requires Wellformed(d)
    ensures ModifiedEpoch(d) == Some(v) <==> exists e :: e in d && e.key == "modified" && Reads(e.raw, v)
  {
    hide Parse, Falsy, Scalar, Reads, Plain;
    GetAt(d, "modified");
    RawReads(Get(d, MODIFIED), v);
    HasKeyAt(d, "modified");
    assert !Reads("", v) by { NothingReadsEmpty(v); }
    forall e | e in d && e.key == "modified" ensures Get(d, "modified") == e.raw {
      var i :| 0 <= i < |d| && d[i] == e;
    }
    if i :| 0 <= i < |d| && d[i].key == "modified" {
      assert d[i] in d;
    }
  }

  lemma NothingReadsEmpty(v: int)
    ensures !Reads("", v)
  {
  }

  /** When a stamp writes. A text without a block is always stamped; one whose block does not load,
      never. Otherwise it is stamped exactly when `modified` is missing or unreadable, or older than
      the file's mtime and the text would change, as it does unless `modified` is this very second. */
  lemma StampsExactly(text: string, mtime: int, now: nat)
    requires now < END_OF_TIME
    ensures NoBlock(text) ==> Stamp(text, mtime, now).Some?
    ensures forall fm, body | text == Assemble(fm, body) && IsBlock(fm) ::
              match Load(fm)
              case None => Stamp(text, mtime, now).None?
              case Some(d) =>
                var m := ModifiedEpoch(d);
                && (m.None? ==> Stamp(text, mtime, now).Some?)
                && (m.Some? && mtime <= m.value ==> Stamp(text, mtime, now).None?)
                && (m.Some? && mtime > m.value && m.value != now ==> Stamp(text, mtime, now).Some?)
                && (m == Some(now) && mtime > now ==> (Stamp(text, mtime, now).Some? <==> Stamped(d, now) != d))
  {
    hide IsBlock, Upsert, Stamped, Unquote, Dump, Load, UnquoteData, ModifiedEpoch, Split;
    NoBlockExactly(text);
    if DataOf(text).Some? {
      var d := DataOf(text).value;
      DataIsWellformed(text);
      StampedExactly(d, now);
      RestampedLoads(text, now);
      StampedReads(text, now);
      if Stamped(d, now) == d {
        SameDataSameText(text, now);
      }
    }
    assert NoBlock(text) ==> ModifiedEpoch([]) == None by { EmptyHasNoEpoch(); }
    forall fm, body | text == Assemble(fm, body) && IsBlock(fm) ensures Split(text) == (Some(fm), body) {
      SplitInvertsAssemble(fm, body);
    }
  }

  lemma EmptyHasNoEpoch()
    ensures ModifiedEpoch([]) == None
  {
  }

  lemma StampedReads(text: string, now: nat)
    requires DataOf(text).Some? && now < END_OF_TIME
    ensures ModifiedEpoch(UnquoteData(Upsert(DataOf(text).value, now))) == Some(now)
  {
    hide Emit, Parse, DataOf, Falsy, Upsert;
    UpsertedValues(DataOf(text).value, now);
    ParseInvertsEmit(now);
  }

  /** Unchanged data in a text with a block is an unchanged text. */
  lemma SameDataSameText(text: string, now: nat)
    requires DataOf(text).Some? && now < END_OF_TIME
    requires Stamped(DataOf(text).value, now) == DataOf(text).value
    ensures Restamped(text, DataOf(text).value, now) == text
  {
    hide IsBlock, Upsert, Unquote, Dump, Load, UnquoteData, Emit;
    var d := DataOf(text).value;
    var fm := Split(text).0;
    DataIsWellformed(text);
    UpsertIsWellformed(d, now);
    StampedExactly(d, now);
    UnquoteDump(Upsert(d, now));
    assert fm.Some? by { assert |Stamped([], now)| == 2; }
    DumpInvertsLoad(fm.value);
    AssembleInvertsSplit(text);
  }

  // ---- When it rests ---------------------------------------------------------------------

  /** A stamp lowers a readable `modified` exactly when the file's mtime opens the gate and the
      clock reads earlier than `modified`; if the file was not written in the future, never. */
  lemma ModifiedGoesBackExactly(text: string, mtime: int, now: nat)
    requires Stamp(text, mtime, now).Some? && now < END_OF_TIME
    requires ModifiedEpoch(DataOf(text).value).Some?
    ensures var m := ModifiedEpoch(DataOf(text).value).value;
            var after := DataOf(Stamp(text, mtime, now).value);
            && m < mtime
            && after.Some? && ModifiedEpoch(after.value).Some?
            && (ModifiedEpoch(after.value).value < m <==> now < m)
            && (mtime <= now ==> m < ModifiedEpoch(after.value).value)
  {
    hide Emit, Parse, Split, Restamped, ModifiedEpoch, DataOf, Others, Get, Falsy, Scalar;
    StampKeepsTheRest(text, mtime, now);
  }

  /** Having written at second `now`, a stamp leaves the file alone at every later clock exactly
      when the write landed in that same second or before. */
  lemma RestsExactly(text: string, mtime: int, now: nat, landed: int)
    requires Stamp(text, mtime, now).Some? && now + 1 < END_OF_TIME
    ensures (forall later: nat | later < END_OF_TIME :: Stamp(Stamp(text, mtime, now).value, landed, later).None?)
            <==> landed <= now
  {
    hide Parse, Emit, Split, Restamped;
    var out := Stamp(text, mtime, now).value;
    StampKeepsTheRest(text, mtime, now);
    var d' := DataOf(out).value;
    if landed > now {
      var later := now + 1;
      var again := Restamped(out, d', later);
      RestampedLoads(out, later);
      UpsertedValues(d', later);
      ParseInvertsEmit(later);
      ParseInvertsEmit(now);
      assert Get(DataOf(again).value, MODIFIED) == Emit(later) != Emit(now) == Get(d', MODIFIED);
      assert again != out;
      assert Stamp(out, landed, later).Some?;
    }
  }

  /** A file on disk: its text and the time of its last write. */
  datatype File = File(text: string, mtime: real)

  /** One stamp: the clock it reads, and when its write lands if it writes. */
  datatype Clocked = Clocked(now: real, landed: real)

  type Tick = t: Clocked | 0.0 <= t.now <= t.landed && t.now.Floor + 1 < END_OF_TIME
    witness Clocked(0.0, 0.0)

  function StampFile(f: File, t: Tick): File {
    match Stamp(f.text, f.mtime.Floor, t.now.Floor)
    case None => f
    case Some(out) => File(out, t.landed)
  }

  function StampAll(f: File, ticks: seq<Tick>): File
    decreases |ticks|
  {
    if ticks == [] then f else StampAll(StampFile(f, ticks[0]), ticks[1..])
  }

  /** Once a write lands in the second it stamped, any number of later stamps change nothing. */
  lemma {:induction false} StampsQuiesce(f: File, t: Tick, ticks: seq<Tick>)
    requires Stamp(f.text, f.mtime.Floor, t.now.Floor).Some? && t.landed.Floor == t.now.Floor
    ensures StampAll(StampFile(f, t), ticks) == StampFile(f, t)
    decreases |ticks|
  {
    if ticks != [] {
      RestsExactly(f.text, f.mtime.Floor, t.now.Floor, t.landed.Floor);
      var g := StampFile(f, t);
      var later: nat := ticks[0].now.Floor;
      assert Stamp(g.text, g.mtime.Floor, later).None?;
      StampsQuiesce(f, t, ticks[1..]);
    }
  }

  /** The clock does not run backwards from one stamp's write to the next stamp. */
  predicate Monotone(f: File, ticks: seq<Tick>)
    decreases |ticks|
  {
    ticks == [] || (f.mtime <= ticks[0].now && forall i | 1 <= i < |ticks| :: ticks[i - 1].landed <= ticks[i].now)
  }

  /** Under a monotone clock a readable `modified` never decreases, over any number of stamps. */
  lemma {:induction false} ModifiedNeverDecreases(f: File, ticks: seq<Tick>)
    requires Monotone(f, ticks)
    requires DataOf(f.text).Some? && ModifiedEpoch(DataOf(f.text).value).Some?
    ensures var d := DataOf(StampAll(f, ticks).text);
            d.Some? && ModifiedEpoch(d.value).Some?
            && ModifiedEpoch(DataOf(f.text).value).value <= ModifiedEpoch(d.value).value
    decreases |ticks|
  {
    hide StampFile, ModifiedEpoch, DataOf;
    if ticks != [] {
      var g := StampFile(f, ticks[0]);
      OneStampDecreasesNothing(f, ticks[0]);
      assert forall i | 1 <= i < |ticks| - 1 :: ticks[1..][i - 1] == ticks[i] && ticks[1..][i] == ticks[i + 1];
      ModifiedNeverDecreases(g, ticks[1..]);
    }
  }

  lemma OneStampDecreasesNothing(f: File, t: Tick)
    requires f.mtime <= t.now
    requires DataOf(f.text).Some? && ModifiedEpoch(DataOf(f.text).value).Some?
    ensures var g := StampFile(f, t);
            && g.mtime <= t.landed
            && DataOf(g.text).Some? && ModifiedEpoch(DataOf(g.text).value).Some?
            && ModifiedEpoch(DataOf(f.text).value).value <= ModifiedEpoch(DataOf(g.text).value).value
  {
    hide Stamp, ModifiedEpoch, DataOf;
    var now: nat := t.now.Floor;
    if Stamp(f.text, f.mtime.Floor, now).Some? {
      ModifiedGoesBackExactly(f.text, f.mtime.Floor, now);
    }
  }

  // ---- On disk ---------------------------------------------------------------------------

  function StampEach(files: map<string, File>, paths: seq<string>, ticks: seq<Tick>): map<string, File>
    requires |paths| == |ticks|
    decreases |paths|
  {
    if paths == [] then files
    else
      var n := |paths| - 1;
      var rest := StampEach(files, paths[..n], ticks[..n]);
      if paths[n] in rest then rest[paths[n] := StampFile(rest[paths[n]], ticks[n])] else rest
  }

  /** Over distinct paths, each file on disk becomes its own stamp and every other stays as it is. */
  lemma {:induction false} StampEachExactly(files: map<string, File>, paths: seq<string>, ticks: seq<Tick>)
    requires |paths| == |ticks| && forall i, j | 0 <= i < j < |paths| :: paths[i] != paths[j]
    ensures var after := StampEach(files, paths, ticks);
            && after.Keys == files.Keys
            && (forall i | 0 <= i < |paths| && paths[i] in files :: after[paths[i]] == StampFile(files[paths[i]], ticks[i]))
            && (forall p | p in files && p !in paths :: after[p] == files[p])
    decreases |paths|
  {
    hide StampFile;
    if paths != [] {
      var n := |paths| - 1;
      StampEachExactly(files, paths[..n], ticks[..n]);
      assert paths[n] !in paths[..n];
    }
  }

  /** The notes on disk: the `.md` files that exist. */
  class Vault {
    var files: map<string, File>

    constructor (files: map<string, File>)
      ensures this.files == files
    {
      this.files := files;
    }

    /** Stamp one note, reporting whether it was written; a missing file or unreadable frontmatter
        is left alone. */
    method StampNote(path: string, t: Tick) returns (wrote: bool)
      modifies this
      ensures path !in old(files) ==> files == old(files) && !wrote
      ensures path in old(files) ==>
                && files == old(files)[path := StampFile(old(files)[path], t)]
                && wrote == Stamp(old(files)[path].text, old(files)[path].mtime.Floor, t.now.Floor).Some?
    {
      hide Emit, Parse, Unquote, Dump, Find, Load, Falsy, Get, Set;
      if path !in files { return false; }
      var original := files[path].text;
      var (fm, body) := Split(original);
      var data: Data := [];
      if fm.Some? {
        var loaded := Load(fm.value);
        if loaded.None? { return false; }
        data := loaded.value;
      }
      var epoch := ModifiedEpoch(data);
      if epoch.Some? && files[path].mtime.Floor <= epoch.value { return false; }
      var ts := "'" + Emit(t.now.Floor) + "'";
      if Falsy(Get(data, CREATED)) {
        data := Set(data, CREATED, ts);
      }
      data := Set(data, MODIFIED, ts);
      var text := Assemble(Unquote(Dump(data)), body);
      if text == original { return false; }
      files := files[path := File(text, t.landed)];
      return true;
    }

    /** Stamp each path in turn; one that is left alone does not stop the rest. */
    method StampPaths(paths: seq<string>, ticks: seq<Tick>)
      requires |paths| == |ticks|
      modifies this
      ensures files == StampEach(old(files), paths, ticks)
    {
      hide StampFile, Stamp;
      var i := 0;
      while i < |paths|
        invariant 0 <= i <= |paths|
        invariant files == StampEach(old(files), paths[..i], ticks[..i])
      {
        assert paths[..i + 1][..i] == paths[..i] && ticks[..i + 1][..i] == ticks[..i];
        var _ := StampNote(paths[i], ticks[i]);
        i := i + 1;
      }
      assert paths[..i] == paths && ticks[..i] == ticks;
    }
  }
}
