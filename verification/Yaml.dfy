/** Flat frontmatter: one `key: value` line per entry, in order. Loading and dumping are inverse. */
module Yaml {
  import opened Options
  import opened Frontmatter

  /** `raw` is the value as written, quotes included; empty for a key without a value. */
  datatype Entry = Entry(key: string, raw: string)

  type Data = seq<Entry>

  predicate Plain(e: Entry) {
    e.key != "" && ':' !in e.key && '\n' !in e.key && '\n' !in e.raw
  }

  predicate Wellformed(d: Data) {
    && (forall e | e in d :: Plain(e))
    && (forall i, j | 0 <= i < j < |d| :: d[i].key != d[j].key)
  }

  function LineOf(e: Entry): string {
    if e.raw == "" then e.key + ":" else e.key + ": " + e.raw
  }

  function Dump(d: Data): string {
    if d == [] then "" else LineOf(d[0]) + "\n" + Dump(d[1..])
  }

  /** Position of the first `c`, or the length if there is none. */
  function IndexOf(s: string, c: char): (k: nat)
    ensures k <= |s| && c !in s[..k] && (k < |s| ==> s[k] == c)
  {
    if s == "" || s[0] == c then 0
    else
      var k := IndexOf(s[1..], c);
      assert s[..k + 1] == [s[0]] + s[1..][..k];
      k + 1
  }

  function ParseLine(line: string): Option<Entry> {
    var c := IndexOf(line, ':');
    if c == 0 || c == |line| then None
    else
      var after := line[c + 1..];
      if after == "" then Some(Entry(line[..c], ""))
      else if after[0] == ' ' && |after| > 1 then Some(Entry(line[..c], after[1..]))
      else None
  }

  predicate HasKey(d: Data, key: string) {
    exists e | e in d :: e.key == key
  }

  /** None where the loader raises: a line that is no entry, or a duplicate key. */
  function Load(fm: string): Option<Data>
    decreases |fm|
  {
    if fm == "" then Some([])
    else
      var k := IndexOf(fm, '\n');
      if k == |fm| then None
      else
        match ParseLine(fm[..k])
        case None => None
        case Some(e) =>
          match Load(fm[k + 1..])
          case None => None
          case Some(d) => if HasKey(d, e.key) then None else Some([e] + d)
  }

  lemma {:induction false} FirstIndex(a: string, c: char, b: string)
    requires c !in a
    ensures IndexOf(a + [c] + b, c) == |a|
  {
    if a != "" {
      assert (a + [c] + b)[1..] == a[1..] + [c] + b;
      FirstIndex(a[1..], c, b);
    }
  }

  lemma ParseLineOf(e: Entry)
    requires Plain(e)
    ensures ParseLine(LineOf(e)) == Some(e)
  {
    var line := LineOf(e);
    var b := line[|e.key| + 1..];
    assert line == e.key + [':'] + b;
    FirstIndex(e.key, ':', b);
    assert line[..|e.key|] == e.key;
    if e.raw != "" {
      assert b == " " + e.raw;
      assert b[1..] == e.raw;
    }
  }

  lemma LineOfParse(line: string)
    requires ParseLine(line).Some? && '\n' !in line
    ensures LineOf(ParseLine(line).value) == line && Plain(ParseLine(line).value)
  {
    var c := IndexOf(line, ':');
    assert line == line[..c] + [':'] + line[c + 1..];
  }

  lemma LinesHaveNoNewline(e: Entry)
    requires Plain(e)
    ensures '\n' !in LineOf(e)
  {
  }

  lemma LoadOneLine(line: string, rest: string, e: Entry, d: Data)
    requires '\n' !in line && ParseLine(line) == Some(e) && Load(rest) == Some(d) && !HasKey(d, e.key)
    ensures Load(line + "\n" + rest) == Some([e] + d)
  {
    hide ParseLine, HasKey;
    var fm := line + ['\n'] + rest;
    FirstIndex(line, '\n', rest);
    assert fm[..|line|] == line && fm[|line| + 1..] == rest;
  }

  /** Dumped data loads back as it was. */
  lemma {:induction false} LoadInvertsDump(d: Data)
    requires Wellformed(d)
    ensures Load(Dump(d)) == Some(d)
    decreases |d|
  {
    hide ParseLine, LineOf, IndexOf;
    if d != [] {
      var e, rest := d[0], d[1..];
      LoadInvertsDump(rest);
      LinesHaveNoNewline(e);
      ParseLineOf(e);
      assert !HasKey(rest, e.key);
      LoadOneLine(LineOf(e), Dump(rest), e, rest);
      assert [e] + rest == d;
    }
  }

  /** Whatever loads is dumped back unchanged. */
  lemma {:induction false} DumpInvertsLoad(fm: string)
    requires Load(fm).Some?
    ensures Wellformed(Load(fm).value) && Dump(Load(fm).value) == fm
    decreases |fm|
  {
    hide ParseLine, LineOf, IndexOf;
    if fm != "" {
      var k := IndexOf(fm, '\n');
      DumpInvertsLoad(fm[k + 1..]);
      LineOfParse(fm[..k]);
      var d := Load(fm).value;
      assert d[1..] == Load(fm[k + 1..]).value;
      assert fm == fm[..k] + "\n" + fm[k + 1..];
    }
  }

  /** Dumped data is a proper frontmatter block: every line holds a colon, so none is a delimiter. */
  lemma {:induction false} DumpIsBlock(d: Data)
    requires forall e | e in d :: Plain(e)
    ensures IsBlock(Dump(d))
    decreases |d|
  {
    var fm := Dump(d);
    if d == [] {
      forall i ensures !Occurs("\n" + fm, MARK, i) {
      }
    } else {
      var line, rest := LineOf(d[0]), Dump(d[1..]);
      DumpIsBlock(d[1..]);
      LinesHaveNoNewline(d[0]);
      assert fm == line + "\n" + rest;
      var text := "\n" + fm;
      assert fm[|fm| - 1] == if rest == "" then '\n' else rest[|rest| - 1];
      forall i ensures !Occurs(text, MARK, i) {
        if 0 <= i && i + 5 <= |text| {
          NoMarkAt(line, rest, i, d[0]);
        }
      }
    }
  }

  lemma NoMarkAt(line: string, rest: string, i: nat, e: Entry)
    requires Plain(e) && line == LineOf(e) && '\n' !in line
    requires IsBlock(rest)
    requires i + 5 <= |line| + |rest| + 2
    ensures !Occurs("\n" + (line + "\n" + rest), MARK, i)
  {
    var text := "\n" + (line + "\n" + rest);
    assert forall k | 0 <= k < |line| :: text[k + 1] == line[k];
    if i == 0 {
      NoMarkAtStart(line, text, e);
    } else if i <= |line| {
      assert text[i..i + 5][0] == line[i - 1] != '\n';
    } else {
      var j := i - |line| - 1;
      assert !Occurs("\n" + rest, MARK, j);
      assert text[|line| + 1..] == "\n" + rest;
      assert text[i..i + 5] == ("\n" + rest)[j..j + 5];
    }
  }

  lemma NoMarkAtStart(line: string, text: string, e: Entry)
    requires Plain(e) && line == LineOf(e) && '\n' !in line
    requires |line| < |text| && 5 <= |text| && forall k | 0 <= k < |line| :: text[k + 1] == line[k]
    ensures !Occurs(text, MARK, 0)
  {
    if |line| >= 4 {
      assert text[0..5][4] == line[3] != '\n';
    } else {
      assert line[|e.key|] == ':';
      assert text[0..5][|e.key| + 1] == ':';
    }
  }
}
