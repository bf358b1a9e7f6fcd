/** Printing a lock's age in coarse human units, and reading it back. */
module Ages {
  import opened Decimal

  /** The whole seconds an age counts as; a negative age counts as none. */
  function WholeSeconds(age: real): (s: nat)
    ensures if age < 0.0 then s == 0 else s as real <= age < s as real + 1.0
  {
    if age < 0.0 then 0 else age.Floor
  }

  function Part(v: nat, unit: char): seq<string> {
    if v > 0 then [Digits(v) + [unit]] else []
  }

  function Join(parts: seq<string>): string {
    if |parts| == 0 then ""
    else if |parts| == 1 then parts[0]
    else parts[0] + " " + Join(parts[1..])
  }

  function Parts(s: nat): seq<string> {
    Part(s / 86400, 'd') + Part(s % 86400 / 3600, 'h') + Part(s % 86400 % 3600 / 60, 'm')
  }

  function FormatSeconds(s: nat): string {
    if |Parts(s)| > 0 then Join(Parts(s)) else Digits(s % 86400 % 3600 % 60) + "s"
  }

  function FormatAge(age: real): string {
    FormatSeconds(WholeSeconds(age))
  }

  // ---- Reading an age back ---------------------------------------------------------------

  function UnitSeconds(unit: char): nat {
    if unit == 'd' then 86400 else if unit == 'h' then 3600 else if unit == 'm' then 60 else 1
  }

  /** How many digits `text` begins with. */
  function DigitRun(text: string): (k: nat)
    ensures k <= |text| && AllDigits(text[..k])
  {
    if |text| == 0 || !IsDigit(text[0]) then 0
    else
      var k := DigitRun(text[1..]);
      assert text[..k + 1] == [text[0]] + text[1..][..k];
      k + 1
  }

  /** The seconds an age text stands for: digits and a unit, separated by single spaces. */
  function Decode(text: string): nat {
    var k := DigitRun(text);
    if k >= |text| then 0
    else
      var v := Value(text[..k]) * UnitSeconds(text[k]);
      if k + 1 < |text| && text[k + 1] == ' ' then v + Decode(text[k + 2..]) else v
  }

  lemma {:induction false} DigitRunStops(ds: string, c: char, rest: string)
    requires AllDigits(ds) && !IsDigit(c)
    ensures DigitRun(ds + [c] + rest) == |ds|
  {
    if ds != "" {
      assert (ds + [c] + rest)[1..] == ds[1..] + [c] + rest;
      DigitRunStops(ds[1..], c, rest);
    } else {
      assert (ds + [c] + rest)[0] == c;
    }
  }

  lemma DecodeToken(v: nat, unit: char, rest: string)
    requires !IsDigit(unit)
    ensures Decode(Digits(v) + [unit]) == v * UnitSeconds(unit)
    ensures Decode(Digits(v) + [unit] + " " + rest) == v * UnitSeconds(unit) + Decode(rest)
  {
    var ds := Digits(v);
    ValueOfDigits(v);
    DigitRunStops(ds, unit, "");
    DigitRunStops(ds, unit, " " + rest);
    var lone, text := ds + [unit] + "", ds + [unit] + (" " + rest);
    assert lone == ds + [unit] && text == ds + [unit] + " " + rest;
    assert lone[..|ds|] == ds && text[..|ds|] == ds;
    assert text[|ds| + 1] == ' ' && text[|ds| + 2..] == rest;
  }

  /** Decoding a list of parts adds up what they stand for. */
  lemma DecodeParts(a: nat, b: nat, c: nat)
    requires a > 0 || b > 0 || c > 0
    ensures Decode(Join(Part(a, 'd') + Part(b, 'h') + Part(c, 'm'))) == a * 86400 + b * 3600 + c * 60
  {
    var d, h, m := Digits(a) + "d", Digits(b) + "h", Digits(c) + "m";
    DecodeToken(c, 'm', "");
    DecodeToken(b, 'h', m);
    DecodeToken(a, 'd', m);
    DecodeToken(a, 'd', h);
    DecodeToken(a, 'd', h + " " + m);
    assert Join([m]) == m && Join([h]) == h && Join([d]) == d;
    assert [h, m][1..] == [m] && [d, m][1..] == [m] && [d, h][1..] == [h] && [d, h, m][1..] == [h, m];
    assert Join([h, m]) == h + " " + m;
    assert Join([d, h, m]) == d + " " + (h + " " + m);
    assert Join([d, m]) == d + " " + m && Join([d, h]) == d + " " + h;
    assert h + " " + m == Digits(b) + ['h'] + " " + m;
    assert d + " " + (h + " " + m) == Digits(a) + ['d'] + " " + (h + " " + m);
  }

  /** What survives printing: the seconds below a minute, whole minutes from there on. */
  function Bucket(s: nat): nat {
    if s < 60 then s else 60 * (s / 60)
  }

  lemma SplitSeconds(s: nat)
    ensures var a, b, c, r := s / 86400, s % 86400 / 3600, s % 86400 % 3600 / 60, s % 86400 % 3600 % 60;
            && s == a * 86400 + b * 3600 + c * 60 + r && r < 60
            && (a > 0 || b > 0 || c > 0 <==> s >= 60)
            && Bucket(s) == if s < 60 then r else a * 86400 + b * 3600 + c * 60
  {
  }

  lemma DecodeInvertsFormat(s: nat)
    ensures Decode(FormatSeconds(s)) == Bucket(s)
  {
    hide Decode, Join, Bucket, Digits;
    SplitSeconds(s);
    if s >= 60 {
      DecodeParts(s / 86400, s % 86400 / 3600, s % 86400 % 3600 / 60);
    } else {
      DecodeToken(s % 86400 % 3600 % 60, 's', "");
    }
  }

  /** Two ages print alike exactly when they fall in the same bucket. */
  lemma PrintAlikeExactly(x: real, y: real)
    ensures FormatAge(x) == FormatAge(y) <==> Bucket(WholeSeconds(x)) == Bucket(WholeSeconds(y))
    ensures Decode(FormatAge(x)) == Bucket(WholeSeconds(x))
  {
    hide Decode, FormatSeconds, Bucket, WholeSeconds;
    var s, t := WholeSeconds(x), WholeSeconds(y);
    DecodeInvertsFormat(s);
    DecodeInvertsFormat(t);
    if Bucket(s) == Bucket(t) {
      SameBucketPrintsAlike(s, t);
    }
  }

  lemma SameBucketPrintsAlike(s: nat, t: nat)
    requires Bucket(s) == Bucket(t)
    ensures FormatSeconds(s) == FormatSeconds(t)
  {
    hide Join, Digits, Part;
    if s >= 60 {
      assert s / 60 == t / 60;
      MinutesDecide(s);
      MinutesDecide(t);
    }
  }

  /** The printed parts depend on the whole minutes only. */
  lemma MinutesDecide(s: nat)
    ensures s / 86400 == s / 60 / 1440
    ensures s % 86400 / 3600 == s / 60 % 1440 / 60
    ensures s % 86400 % 3600 / 60 == s / 60 % 1440 % 60
    ensures s >= 60 ==> |Parts(s)| > 0
  {
  }

  /** The text for so many days, hours, minutes and seconds: each unit that is not zero, largest
      first, separated by single spaces; the seconds only when there is nothing else. */
  function Spelled(d: nat, h: nat, m: nat, r: nat): string {
    if d == 0 && h == 0 && m == 0 then Digits(r) + "s"
    else
      (if d > 0 then Digits(d) + "d" else "")
      + (if d > 0 && (h > 0 || m > 0) then " " else "")
      + (if h > 0 then Digits(h) + "h" else "")
      + (if h > 0 && m > 0 then " " else "")
      + (if m > 0 then Digits(m) + "m" else "")
  }

  /** Every age is printed in its proper units: hours below 24, minutes and seconds below 60. */
  lemma PrintsProperUnits(d: nat, h: nat, m: nat, r: nat)
    requires h < 24 && m < 60 && r < 60
    ensures FormatSeconds(86400 * d + 3600 * h + 60 * m + r) == Spelled(d, h, m, r)
  {
    hide Digits;
    var s := 86400 * d + 3600 * h + 60 * m + r;
    UnitsOf(d, h, m, r);
    assert Parts(s) == Part(d, 'd') + Part(h, 'h') + Part(m, 'm');
    JoinedParts(Part(d, 'd'), Part(h, 'h'), Part(m, 'm'));
  }

  lemma JoinedParts(a: seq<string>, b: seq<string>, c: seq<string>)
    requires |a| <= 1 && |b| <= 1 && |c| <= 1
    ensures Join(a + b + c)
         == (if |a| > 0 then a[0] else "") + (if |a| > 0 && (|b| > 0 || |c| > 0) then " " else "")
            + (if |b| > 0 then b[0] else "") + (if |b| > 0 && |c| > 0 then " " else "")
            + (if |c| > 0 then c[0] else "")
  {
    var p := a + b + c;
    if |p| == 3 {
      assert p[1..] == [p[1], p[2]] && p[1..][1..] == [p[2]];
      assert Join([p[2]]) == p[2];
      assert Join([p[1], p[2]]) == p[1] + " " + p[2];
    } else if |p| == 2 {
      assert p[1..] == [p[1]];
    }
  }

  lemma UnitsOf(d: nat, h: nat, m: nat, r: nat)
    requires h < 24 && m < 60 && r < 60
    ensures var s := 86400 * d + 3600 * h + 60 * m + r;
            && s / 86400 == d && s % 86400 == 3600 * h + 60 * m + r
            && (3600 * h + 60 * m + r) / 3600 == h && (3600 * h + 60 * m + r) % 3600 == 60 * m + r
            && (60 * m + r) / 60 == m && (60 * m + r) % 60 == r
  {
  }
}
