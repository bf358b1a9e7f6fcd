/** Splitting a note into its frontmatter block and its body. */
module Frontmatter {
  import opened Options

  const DELIM: string := "---\n"
  const MARK: string := "\n" + DELIM

  /** `pat` occurs in `text` at position `i`. */
  predicate Occurs(text: string, pat: string, i: int) {
    0 <= i && i + |pat| <= |text| && text[i..i + |pat|] == pat
  }

  /** `text.find(pat, start)`: the first occurrence from `start` on. */
  function Find(text: string, pat: string, start: nat): (r: Option<nat>)
    requires start <= |text|
    ensures r.Some? ==> start <= r.value && Occurs(text, pat, r.value)
                        && forall i | start <= i < r.value :: !Occurs(text, pat, i)
    ensures r.None? ==> forall i | start <= i :: !Occurs(text, pat, i)
    decreases |text| - start
  {
    if Occurs(text, pat, start) then Some(start)
    else if start == |text| then None
    else Find(text, pat, start + 1)
  }

  /** The block between the delimiters with its trailing newline, and the rest; no block when the
      text does not open with one that is closed. */
  function Split(text: string): (Option<string>, string) {
    if !Occurs(text, DELIM, 0) then (None, text)
    else
      match Find(text, MARK, |DELIM| - 1)
      case None => (None, text)
      case Some(end) => (Some(text[|DELIM|..end + 1]), text[end + 1 + |DELIM|..])
  }

  function Assemble(fm: string, body: string): string {
    DELIM + fm + DELIM + body
  }

  /** What may stand between the delimiters: whole lines, none of them a delimiter. */
  ghost predicate IsBlock(fm: string) {
    && (fm == "" || fm[|fm| - 1] == '\n')
    && forall i :: !Occurs("\n" + fm, MARK, i)
  }

  /** In an assembled text nothing before the closing delimiter matches: not inside the block, and
      not straddling its end. */
  lemma NoEarlierMark(fm: string, body: string, i: nat)
    requires IsBlock(fm) && |DELIM| - 1 <= i < |DELIM| - 1 + |fm|
    ensures !Occurs(Assemble(fm, body), MARK, i)
  {
    var text := Assemble(fm, body);
    var j := i - (|DELIM| - 1);
    assert |text| == 8 + |fm| + |body|;
    assert forall k | 0 <= k <= |fm| :: text[k + 3] == ("\n" + fm)[k];
    if j + 5 <= |fm| + 1 {
      assert !Occurs("\n" + fm, MARK, j);
      assert ("\n" + fm)[j..j + 5] == text[i..i + 5];
    } else {
      var o := |fm| - j;
      assert 1 <= o <= 3 && MARK[o] == '-';
      assert text[i..i + 5][o] == text[|fm| + 3] == '\n';
    }
  }

  /** Splitting an assembled text gives back exactly the block and the body. */
  lemma SplitInvertsAssemble(fm: string, body: string)
    requires IsBlock(fm)
    ensures Split(Assemble(fm, body)) == (Some(fm), body)
  {
    var text := Assemble(fm, body);
    var end := |DELIM| - 1 + |fm|;
    assert text[0..4] == DELIM;
    assert text[end] == '\n';
    assert text[end..end + 5] == MARK;
    assert Occurs(text, MARK, end);
    forall i | 3 <= i < end ensures !Occurs(text, MARK, i) {
      NoEarlierMark(fm, body, i);
    }
    assert Find(text, MARK, 3) == Some(end);
    assert text[4..end + 1] == fm;
    assert text[end + 5..] == body;
  }

  /** A text that splits is the assembly of its parts, and its block is a proper one. */
  lemma AssembleInvertsSplit(text: string)
    requires Split(text).0.Some?
    ensures Assemble(Split(text).0.value, Split(text).1) == text
    ensures IsBlock(Split(text).0.value)
  {
    var end := Find(text, MARK, |DELIM| - 1).value;
    var fm := text[4..end + 1];
    MarkedText(text, end);
    forall i ensures !Occurs("\n" + fm, MARK, i) {
      if 0 <= i && i + 5 <= |fm| + 1 {
        assert ("\n" + fm)[i..i + 5] == text[3 + i..8 + i];
        assert !Occurs(text, MARK, 3 + i);
      }
    }
  }

  /** A text with both delimiters is what they enclose, put together. */
  lemma MarkedText(text: string, end: nat)
    requires Occurs(text, DELIM, 0) && 3 <= end && Occurs(text, MARK, end)
    ensures text == Assemble(text[4..end + 1], text[end + 5..])
    ensures "\n" + text[4..end + 1] == text[3..end + 1] && text[end] == '\n'
  {
    assert text[0..4] == DELIM;
    assert text[end..end + 5] == MARK;
    assert text[3] == text[0..4][3] == '\n';
    assert text[end] == text[end..end + 5][0];
    assert text[end + 1..end + 5] == text[end..end + 5][1..] == DELIM;
    assert text == text[0..4] + text[4..end + 1] + text[end + 1..end + 5] + text[end + 5..];
  }

  /** So a text splits into (fm, body) exactly when it is their assembly and fm is a block. */
  lemma SplitExactly(text: string, fm: string, body: string)
    ensures Split(text) == (Some(fm), body) <==> text == Assemble(fm, body) && IsBlock(fm)
  {
    if Split(text) == (Some(fm), body) {
      AssembleInvertsSplit(text);
    }
    if text == Assemble(fm, body) && IsBlock(fm) {
      SplitInvertsAssemble(fm, body);
    }
  }

  /** The text is no assembly of a block and a body. */
  ghost predicate NoBlock(text: string) {
    forall fm, body :: text == Assemble(fm, body) ==> !IsBlock(fm)
  }

  /** A text without a block is body from beginning to end. */
  lemma NoBlockExactly(text: string)
    ensures NoBlock(text) <==> Split(text).0.None?
    ensures NoBlock(text) <==> Split(text) == (None, text)
  {
    hide IsBlock;
    if Split(text).0.Some? {
      AssembleInvertsSplit(text);
    }
    forall fm, body | text == Assemble(fm, body) && IsBlock(fm) ensures Split(text).0.Some? {
      SplitInvertsAssemble(fm, body);
    }
  }
}
