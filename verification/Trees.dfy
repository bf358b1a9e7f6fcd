/** An optional value, for lookups and for code that returns None. */
module Options {
  datatype Option<+T> = None | Some(value: T)
}

/** Snapshots of a directory tree and linear commit histories over them.
    A file is one value; a commit is the snapshot it records. */
module Trees {
  import opened Options

  type Path = string

  /** A file's content. `Marked` is a file left with conflict markers in it. */
  datatype Blob = Text(text: string) | Marked(text: string)

  type Tree = map<Path, Blob>

  datatype Tag = Mcp(operation: string, paths: seq<Path>) | Sync | Foreign

  datatype Commit = Commit(tag: Tag, tree: Tree)

  type History = seq<Commit>

  /** A file version: a path and the content it was given, None for a deletion. */
  type Version = (Path, Option<Blob>)

  function At(t: Tree, p: Path): Option<Blob> {
    if p in t then Some(t[p]) else None
  }

  predicate Differs(a: Tree, b: Tree, p: Path) {
    At(a, p) != At(b, p)
  }

  /** Trees are equal when every lookup agrees. */
  lemma TreesAgree(a: Tree, b: Tree)
    requires forall p :: At(a, p) == At(b, p)
    ensures a == b
  {
    forall p ensures p in a <==> p in b {
      assert At(a, p) == At(b, p);
    }
    forall p | p in a ensures a[p] == b[p] {
      assert At(a, p) == At(b, p);
    }
  }

  /** `onto` with every path that changes from `before` to `after` set as in `after`. */
  function Merge(onto: Tree, before: Tree, after: Tree): (t: Tree)
    ensures forall p :: At(t, p) == if Differs(before, after, p) then At(after, p) else At(onto, p)
  {
    map p | p in onto.Keys + after.Keys && p in (if Differs(before, after, p) then after else onto)
      :: (if Differs(before, after, p) then after else onto)[p]
  }

  /** The file versions a step from `before` to `after` introduces. */
  function Delta(before: Tree, after: Tree): (vs: set<Version>)
    ensures forall p, v :: (p, v) in vs <==> Differs(before, after, p) && v == At(after, p)
  {
    set p | p in before.Keys + after.Keys && Differs(before, after, p) :: (p, At(after, p))
  }

  predicate Unmarked(t: Tree) {
    forall p | p in t :: t[p].Text?
  }

  lemma MergeStaysUnmarked(onto: Tree, before: Tree, after: Tree)
    requires Unmarked(onto) && Unmarked(after)
    ensures Unmarked(Merge(onto, before, after))
  {
    var t := Merge(onto, before, after);
    forall p | p in t ensures t[p].Text? {
      assert At(t, p) == At(after, p) || At(t, p) == At(onto, p);
    }
  }

  predicate UnmarkedHistory(h: History) {
    forall c | c in h :: Unmarked(c.tree)
  }

  /** The tree a history ends at; the empty history has the empty tree. */
  function Tip(h: History): Tree {
    if |h| == 0 then map[] else h[|h| - 1].tree
  }

  /** The tree commit `i` was made on top of. */
  function Before(h: History, i: nat): Tree
    requires i <= |h|
  {
    if i == 0 then map[] else h[i - 1].tree
  }

  /** Commit `i` of `h` gives `p` the new content `v`. */
  predicate Introduces(h: History, i: nat, p: Path, v: Option<Blob>)
    requires i < |h|
  {
    At(Before(h, i), p) != v && At(h[i].tree, p) == v
  }

  /** Some commit of `h` gives `p` the content `v`: that version is recoverable from `h`. */
  predicate Records(h: History, p: Path, v: Option<Blob>) {
    exists i | 0 <= i < |h| :: Introduces(h, i, p, v)
  }

  predicate RecordsAll(h: History, vs: set<Version>) {
    forall x | x in vs :: Records(h, x.0, x.1)
  }

  lemma LongerRecordsMore(h: History, k: History, p: Path, v: Option<Blob>)
    requires h <= k && Records(h, p, v)
    ensures Records(k, p, v)
  {
    var i :| 0 <= i < |h| && Introduces(h, i, p, v);
    assert Introduces(k, i, p, v);
  }

  lemma LongerRecordsAll(h: History, k: History, vs: set<Version>)
    requires h <= k && RecordsAll(h, vs)
    ensures RecordsAll(k, vs)
  {
    forall x | x in vs ensures Records(k, x.0, x.1) {
      LongerRecordsMore(h, k, x.0, x.1);
    }
  }

  /** A file present at the tip was introduced by some commit. */
  lemma {:induction false} PresentIsRecorded(h: History, p: Path)
    requires p in Tip(h)
    ensures Records(h, p, At(Tip(h), p))
  {
    var i, v := |h| - 1, At(Tip(h), p);
    if Introduces(h, i, p, v) {
    } else {
      assert Tip(h[..i]) == Before(h, i);
      PresentIsRecorded(h[..i], p);
      LongerRecordsMore(h[..i], h, p, v);
    }
  }

  /** A file present at some point of a history and absent at its tip was deleted by some commit. */
  lemma {:induction false} VanishedIsRecorded(h: History, k: nat, p: Path)
    requires k <= |h| && p in Tip(h[..k]) && p !in Tip(h)
    ensures Records(h, p, None)
  {
    var i := |h| - 1;
    assert h[..|h|] == h;
    if Introduces(h, i, p, None) {
    } else {
      assert Tip(h[..i]) == Before(h, i) && h[..i][..k] == h[..k];
      VanishedIsRecorded(h[..i], k, p);
      LongerRecordsMore(h[..i], h, p, None);
    }
  }

  /** Appending a commit records exactly the versions it introduces. */
  lemma CommitRecordsItsDelta(h: History, c: Commit)
    ensures RecordsAll(h + [c], Delta(Tip(h), c.tree))
  {
    var k := h + [c];
    forall x | x in Delta(Tip(h), c.tree) ensures Records(k, x.0, x.1) {
      assert Differs(Tip(h), c.tree, x.0) && x.1 == At(c.tree, x.0) by { assert (x.0, x.1) == x; }
      assert Before(k, |h|) == Tip(h);
      assert Introduces(k, |h|, x.0, x.1);
    }
  }
}
