/** `git rebase -X theirs <upstream>` on linear histories of whole-file snapshots. */
module Rebasing {
  import opened Options
  import opened Trees

  /** Length of the longest common prefix: the fork point of two histories. */
  function Fork(a: History, b: History): (n: nat)
    ensures n <= |a| && n <= |b| && a[..n] == b[..n]
    ensures n < |a| && n < |b| ==> a[n] != b[n]
  {
    if |a| == 0 || |b| == 0 || a[0] != b[0] then 0
    else
      var n := Fork(a[1..], b[1..]);
      assert a[..n + 1] == [a[0]] + a[1..][..n] && b[..n + 1] == [b[0]] + b[1..][..n];
      n + 1
  }

  lemma ForkWhereTheyPart(a: History, b: History, n: nat)
    requires n < |a| && n < |b| && a[..n] == b[..n] && a[n] != b[n]
    ensures Fork(a, b) == n
  {
    var m := Fork(a, b);
    assert forall i | 0 <= i < m :: a[..m][i] == b[..m][i];
    assert forall i | 0 <= i < n :: a[..n][i] == b[..n][i];
  }

  /** Two steps are the same patch: they change the same paths between the same contents. */
  predicate SamePatch(before: Tree, after: Tree, before': Tree, after': Tree) {
    forall p | p in before.Keys + after.Keys + before'.Keys + after'.Keys ::
      Differs(before, after, p) || Differs(before', after', p) ==>
        At(before, p) == At(before', p) && At(after, p) == At(after', p)
  }

  /** Upstream already holds this very patch beyond the fork point; a rebase skips such a commit. */
  predicate AlreadyUpstream(up: History, n: nat, before: Tree, after: Tree) {
    exists j | n <= j < |up| :: SamePatch(Before(up, j), up[j].tree, before, after)
  }

  /** A change on one side meets a deletion on the other. `-X theirs` settles clashing contents,
      never this. */
  predicate Clash(onto: Tree, before: Tree, after: Tree, p: Path) {
    && Differs(before, after, p)
    && At(onto, p) != At(before, p)
    && At(onto, p) != At(after, p)
    && (At(onto, p) == None || At(after, p) == None)
  }

  predicate Clashes(onto: Tree, before: Tree, after: Tree) {
    exists p | p in before.Keys + after.Keys :: Clash(onto, before, after, p)
  }

  /** Where a replay has got to: all of it done, or stopped at a clash. */
  datatype Progress = Done(history: History) | Stuck(history: History)

  /** Replay one commit: skip it if upstream has it, stop on a clash, otherwise apply its changes
      and drop it if nothing is left of it. */
  function Pick(up: History, n: nat, acc: History, before: Tree, c: Commit): Progress {
    if AlreadyUpstream(up, n, before, c.tree) then Done(acc)
    else if Clashes(Tip(acc), before, c.tree) then Stuck(acc)
    else
      var t := Merge(Tip(acc), before, c.tree);
      if t == Tip(acc) then Done(acc) else Done(acc + [Commit(c.tag, t)])
  }

  /** Replay `local[n..i]` on top of `up`. */
  function Replay(up: History, n: nat, local: History, i: nat): (r: Progress)
    requires n <= i <= |local|
    decreases i
    ensures up <= r.history
  {
    if i == n then Done(up)
    else
      var r := Replay(up, n, local, i - 1);
      if r.Stuck? then r else Pick(up, n, r.history, Before(local, i - 1), local[i - 1])
  }

  /** The whole rebase: nothing to do when upstream is already contained. */
  function Rebased(up: History, local: History): Progress {
    var n := Fork(up, local);
    if n == |up| then Done(local) else Replay(up, n, local, |local|)
  }

  /** What a rebase interrupted after at most `steps` picks had built. */
  function Partway(up: History, local: History, steps: nat): History {
    var n := Fork(up, local);
    Replay(up, n, local, if n + steps <= |local| then n + steps else |local|).history
  }

  lemma RebasedExtendsUpstream(up: History, local: History)
    requires Rebased(up, local).Done?
    ensures up <= Rebased(up, local).history
  {
    var n := Fork(up, local);
    if n == |up| {
      assert up == up[..n] == local[..n];
    }
  }

  // ---- Nothing local is lost -------------------------------------------------------------

  /** A version a commit introduces is recorded after its replay, whichever way the pick goes. */
  lemma PickKeepsVersion(up: History, n: nat, acc: History, before: Tree, c: Commit, p: Path, v: Option<Blob>)
    requires n <= |up| && up <= acc && Pick(up, n, acc, before, c).Done?
    requires At(before, p) != v && At(c.tree, p) == v
    requires v == None ==> exists k :: 0 <= k <= |acc| && p in Tip(acc[..k])
    ensures Records(Pick(up, n, acc, before, c).history, p, v)
  {
    var h := Pick(up, n, acc, before, c).history;
    if AlreadyUpstream(up, n, before, c.tree) {
      var j :| n <= j < |up| && SamePatch(Before(up, j), up[j].tree, before, c.tree);
      assert p in before.Keys + c.tree.Keys;
      assert Introduces(up, j, p, v);
      LongerRecordsMore(up, h, p, v);
    } else if At(Tip(acc), p) == v {
      if v == None {
        var k :| 0 <= k <= |acc| && p in Tip(acc[..k]);
        VanishedIsRecorded(acc, k, p);
      } else {
        PresentIsRecorded(acc, p);
      }
      LongerRecordsMore(acc, h, p, v);
    } else {
      assert Before(h, |acc|) == Tip(acc);
      assert Introduces(h, |acc|, p, v);
    }
  }

  /** A recorded content was present at some point. */
  lemma RecordedWasPresent(h: History, p: Path, b: Blob) returns (k: nat)
    requires Records(h, p, Some(b))
    ensures k <= |h| && p in Tip(h[..k])
  {
    var i :| 0 <= i < |h| && Introduces(h, i, p, Some(b));
    k := i + 1;
    assert Tip(h[..k]) == h[i].tree;
  }

  lemma {:induction false} ReplayStaysDone(up: History, n: nat, local: History, i: nat, j: nat)
    requires n <= i <= j <= |local| && Replay(up, n, local, j).Done?
    ensures Replay(up, n, local, i).Done?
    ensures Replay(up, n, local, i).history <= Replay(up, n, local, j).history
    decreases j
  {
    if i < j {
      ReplayStaysDone(up, n, local, i, j - 1);
    }
  }

  /** Every version `local[..i]` records is recorded by what the replay of `local[n..i]` built. */
  lemma {:induction false} ReplayKeepsRecords(up: History, n: nat, local: History, i: nat, j: nat,
                                              p: Path, v: Option<Blob>)
    requires n <= i <= |local| && n <= |up| && local[..n] == up[..n]
    requires Replay(up, n, local, i).Done?
    requires j < i && Introduces(local, j, p, v)
    ensures Records(Replay(up, n, local, i).history, p, v)
    decreases j
  {
    hide Pick, Rebased;
    var h := Replay(up, n, local, i).history;
    if j < n {
      assert up[j] == up[..n][j] == local[..n][j] == local[j];
      assert j > 0 ==> up[j - 1] == up[..n][j - 1] == local[..n][j - 1] == local[j - 1];
      assert Introduces(up, j, p, v);
      LongerRecordsMore(up, h, p, v);
    } else {
      ReplayStaysDone(up, n, local, j, i);
      ReplayStaysDone(up, n, local, j + 1, i);
      if v == None {
        WasPresentBefore(up, n, local, j, p);
      }
      PickKeepsVersion(up, n, Replay(up, n, local, j).history, Before(local, j), local[j], p, v);
      LongerRecordsMore(Replay(up, n, local, j + 1).history, h, p, v);
    }
  }

  /** A file that `local[..j]` ends with was also present somewhere in the replay of `local[n..j]`. */
  lemma {:induction false} WasPresentBefore(up: History, n: nat, local: History, j: nat, p: Path)
    requires n <= j <= |local| && n <= |up| && local[..n] == up[..n]
    requires Replay(up, n, local, j).Done?
    requires p in Before(local, j)
    ensures exists k :: 0 <= k <= |Replay(up, n, local, j).history|
                        && p in Tip(Replay(up, n, local, j).history[..k])
    decreases j, 0
  {
    assert Tip(local[..j]) == Before(local, j);
    PresentIsRecorded(local[..j], p);
    var v := At(Before(local, j), p);
    var i :| 0 <= i < j && Introduces(local[..j], i, p, v);
    assert Introduces(local, i, p, v);
    ReplayKeepsRecords(up, n, local, j, i, p, v);
    var k := RecordedWasPresent(Replay(up, n, local, j).history, p, v.value);
  }

  /** A completed rebase records every file version the local history recorded: no local version
      is lost, whether its commit was replayed, skipped or dropped. */
  lemma RebaseLosesNoVersion(up: History, local: History, vs: set<Version>)
    requires Rebased(up, local).Done? && RecordsAll(local, vs)
    ensures RecordsAll(Rebased(up, local).history, vs)
  {
    var n := Fork(up, local);
    if n != |up| {
      forall x | x in vs ensures Records(Rebased(up, local).history, x.0, x.1) {
        var j :| 0 <= j < |local| && Introduces(local, j, x.0, x.1);
        ReplayKeepsRecords(up, n, local, |local|, j, x.0, x.1);
      }
    }
  }

  // ---- Local content wins ----------------------------------------------------------------

  /** What the local commits `local[n..i]` that are not already upstream last said about `p`. */
  function LocalSays(up: History, n: nat, local: History, i: nat, p: Path): Option<Option<Blob>>
    requires n <= i <= |local|
    decreases i
  {
    if i == n then None
    else
      var before, after := Before(local, i - 1), local[i - 1].tree;
      if Differs(before, after, p) && !AlreadyUpstream(up, n, before, after) then Some(At(after, p))
      else LocalSays(up, n, local, i - 1, p)
  }

  lemma PickedTree(up: History, n: nat, acc: History, before: Tree, c: Commit, p: Path)
    requires Pick(up, n, acc, before, c).Done?
    ensures At(Tip(Pick(up, n, acc, before, c).history), p)
         == if Differs(before, c.tree, p) && !AlreadyUpstream(up, n, before, c.tree)
            then At(c.tree, p) else At(Tip(acc), p)
  {
  }

  lemma {:induction false} ReplayedTree(up: History, n: nat, local: History, i: nat, p: Path)
    requires n <= i <= |local| && Replay(up, n, local, i).Done?
    ensures At(Tip(Replay(up, n, local, i).history), p)
         == match LocalSays(up, n, local, i, p) case Some(v) => v case None => At(Tip(up), p)
    decreases i
  {
    if i > n {
      ReplayedTree(up, n, local, i - 1, p);
      PickedTree(up, n, Replay(up, n, local, i - 1).history, Before(local, i - 1), local[i - 1], p);
    }
  }

  /** Commit `i` of `local` touches `p` and is not already upstream. */
  predicate NewTouch(up: History, n: nat, local: History, i: nat, p: Path)
    requires i < |local|
  {
    Differs(Before(local, i), local[i].tree, p) && !AlreadyUpstream(up, n, Before(local, i), local[i].tree)
  }

  predicate LastNewTouch(up: History, n: nat, local: History, i: nat, p: Path)
    requires i < |local|
  {
    NewTouch(up, n, local, i, p) && forall j | i < j < |local| :: !NewTouch(up, n, local, j, p)
  }

  predicate NeverNewlyTouched(up: History, n: nat, local: History, p: Path) {
    forall j | n <= j < |local| :: !NewTouch(up, n, local, j, p)
  }

  lemma {:induction false} LastSayIsLast(up: History, n: nat, local: History, i: nat, j: nat, p: Path)
    requires n <= i < j <= |local| && LastNewTouch(up, n, local, i, p)
    ensures LocalSays(up, n, local, j, p) == Some(At(local[i].tree, p))
    decreases j
  {
    if i + 1 < j {
      assert !NewTouch(up, n, local, j - 1, p);
      LastSayIsLast(up, n, local, i, j - 1, p);
    }
  }

  lemma {:induction false} SilentIfUntouched(up: History, n: nat, local: History, j: nat, p: Path)
    requires n <= j <= |local| && NeverNewlyTouched(up, n, local, p)
    ensures LocalSays(up, n, local, j, p) == None
    decreases j
  {
    if n < j {
      assert !NewTouch(up, n, local, j - 1, p);
      SilentIfUntouched(up, n, local, j - 1, p);
    }
  }

  /** With nothing new upstream, the local history itself is what it says. */
  lemma {:induction false} NothingUpstream(up: History, local: History, i: nat, p: Path)
    requires up <= local && |up| <= i <= |local|
    ensures At(Before(local, i), p)
         == match LocalSays(up, |up|, local, i, p) case Some(v) => v case None => At(Tip(up), p)
    decreases i
  {
    if i > |up| {
      NothingUpstream(up, local, i - 1, p);
    }
  }

  /** Every path after a completed rebase, clash or no clash: the content its last local commit not
      already upstream gave it, or upstream's if there is no such commit. */
  lemma LocalWins(up: History, local: History, p: Path)
    requires Rebased(up, local).Done?
    ensures NeverNewlyTouched(up, Fork(up, local), local, p) ==>
              At(Tip(Rebased(up, local).history), p) == At(Tip(up), p)
    ensures forall i | Fork(up, local) <= i < |local| && LastNewTouch(up, Fork(up, local), local, i, p) ::
              At(Tip(Rebased(up, local).history), p) == At(local[i].tree, p)
  {
    hide NeverNewlyTouched, LastNewTouch;
    var n := Fork(up, local);
    if n != |up| {
      ReplayedTree(up, n, local, |local|, p);
    } else {
      assert up == up[..n] == local[..n];
      NothingUpstream(up, local, |local|, p);
    }
    forall i | n <= i < |local| && LastNewTouch(up, n, local, i, p)
      ensures At(Tip(Rebased(up, local).history), p) == At(local[i].tree, p)
    {
      LastSayIsLast(up, n, local, i, |local|, p);
    }
    if NeverNewlyTouched(up, n, local, p) {
      SilentIfUntouched(up, n, local, |local|, p);
    }
  }

  /** So a path a local commit touched need not keep the local content: upstream made the same edit and then changed its mind,
      so the rebase skips the local commit and the local content does not win. */
  lemma SkippedCommitLoses() returns (up: History, local: History, p: Path)
    ensures Rebased(up, local).Done?
    ensures exists i :: Fork(up, local) <= i < |local| && Differs(Before(local, i), local[i].tree, p)
    ensures At(Tip(Rebased(up, local).history), p) == At(Tip(up), p) != At(Tip(local), p)
  {
    p := "a.md";
    var t0: Tree, t1: Tree, t2: Tree := map[p := Text("0")], map[p := Text("1")], map[p := Text("2")];
    up := [Commit(Foreign, t0), Commit(Foreign, t1), Commit(Foreign, t2)];
    local := [Commit(Foreign, t0), Commit(Sync, t1)];
    assert up[0] == local[0] && up[1] != local[1];
    var n := 1;
    ForkWhereTheyPart(up, local, n);
    assert SamePatch(Before(up, 1), up[1].tree, Before(local, 1), local[1].tree);
    assert Replay(up, n, local, 1) == Done(up);
    assert Replay(up, n, local, 2) == Done(up);
    assert Differs(Before(local, 1), local[1].tree, p);
  }

  // ---- No conflict markers ---------------------------------------------------------------

  lemma {:induction false} ReplayStaysUnmarked(up: History, n: nat, local: History, i: nat)
    requires n <= i <= |local| && UnmarkedHistory(up) && UnmarkedHistory(local)
    ensures UnmarkedHistory(Replay(up, n, local, i).history)
    decreases i
  {
    if i > n {
      ReplayStaysUnmarked(up, n, local, i - 1);
      var acc := Replay(up, n, local, i - 1).history;
      assert Unmarked(Tip(acc));
      assert local[i - 1] in local;
      MergeStaysUnmarked(Tip(acc), Before(local, i - 1), local[i - 1].tree);
    }
  }

  lemma RebasedStaysUnmarked(up: History, local: History)
    requires UnmarkedHistory(up) && UnmarkedHistory(local)
    ensures UnmarkedHistory(Rebased(up, local).history)
  {
    ReplayStaysUnmarked(up, Fork(up, local), local, if Fork(up, local) == |up| then Fork(up, local) else |local|);
  }

  lemma PartwayStaysUnmarked(up: History, local: History, steps: nat)
    requires UnmarkedHistory(up) && UnmarkedHistory(local)
    ensures UnmarkedHistory(Partway(up, local, steps))
  {
    var n := Fork(up, local);
    ReplayStaysUnmarked(up, n, local, if n + steps <= |local| then n + steps else |local|);
  }

  // ---- Where a rebase stops --------------------------------------------------------------

  /** What a path looks like to three-way merging: the content the pick starts from, what the commit
      makes of it, and what is there already. Only a change on one side of a deletion on the other
      stops a pick; two different contents do not. */
  lemma StopsExactly(up: History, n: nat, acc: History, before: Tree, c: Commit)
    requires !AlreadyUpstream(up, n, before, c.tree)
    ensures Pick(up, n, acc, before, c).Stuck? <==>
              exists p ::
                || (p in before && p !in c.tree && p in Tip(acc) && Tip(acc)[p] != before[p])
                || (p in before && p in c.tree && c.tree[p] != before[p] && p !in Tip(acc))
  {
    forall p | (p in before && p !in c.tree && p in Tip(acc) && Tip(acc)[p] != before[p])
            || (p in before && p in c.tree && c.tree[p] != before[p] && p !in Tip(acc))
      ensures Clashes(Tip(acc), before, c.tree)
    {
      assert Clash(Tip(acc), before, c.tree, p);
    }
  }
}
