/** Runs showing that the hypotheses of the safety theorems are needed. */
module Witnesses {
  import opened Options
  import opened Trees
  import opened Rebasing
  import opened Repository
  import opened Machine
  import opened Safety

  /** A command that succeeds if git lets it, in a world where nothing else moves. */
  const SMOOTH := Outcome(map[], map[], Returned(0), Nothing, 0.0, 1.0)

  /** A command meeting a smooth outcome does exactly what git accepts. */
  lemma SmoothAsk(w: Oracle, s: State, c: Command)
    requires w(s.git.tick) == SMOOTH && (c.Rebase? ==> Rebasable(s.git.repo, c.branch) || !Startable(s.git.repo, c.branch))
    ensures var a := Ask(w, s.git, c);
            && a.git.repo == (if Accepts(s.git.repo, c) then Effect(s.git.repo, c) else s.git.repo)
            && a.reply == Returned(if Accepts(s.git.repo, c) then 0 else Refusal(c))
            && a.git.tick == s.git.tick + 1 && a.git.now == s.git.now + 1.0
  {
    hide Effect, Startable, Rebasable, Weathered;
    CalmWeather(s.git.repo, SMOOTH);
  }

  /** A write whose staging brings something new, all commands succeeding: one commit, acknowledged. */
  lemma SmoothWrite(w: Oracle, s: State, op: string, paths: seq<Path>, staged: Repo)
    requires paths != []
    requires w(s.git.tick).reply == Returned(0) && w(s.git.tick).foreign == map[] && w(s.git.tick).before == 0.0 && w(s.git.tick).took == 1.0
    requires w(s.git.tick + 1) == w(s.git.tick + 2) == w(s.git.tick + 3) == SMOOTH
    requires var r := Weathered(s.git.repo, w(s.git.tick)); Accepts(r, Add(paths)) && staged == Effect(r, Add(paths))
    requires staged.unmerged == {} && staged.index != HeadTree(staged)
    ensures var t := HandleEvent(w, s, McpWrite(op, paths));
            && t.git.repo == MoveHead(staged, HeadHistory(staged) + [Commit(Mcp(op, paths), staged.index)])
            && t.git.tick == s.git.tick + 4 && t.git.now == s.git.now + 4.0
            && t.unpushed && t.degraded.None? && t.lastPush == s.lastPush
            && (staged.stopped.None? ==> t.anchored == s.anchored + Delta(HeadTree(staged), HeadTree(t.git.repo)))
            && (staged.stopped.Some? ==> t.adrift == s.adrift + Delta(HeadTree(staged), HeadTree(t.git.repo)))
  {
    hide Execute, Answer, Weathered;
    var a := Ask(w, s.git, Add(paths));
    assert a.git.repo == staged && a.reply.Ok() by { StagedAsk(w, s, paths); }
    var t := s.(git := a.git);
    SmoothAsk(w, t, Diff);
    var u := t.(git := Ask(w, t.git, Diff).git);
    SmoothAsk(w, u, Diff);
    var v := u.(git := Ask(w, u.git, Diff).git);
    SmoothAsk(w, v, CommitIndex(Mcp(op, paths)));
  }

  lemma StagedAsk(w: Oracle, s: State, paths: seq<Path>)
    requires w(s.git.tick).reply == Returned(0)
    requires Accepts(Weathered(s.git.repo, w(s.git.tick)), Add(paths))
    ensures Ask(w, s.git, Add(paths)).git.repo == Effect(Weathered(s.git.repo, w(s.git.tick)), Add(paths))
    ensures Ask(w, s.git, Add(paths)).reply == Returned(0)
  {
  }

  // ---- A rebase killed part way ----------------------------------------------------------

  function One(text: string): Tree { map["a.md" := Text(text)] }

  function Two(text: string): Tree { map["a.md" := Text(text), "b.md" := Text("0")] }

  const BASE: History := [Commit(Foreign, One("0"))]
  const THEIRS: History := [Commit(Foreign, One("0")), Commit(Foreign, Two("0"))]
  const TAG := Mcp("updated", ["a.md"])
  const OURS: History := [Commit(Foreign, One("0")), Commit(TAG, One("1"))]
  const FINAL: History := [Commit(Foreign, One("0")), Commit(Foreign, Two("0")), Commit(TAG, Two("1"))]

  const WRITE := Got(McpWrite("updated", ["a.md"]), 0.0)
  const MAIN := Config(true, "main", 10.0, 300.0, false)

  /** Everything succeeds that git allows, except that the first rebase is killed by the default
      timeout after checking out what another clone pushed; then the user edits the note once more. */
  function Killed(n: nat): Outcome {
    if n == 4 then SMOOTH.(foreign := map["main" := [map["a.md" := "0", "b.md" := "0"]]])
    else if n == 5 then SMOOTH.(reply := TimedOut, extent := Partly(0, {}), took := 120.0)
    else if n == 6 then SMOOTH.(edits := map["a.md" := Some("2")])
    else SMOOTH
  }

  function Line(h: History): Refs { map["main" := h] }

  /** The clone at the end of each turn. */
  const R0 := Repo(One("1"), One("0"), {}, On("main"), Line(BASE), Line(BASE), Line(BASE), None, None)
  const R1 := Repo(One("1"), One("1"), {}, On("main"), Line(OURS), Line(BASE), Line(BASE), None, None)
  const R2 := Repo(Two("0"), Two("0"), {}, Detached(THEIRS), Line(OURS), Line(THEIRS), Line(THEIRS), Some(On("main")), None)
  const R3 := R2.(work := Two("2"), index := Two("2"), head := Detached(THEIRS + [Commit(TAG, Two("2"))]))
  const R4 := Repo(One("1"), One("1"), {}, On("main"), Line(OURS), Line(THEIRS), Line(THEIRS), None, None)
  const R5 := Repo(Two("1"), Two("1"), {}, On("main"), Line(FINAL), Line(FINAL), Line(FINAL), None, None)

  predicate Shows(s: State, r: Repo, tick: nat, now: real) {
    s.git.repo == r && s.git.tick == tick && s.git.now <= now && s.lastPush == 0.0 && s.degraded.None? && s.unpushed
  }

  lemma FirstEditIsStaged()
    ensures Weathered(R0, SMOOTH) == R0
    ensures Staged(R0, ["a.md"]) == R0.(index := One("1"))
    ensures One("1") != One("0")
  {
    CalmWeather(R0, SMOOTH);
    assert One("1")["a.md"] != One("0")["a.md"];
  }

  lemma FirstWrite(w: Oracle, s: State)
    requires s == Fresh(R0, 0.0) && w(0) == w(1) == w(2) == w(3) == SMOOTH
    ensures Shows(LoopTurn(MAIN, w, s, WRITE), R1, 4, 4.0)
  {
    hide Weathered, Staged, Execute, Answer, StageAndCommit, PushOnce;
    FirstEditIsStaged();
    SmoothWrite(w, Wait(s, 0.0), "updated", ["a.md"], R0.(index := One("1")));
    assert BASE + [Commit(TAG, One("1"))] == OURS;
    assert Line(BASE)["main" := OURS] == Line(OURS);
  }

  const FETCHED := R1.(tracking := Line(THEIRS), remote := Line(THEIRS))

  lemma TheirPushIsFetched()
    ensures Execute(R1, Fetch, Killed(4)) == FETCHED && Answer(R1, Fetch, Killed(4)).Ok()
  {
    hide Rebased, Startable, FastForward, InStep;
    var files := map["a.md" := "0", "b.md" := "0"];
    assert Snapshot(files) == Two("0");
    assert Snapshots([files]) == [Commit(Foreign, Two("0"))];
    assert BASE + [Commit(Foreign, Two("0"))] == THEIRS;
    var w := Weathered(R1, Killed(4));
    assert Edited(R1.work, map[]) == R1.work;
    assert Grown(R1.remote, Killed(4).foreign) == Line(THEIRS);
    assert w.tracking + w.remote == Line(THEIRS);
  }

  lemma KillLeavesRebase(r: Repo, b: Branch, o: Outcome)
    requires o.edits == map[] && o.foreign == map[] && o.reply.TimedOut? && o.extent.Partly?
    requires Startable(r, b) && Behind(r, b)
    ensures Execute(r, Command.Rebase(b), o) == InterruptRebase(r, b, o.extent.stop, o.extent.marks)
    ensures Answer(r, Command.Rebase(b), o).TimedOut?
  {
    hide Startable, Behind, Rebasable, Weathered, InterruptRebase;
    CalmWeather(r, o);
  }

  lemma FetchedCanRebase()
    ensures Startable(FETCHED, "main") && Behind(FETCHED, "main")
    ensures Partway(THEIRS, OURS, 0) == THEIRS
  {
    hide Pick, Rebased;
    assert THEIRS[1] != OURS[1];
    ForkWhereTheyPart(THEIRS, OURS, 1);
  }

  lemma RebaseIsKilled()
    ensures Execute(FETCHED, Command.Rebase("main"), Killed(5)) == R2
    ensures Answer(FETCHED, Command.Rebase("main"), Killed(5)).TimedOut?
  {
    hide Rebased, Execute, Answer, Startable, Behind, Partway;
    FetchedCanRebase();
    assert Merge(One("1"), One("1"), Two("0")) == Two("0");
    assert Scarred(Two("0"), {}) == Two("0");
    KillLeavesRebase(FETCHED, "main", Killed(5));
  }

  lemma KilledPush(s: State)
    requires Shows(s, R1, 4, 4.0)
    ensures Shows(LoopTurn(MAIN, Killed, s, Quiet), R2, 6, 140.0) && LoopTurn(MAIN, Killed, s, Quiet).adrift == s.adrift
  {
    hide Execute, Answer;
    TheirPushIsFetched();
    RebaseIsKilled();
  }

  const STAGED := R2.(work := Two("2"), index := Two("2"))

  lemma SecondEditIsStaged()
    ensures Weathered(R2, Killed(6)) == R2.(work := Two("2"))
    ensures Staged(R2.(work := Two("2")), ["a.md"]) == STAGED
    ensures Two("2") != Two("0") && ("a.md", Some(Text("2"))) in Delta(Two("0"), Two("2"))
  {
    hide Delta, Staged;
    assert Edited(R2.work, map["a.md" := Some("2")]) == Two("2");
    CalmWeather(R2, SMOOTH);
    SecondEditTakesOver();
    assert Differs(Two("0"), Two("2"), "a.md") by {
      assert Two("2")["a.md"] == Text("2") && Two("0")["a.md"] == Text("0");
    }
  }

  lemma SecondEditTakesOver()
    ensures Staged(R2.(work := Two("2")), ["a.md"]) == STAGED
  {
    assert Two("2")["b.md"] == Two("0")["b.md"];
  }

  lemma WriteMidRebase(s: State)
    requires Shows(s, R2, 6, 140.0)
    ensures Shows(LoopTurn(MAIN, Killed, s, WRITE), R3, 10, 150.0)
    ensures ("a.md", Some(Text("2"))) in LoopTurn(MAIN, Killed, s, WRITE).adrift
  {
    hide Weathered, Staged, Execute, Answer, StageAndCommit, PushOnce;
    SecondEditIsStaged();
    SmoothWrite(Killed, Wait(s, 0.0), "updated", ["a.md"], STAGED);
    assert HeadTree(R3) == Two("2");
  }

  lemma AbortThrowsAway()
    ensures Accepts(R3, Fetch) && Effect(R3, Fetch) == R3
    ensures !Startable(R3, "main") && !Accepts(R3, Command.Rebase("main"))
    ensures Accepts(R3, Abort) && Effect(R3, Abort) == R4
    ensures !Accepts(R4, Push("main"))
  {
    hide Rebased;
    assert R3.tracking + R3.remote == R3.tracking;
    assert AbortRebase(R3).work == One("1");
    assert THEIRS[1] != OURS[1];
  }

  lemma AbortedPush(s: State)
    requires Shows(s, R3, 10, 150.0)
    ensures Shows(LoopTurn(MAIN, Killed, s, Quiet), R4, 14, 170.0) && LoopTurn(MAIN, Killed, s, Quiet).adrift == s.adrift
  {
    hide Execute, Answer, Weathered, Startable, Accepts, Effect;
    AbortThrowsAway();
    var s' := Wait(s, 10.0);
    SmoothAsk(Killed, s', Fetch);
    var t := s'.(git := Ask(Killed, s'.git, Fetch).git);
    SmoothAsk(Killed, t, Command.Rebase("main"));
    var u := t.(git := Ask(Killed, t.git, Command.Rebase("main")).git);
    SmoothAsk(Killed, u, Abort);
    var v := u.(git := Ask(Killed, u.git, Abort).git);
    SmoothAsk(Killed, v, Push("main"));
  }

  lemma RebaseOntoTheirs()
    ensures Rebased(THEIRS, OURS) == Done(FINAL)
  {
    assert THEIRS[1] != OURS[1];
    ForkWhereTheyPart(THEIRS, OURS, 1);
    assert Merge(Two("0"), One("0"), One("1")) == Two("1");
    assert Differs(One("0"), Two("0"), "b.md") && At(One("1"), "b.md") == None;
    assert !AlreadyUpstream(THEIRS, 1, One("0"), One("1"));
    assert Two("0")["a.md"] != Two("1")["a.md"];
    assert Pick(THEIRS, 1, THEIRS, One("0"), OURS[1]) == Done(THEIRS + [Commit(TAG, Two("1"))]);
    assert THEIRS + [Commit(TAG, Two("1"))] == FINAL;
    assert Replay(THEIRS, 1, OURS, 1) == Done(THEIRS);
  }

  const REBASED := R4.(work := Two("1"), index := Two("1"), branches := Line(FINAL))

  lemma SecondRebase()
    ensures Rebasable(R4, "main") && FinishRebase(R4, "main") == REBASED
  {
    hide Rebased, Merge;
    RebaseOntoTheirs();
    TheirFileComesIn();
    assert Line(OURS)["main" := FINAL] == Line(FINAL);
  }

  lemma TheirFileComesIn()
    ensures Merge(One("1"), One("1"), Two("1")) == Two("1")
  {
  }

  lemma SecondPush()
    ensures Accepts(REBASED, Push("main")) && Effect(REBASED, Push("main")) == R5
  {
    assert THEIRS <= FINAL;
    assert Line(THEIRS)["main" := FINAL] == Line(FINAL);
  }

  lemma GoodPush(s: State)
    requires Shows(s, R4, 14, 170.0)
    ensures LoopTurn(MAIN, Killed, s, Quiet).git.repo == R5 && !LoopTurn(MAIN, Killed, s, Quiet).unpushed
    ensures LoopTurn(MAIN, Killed, s, Quiet).adrift == s.adrift && LoopTurn(MAIN, Killed, s, Quiet).degraded.None?
  {
    hide Execute, Answer, Weathered, Rebased, Rebasable, FinishRebase, FastForward, Pushed;
    var s' := Wait(s, 10.0);
    SmoothAsk(Killed, s', Fetch);
    assert R4.tracking + R4.remote == R4.tracking;
    var t := s'.(git := Ask(Killed, s'.git, Fetch).git);
    SecondRebase();
    SmoothAsk(Killed, t, Command.Rebase("main"));
    var u := t.(git := Ask(Killed, t.git, Command.Rebase("main")).git);
    SecondPush();
    SmoothAsk(Killed, u, Push("main"));
  }

  lemma SecondEditIsNowhere()
    ensures !Records(FINAL, "a.md", Some(Text("2")))
  {
  }

  /** A killed rebase is swallowed and left in progress. The next write is committed and
      acknowledged on the detached HEAD, hence adrift; the next push cycle's abort throws that commit away, and
      the one after pushes successfully. At the end the worker is healthy with nothing unpushed,
      and an acknowledged version is neither on the remote, nor on the branch, nor on disk. */
  lemma KilledRebaseForgets()
    ensures Settled(R0, "main") && Configured(MAIN, "main")
    ensures var s := Run(MAIN, Killed, Fresh(R0, 0.0), [WRITE, Quiet, WRITE, Quiet, Quiet]);
            var x := ("a.md", Some(Text("2")));
            && s.degraded.None? && !s.unpushed && x in s.adrift
            && !Records(Ref(s.git.repo.remote, "main"), x.0, x.1)
            && !Records(Ref(s.git.repo.branches, "main"), x.0, x.1)
            && At(s.git.repo.work, x.0) != x.1
  {
    hide LoopTurn, Settled;
    assert Settled(R0, "main") by { StartIsSettled(); }
    var s0 := Fresh(R0, 0.0);
    FirstWrite(Killed, s0);
    var s1 := LoopTurn(MAIN, Killed, s0, WRITE);
    KilledPush(s1);
    var s2 := LoopTurn(MAIN, Killed, s1, Quiet);
    WriteMidRebase(s2);
    var s3 := LoopTurn(MAIN, Killed, s2, WRITE);
    AbortedPush(s3);
    var s4 := LoopTurn(MAIN, Killed, s3, Quiet);
    GoodPush(s4);
    SecondEditIsNowhere();
    var s5 := LoopTurn(MAIN, Killed, s4, Quiet);
    RunIsFold(s0, [WRITE, Quiet, WRITE, Quiet, Quiet]);
  }

  lemma StartIsSettled()
    ensures Settled(R0, "main") && InStep(R0)
  {
  }

  lemma RunIsFold(s: State, ts: seq<Turn>)
    requires |ts| == 5
    ensures Run(MAIN, Killed, s, ts)
         == LoopTurn(MAIN, Killed, LoopTurn(MAIN, Killed, LoopTurn(MAIN, Killed,
              LoopTurn(MAIN, Killed, LoopTurn(MAIN, Killed, s, ts[0]), ts[1]), ts[2]), ts[3]), ts[4])
  {
    hide LoopTurn;
    assert ts[..0] == [] && ts[..5] == ts;
    RunStep(MAIN, Killed, s, ts, 0);
    RunStep(MAIN, Killed, s, ts, 1);
    RunStep(MAIN, Killed, s, ts, 2);
    RunStep(MAIN, Killed, s, ts, 3);
    RunStep(MAIN, Killed, s, ts, 4);
  }

  // ---- Conflict markers committed --------------------------------------------------------

  /** The same world up to the kill, which finds one file half merged; then nothing more goes wrong. */
  function Scarring(n: nat): Outcome {
    if n == 4 then Killed(4)
    else if n == 5 then SMOOTH.(reply := TimedOut, extent := Partly(0, {"a.md"}), took := 120.0)
    else SMOOTH
  }

  const SCARS: Tree := map["a.md" := Marked(""), "b.md" := Text("0")]
  const M2 := R2.(work := SCARS, unmerged := {"a.md"})
  const M3 := R2.(work := SCARS, index := SCARS, head := Detached(THEIRS + [Commit(Sync, SCARS)]))

  lemma RebaseLeavesScars()
    ensures Execute(FETCHED, Command.Rebase("main"), Scarring(5)) == M2
    ensures Answer(FETCHED, Command.Rebase("main"), Scarring(5)).TimedOut?
  {
    hide Rebased, Execute, Answer, Startable, Behind, Partway;
    FetchedCanRebase();
    assert Merge(One("1"), One("1"), Two("0")) == Two("0");
    assert Scarred(Two("0"), {"a.md"}) == SCARS;
    KillLeavesRebase(FETCHED, "main", Scarring(5));
  }

  lemma ScarringPush(s: State)
    requires Shows(s, R1, 4, 4.0)
    ensures Shows(LoopTurn(MAIN, Scarring, s, Quiet), M2, 6, 140.0)
  {
    hide Execute, Answer;
    TheirPushIsFetched();
    RebaseLeavesScars();
  }

  lemma ScarsAreStaged()
    ensures Accepts(M2, AddAll) && Effect(M2, AddAll) == M2.(index := SCARS, unmerged := {})
    ensures !Accepts(M2.(index := SCARS, unmerged := {}), Diff)
    ensures Accepts(M2.(index := SCARS, unmerged := {}), CommitIndex(Sync))
    ensures Effect(M2.(index := SCARS, unmerged := {}), CommitIndex(Sync)) == M3
  {
    assert SCARS["a.md"] != Two("0")["a.md"];
  }

  lemma SweepMidRebase(s: State, e: SyncEvent)
    requires Shows(s, M2, 6, 140.0) && e.SyncSweep?
    ensures var t := HandleEvent(Scarring, s, e);
            t.git.repo == M3 && t.git.now <= 150.0 && t.lastPush == 0.0 && t.degraded.None?
  {
    hide Execute, Answer, Weathered, Accepts, Effect;
    ScarsAreStaged();
    SmoothAsk(Scarring, s, AddAll);
    var t := s.(git := Ask(Scarring, s.git, AddAll).git);
    SmoothAsk(Scarring, t, Diff);
    var u := t.(git := Ask(Scarring, t.git, Diff).git);
    SmoothAsk(Scarring, u, Diff);
    var v := u.(git := Ask(Scarring, u.git, Diff).git);
    SmoothAsk(Scarring, v, CommitIndex(Sync));
  }

  /** When a killed rebase leaves markers in the tree, the next sweep commits them, and the worker
      calls the cycle clean. The commit is on a detached HEAD: `MarkersReachNoBranch` holds here. */
  lemma KilledRebaseCommitsMarkers()
    ensures Settled(R0, "main") && Configured(MAIN, "main")
    ensures var s := Run(MAIN, Scarring, Fresh(R0, 0.0), [WRITE, Quiet, Got(SyncSweep("timer"), 0.0)]);
            s.degraded.None? && s.git.repo.head.Detached? && !UnmarkedHistory(HeadHistory(s.git.repo))
  {
    hide LoopTurn, Settled;
    assert Settled(R0, "main") by { StartIsSettled(); }
    var s0 := Fresh(R0, 0.0);
    FirstWrite(Scarring, s0);
    var s1 := LoopTurn(MAIN, Scarring, s0, WRITE);
    ScarringPush(s1);
    var s2 := LoopTurn(MAIN, Scarring, s1, Quiet);
    SweepTurn(s2);
    var ts := [WRITE, Quiet, Got(SyncSweep("timer"), 0.0)];
    assert ts[..0] == [] && ts[..3] == ts;
    RunStep(MAIN, Scarring, s0, ts, 0);
    RunStep(MAIN, Scarring, s0, ts, 1);
    RunStep(MAIN, Scarring, s0, ts, 2);
  }

  lemma SweepTurn(s: State)
    requires Shows(s, M2, 6, 140.0)
    ensures var t := LoopTurn(MAIN, Scarring, s, Got(SyncSweep("timer"), 0.0));
            t.degraded.None? && t.git.repo.head.Detached? && !UnmarkedHistory(HeadHistory(t.git.repo))
  {
    hide HandleEvent, MaybePush;
    SweepMidRebase(Wait(s, 0.0), SyncSweep("timer"));
    var h := THEIRS + [Commit(Sync, SCARS)];
    assert HeadHistory(M3) == h && h[2] in h && SCARS["a.md"].Marked?;
  }

  // ---- A configured branch that is not checked out ---------------------------------------

  function Calm(n: nat): Outcome { SMOOTH }

  function Lines(b: Branch, x: Branch, here: History, there: History): Refs { map[b := here, x := there] }

  /** Branch `b` is checked out with an edit on disk; branch `x` is its equal. */
  function Q0(b: Branch, x: Branch): Repo {
    Repo(One("1"), One("0"), {}, On(b), Lines(b, x, BASE, BASE), Lines(b, x, BASE, BASE), Lines(b, x, BASE, BASE), None, None)
  }

  function Q1(b: Branch, x: Branch): Repo {
    Q0(b, x).(index := One("1"), branches := Lines(b, x, OURS, BASE))
  }

  /** `x` is configured and is neither HEAD nor the branch `b`. */
  predicate Apart(b: Branch, x: Branch) {
    b != x && x != "" && x != "HEAD"
  }

  /** The edit is acknowledged, and pending or, for all the worker knows, delivered. */
  predicate WroteOnce(s: State, b: Branch, x: Branch) {
    && s.git.repo == Q1(b, x) && s.degraded.None?
    && ("a.md", Some(Text("1"))) in s.anchored
  }

  lemma NothingToRebase(b: Branch, x: Branch)
    requires Apart(b, x)
    ensures Rebasable(Q1(b, x), x) && FinishRebase(Q1(b, x), x) == Q1(b, x)
    ensures FastForward(Q1(b, x), x) && Pushed(Q1(b, x), x) == Q1(b, x)
  {
    var q := Q1(b, x);
    assert BASE[0] == OURS[0];
    assert Fork(BASE, OURS) == 1;
    assert Merge(One("1"), One("1"), One("1")) == One("1");
    assert q.branches[b := OURS] == q.branches;
    assert q.remote[x := BASE] == q.remote;
  }

  lemma OtherStart(b: Branch, x: Branch)
    requires Apart(b, x)
    ensures Settled(Q0(b, x), b) && InStep(Q0(b, x))
    ensures !Records(BASE, "a.md", Some(Text("1")))
  {
  }

  lemma OtherIsStaged(b: Branch, x: Branch)
    ensures Weathered(Q0(b, x), SMOOTH) == Q0(b, x)
    ensures Staged(Q0(b, x), ["a.md"]) == Q0(b, x).(index := One("1"))
    ensures One("1") != One("0") && ("a.md", Some(Text("1"))) in Delta(One("0"), One("1"))
  {
    CalmWeather(Q0(b, x), SMOOTH);
    assert One("1")["a.md"] != One("0")["a.md"];
    assert Differs(One("0"), One("1"), "a.md");
  }

  lemma OtherBranchCommits(s: State, b: Branch, x: Branch)
    requires Apart(b, x) && s == Fresh(Q0(b, x), 0.0)
    ensures var t := HandleEvent(Calm, Wait(s, 0.0), WRITE.event); t.unpushed && WroteOnce(t, b, x)
  {
    hide Weathered, Staged, Execute, Answer, StageAndCommit;
    OtherIsStaged(b, x);
    SmoothWrite(Calm, Wait(s, 0.0), "updated", ["a.md"], Q0(b, x).(index := One("1")));
    assert BASE + [Commit(TAG, One("1"))] == OURS;
    assert Lines(b, x, BASE, BASE)[b := OURS] == Lines(b, x, OURS, BASE);
    assert HeadTree(Q1(b, x)) == One("1");
  }

  /** Every command succeeds, so the flag clears, but it is `x` that was pushed. */
  lemma OtherBranchPushes(cfg: Config, s: State, b: Branch, x: Branch)
    requires Apart(b, x) && cfg.remote && cfg.branch == x
    requires WroteOnce(s, b, x) && s.unpushed
    ensures var t := MaybePush(cfg, Calm, s); !t.unpushed && WroteOnce(t, b, x)
  {
    hide Execute, Answer, Weathered, Rebased, Rebasable, FinishRebase, FastForward, Pushed;
    SmoothAsk(Calm, s, Fetch);
    assert Q1(b, x).tracking + Q1(b, x).remote == Q1(b, x).tracking;
    var t := s.(git := Ask(Calm, s.git, Fetch).git);
    NothingToRebase(b, x);
    SmoothAsk(Calm, t, Command.Rebase(x));
    var u := t.(git := Ask(Calm, t.git, Command.Rebase(x)).git);
    SmoothAsk(Calm, u, Push(x));
  }

  lemma NowhereRemote(b: Branch, x: Branch)
    requires Apart(b, x)
    ensures forall y | y in Q1(b, x).remote :: !Records(Q1(b, x).remote[y], "a.md", Some(Text("1")))
  {
    OtherStart(b, x);
  }

  /** With a configured branch other than the checked-out one, and every command succeeding, the
      push succeeds, the flag clears, and the acknowledged version is on no remote branch. */
  lemma OtherBranchForgets(cfg: Config, b: Branch) returns (turns: seq<Turn>)
    requires cfg.remote && Apart(b, cfg.branch)
    ensures var repo := Q0(b, cfg.branch);
            var s := Run(cfg, Calm, Fresh(repo, 0.0), turns);
            var y := ("a.md", Some(Text("1")));
            && Settled(repo, b) && InStep(repo)
            && s.degraded.None? && !s.unpushed && y in s.anchored
            && forall x | x in s.git.repo.remote :: !Records(s.git.repo.remote[x], y.0, y.1)
  {
    hide HandleEvent, MaybePush, Settled, InStep, Q0, Q1;
    var x := cfg.branch;
    var s0 := Fresh(Q0(b, x), 0.0);
    OtherStart(b, x);
    NowhereRemote(b, x);
    OtherBranchCommits(s0, b, x);
    var h := HandleEvent(Calm, Wait(s0, 0.0), WRITE.event);
    turns := if Overdue(cfg, h) then [WRITE] else [WRITE, Quiet];
    assert turns[..0] == [] && turns[..|turns|] == turns;
    RunStep(cfg, Calm, s0, turns, 0);
    if Overdue(cfg, h) {
      OtherBranchPushes(cfg, h, b, x);
    } else {
      RunStep(cfg, Calm, s0, turns, 1);
      OtherBranchPushes(cfg, Wait(h, cfg.debounce), b, x);
    }
  }

  /** Every run from every settled clone of `b` keeps what is anchored. */
  ghost predicate AlwaysKeeps(cfg: Config, b: Branch) {
    forall w: Oracle, repo: Repo, now: real, turns: seq<Turn> | Settled(repo, b) ::
      Kept(Run(cfg, w, Fresh(repo, now), turns), b)
  }

  /** With a remote, the worker always keeps what is anchored exactly when the configured branch is
      empty, the checked-out one, or HEAD. */
  lemma BranchMustBeCheckedOut(cfg: Config, b: Branch)
    requires cfg.remote
    ensures AlwaysKeeps(cfg, b) <==> Configured(cfg, b)
  {
    hide Settled, Placed, InStep, Run, RecordsAll;
    if Configured(cfg, b) {
      forall w: Oracle, repo: Repo, now: real, turns: seq<Turn> | Settled(repo, b)
        ensures Kept(Run(cfg, w, Fresh(repo, now), turns), b)
      {
        NoAcknowledgedVersionIsForgotten(cfg, w, repo, now, turns, b);
      }
    } else {
      var turns := OtherBranchForgets(cfg, b);
      var s := Run(cfg, Calm, Fresh(Q0(b, cfg.branch), 0.0), turns);
      if Kept(s, b) {
        NotRecordedAll(Ref(s.git.repo.remote, b), s.anchored, ("a.md", Some(Text("1"))));
      }
    }
  }

  lemma NotRecordedAll(h: History, vs: set<Version>, y: Version)
    requires y in vs && !Records(h, y.0, y.1)
    ensures !RecordsAll(h, vs)
  {
  }

  // ---- An exception other than the timeout -----------------------------------------------

  function Raising(n: nat): Outcome {
    if n == 1 then SMOOTH.(reply := Raised) else SMOOTH
  }

  /** An exception while inspecting is swallowed without a trace in the health record: the worker
      is not degraded although the index has left HEAD. */
  lemma ExceptionLeavesHealthAlone()
    ensures Settled(R0, "main") && InStep(R0)
    ensures var s := HandleEvent(Raising, Fresh(R0, 0.0), WRITE.event);
            s.degraded.None? && s.git.repo.stopped.None? && !InStep(s.git.repo) && LastRaised(s.git.trace)
  {
    hide Weathered, Staged, Effect, CommitChecked, Settled, LastRaised;
    FirstEditIsStaged();
    StartIsSettled();
    var g := Fresh(R0, 0.0).git;
    StagedAsk(Raising, Fresh(R0, 0.0), ["a.md"]);
    var a := Ask(Raising, g, Add(["a.md"]));
    assert a.git.repo == R0.(index := One("1")) by { EffectOfAdd(R0, ["a.md"]); }
    DiffRaises(a.git);
    AskRaises(Raising, a.git, Diff);
  }

  lemma EffectOfAdd(r: Repo, paths: seq<Path>)
    requires Accepts(r, Add(paths))
    ensures Effect(r, Add(paths)) == Staged(r, paths)
  {
  }

  lemma DiffRaises(g: Git)
    requires g.tick == 1 && g.repo == R0.(index := One("1"))
    ensures Ask(Raising, g, Diff).reply.Raised? && Ask(Raising, g, Diff).git.repo == g.repo
  {
    CalmWeather(g.repo, SMOOTH.(reply := Raised));
  }
}
