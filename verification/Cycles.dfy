/** What single cycles guarantee: real commits, caught-up sweeps, local content on the remote. */
module Cycles {
  import opened Options
  import opened Trees
  import opened Rebasing
  import opened Repository
  import opened Machine
  import opened Safety
  import Health

  /** From `r` to `t` HEAD gained nothing, or one commit of the index that changes the tree. */
  predicate AtMostOneCommit(r: Repo, t: Repo, tag: Tag) {
    || HeadHistory(t) == HeadHistory(r)
    || (HeadHistory(t) == HeadHistory(r) + [Commit(tag, t.index)] && t.index != HeadTree(r))
  }

  /** Inspecting leaves index and HEAD alone, and exits 0 only when they agree. */
  lemma InspectingMovesNothing(r: Repo, o: Outcome)
    ensures Execute(r, Diff, o).index == r.index
    ensures HeadHistory(Execute(r, Diff, o)) == HeadHistory(r)
    ensures Answer(r, Diff, o).Ok() ==> InStep(Execute(r, Diff, o))
  {
  }

  /** Committing adds at most one commit, of the index, and exits 0 only if it did. */
  lemma CommittingAddsOne(r: Repo, tag: Tag, o: Outcome)
    ensures Execute(r, CommitIndex(tag), o).index == r.index
    ensures AtMostOneCommit(r, Execute(r, CommitIndex(tag), o), tag)
    ensures Answer(r, CommitIndex(tag), o).Ok() ==> InStep(Execute(r, CommitIndex(tag), o))
  {
    hide Edited, Grown, Rebased, Startable;
    var w := Weathered(r, o);
    assert HeadHistory(w) == HeadHistory(r);
    var t := MoveHead(w, HeadHistory(w) + [Commit(tag, w.index)]);
    assert HeadHistory(t) == HeadHistory(w) + [Commit(tag, w.index)];
  }

  /** Staging does not move HEAD, and takes what it stages from the tree as it stands then. */
  lemma StagingMovesNothing(r: Repo, c: Command, o: Outcome)
    requires c.Add? || c.AddAll?
    ensures HeadHistory(Execute(r, c, o)) == HeadHistory(r)
    ensures Execute(r, c, o).work == Edited(r.work, o.edits)
    ensures var t := Execute(r, c, o);
            if c.AddAll? then t.index == r.index || t.index == t.work
            else forall p :: At(t.index, p) == At(r.index, p) || (p in c.paths && At(t.index, p) == At(t.work, p))
    ensures c.AddAll? && Answer(r, c, o).Ok() ==> Execute(r, c, o).index == Execute(r, c, o).work
  {
  }

  lemma CommitNowAddsOne(w: Oracle, s: State, tag: Tag)
    ensures AtMostOneCommit(s.git.repo, CommitNow(w, s, tag).git.repo, tag)
    ensures CommitNow(w, s, tag).git.repo.index == s.git.repo.index
  {
    hide Execute, Answer, HeadHistory, InStep;
    CommittingAddsOne(s.git.repo, tag, w(s.git.tick));
  }

  lemma CommitCheckedAddsOne(w: Oracle, s: State, tag: Tag)
    ensures AtMostOneCommit(s.git.repo, CommitChecked(w, s, tag).git.repo, tag)
    ensures CommitChecked(w, s, tag).git.repo.index == s.git.repo.index
  {
    hide Execute, Answer, HeadHistory, InStep, CommitNow;
    InspectingMovesNothing(s.git.repo, w(s.git.tick));
    CommitNowAddsOne(w, s.(git := Ask(w, s.git, Diff).git), tag);
  }

  lemma CommitIfStagedAddsOne(w: Oracle, s: State, tag: Tag)
    ensures AtMostOneCommit(s.git.repo, CommitIfStaged(w, s, tag).git.repo, tag)
    ensures CommitIfStaged(w, s, tag).git.repo.index == s.git.repo.index
  {
    hide Execute, Answer, HeadHistory, InStep, CommitChecked;
    InspectingMovesNothing(s.git.repo, w(s.git.tick));
    CommitCheckedAddsOne(w, s.(git := Ask(w, s.git, Diff).git), tag);
  }

  /** In any state, however the commands end: one event adds at most one commit, tagged for the
      event and never empty. If the index agreed with HEAD, an MCP commit changes only the event's
      own paths. */
  lemma OneRealCommitPerEvent(w: Oracle, s: State, e: SyncEvent)
    ensures AtMostOneCommit(s.git.repo, HandleEvent(w, s, e).git.repo, TagOf(e))
    ensures e.McpWrite? && InStep(s.git.repo) ==>
              forall p | Differs(HeadTree(s.git.repo), HeadTree(HandleEvent(w, s, e).git.repo), p) :: p in e.paths
  {
    hide Execute, Answer, CommitIfStaged;
    var stage := StageOf(e);
    var a := Ask(w, s.git, stage);
    StagingMovesNothing(s.git.repo, stage, w(s.git.tick));
    CommitIfStagedAddsOne(w, s.(git := a.git), TagOf(e));
  }

  // ---- Catching up -----------------------------------------------------------------------

  /** The last command issued settled the cycle as clean. */
  predicate EndedClean(s: State) {
    |s.git.trace| > 0 && Health.Decides(s.git.trace[|s.git.trace| - 1]) == Some(None)
  }

  lemma CommitNowEndsInStep(w: Oracle, s: State, tag: Tag)
    requires EndedClean(CommitNow(w, s, tag))
    ensures InStep(CommitNow(w, s, tag).git.repo)
  {
    hide Execute, Answer, InStep;
    CommittingAddsOne(s.git.repo, tag, w(s.git.tick));
  }

  lemma CommitCheckedEndsInStep(w: Oracle, s: State, tag: Tag)
    requires EndedClean(CommitChecked(w, s, tag))
    ensures InStep(CommitChecked(w, s, tag).git.repo)
  {
    hide Execute, Answer, InStep, CommitNow;
    InspectingMovesNothing(s.git.repo, w(s.git.tick));
    var a := Ask(w, s.git, Diff);
    if a.reply.Returned? && !a.reply.Ok() {
      CommitNowEndsInStep(w, s.(git := a.git), tag);
    }
  }

  lemma CommitIfStagedEndsInStep(w: Oracle, s: State, tag: Tag)
    requires EndedClean(CommitIfStaged(w, s, tag))
    ensures InStep(CommitIfStaged(w, s, tag).git.repo)
  {
    hide Execute, Answer, InStep, CommitChecked;
    InspectingMovesNothing(s.git.repo, w(s.git.tick));
    var a := Ask(w, s.git, Diff);
    if a.reply.Returned? && !a.reply.Ok() {
      CommitCheckedEndsInStep(w, s.(git := a.git), tag);
    }
  }

  /** After any history of failures, a sweep that ends clean has caught up: HEAD and the index hold
      exactly the working tree as the sweep's staging found it. */
  lemma CleanSweepCatchesUp(w: Oracle, s: State, trigger: string)
    requires EndedClean(HandleEvent(w, s, SyncSweep(trigger)))
    ensures var t := HandleEvent(w, s, SyncSweep(trigger)).git.repo;
            InStep(t) && HeadTree(t) == Edited(s.git.repo.work, w(s.git.tick).edits)
  {
    hide Execute, Answer, CommitIfStaged;
    var a := Ask(w, s.git, AddAll);
    var t := s.(git := a.git);
    StagingMovesNothing(s.git.repo, AddAll, w(s.git.tick));
    assert a.reply.Ok();
    CommitIfStagedEndsInStep(w, t, Sync);
    CommitIfStagedAddsOne(w, t, Sync);
  }

  /** An MCP write that ends clean has recorded its paths: HEAD holds each as its staging found it on
      disk, deletions included. */
  lemma CleanWriteRecordsItsPaths(w: Oracle, s: State, op: string, paths: seq<Path>)
    requires EndedClean(HandleEvent(w, s, McpWrite(op, paths)))
    ensures var t := HandleEvent(w, s, McpWrite(op, paths)).git.repo;
            forall p | p in paths :: At(HeadTree(t), p) == At(Edited(s.git.repo.work, w(s.git.tick).edits), p)
  {
    hide Execute, Answer, CommitIfStaged;
    if paths != [] {
      var a := Ask(w, s.git, Add(paths));
      var t := s.(git := a.git);
      StagedPathsMatchDisk(s.git.repo, paths, w(s.git.tick));
      assert a.reply.Ok();
      CommitIfStagedEndsInStep(w, t, Mcp(op, paths));
      CommitIfStagedAddsOne(w, t, Mcp(op, paths));
    }
  }

  lemma StagedPathsMatchDisk(r: Repo, paths: seq<Path>, o: Outcome)
    requires Answer(r, Add(paths), o).Ok()
    ensures forall p | p in paths :: At(Execute(r, Add(paths), o).index, p) == At(Edited(r.work, o.edits), p)
  {
  }

  // ---- What is acknowledged --------------------------------------------------------------

  /** The cycle from `s` to `t` ended with a commit that exited 0. */
  predicate Committed(s: State, t: State) {
    && |s.git.trace| < |t.git.trace|
    && t.git.trace[|t.git.trace| - 1].command.CommitIndex?
    && t.git.trace[|t.git.trace| - 1].reply.Ok()
  }

  /** What one cycle acknowledges: all HEAD gained if its commit exited 0, nothing otherwise. */
  function Acks(s: State, t: State): set<Version> {
    if Committed(s, t) then Delta(HeadTree(s.git.repo), HeadTree(t.git.repo)) else {}
  }

  /** Acknowledged with a rebase in progress, versions are adrift; otherwise they are anchored. */
  predicate AckedExactly(s: State, t: State) {
    && t.anchored == s.anchored + (if t.git.repo.stopped.None? then Acks(s, t) else {})
    && t.adrift == s.adrift + (if t.git.repo.stopped.Some? then Acks(s, t) else {})
  }

  lemma CommitNowAcks(w: Oracle, s: State, tag: Tag)
    ensures AckedExactly(s, CommitNow(w, s, tag)) && s.git.trace <= CommitNow(w, s, tag).git.trace
  {
    hide Execute, Answer, HeadTree, Delta;
  }

  lemma CommitCheckedAcks(w: Oracle, s: State, tag: Tag)
    ensures AckedExactly(s, CommitChecked(w, s, tag)) && s.git.trace <= CommitChecked(w, s, tag).git.trace
  {
    hide Execute, Answer, HeadHistory, Delta;
    InspectingMovesNothing(s.git.repo, w(s.git.tick));
    CommitNowAcks(w, s.(git := Ask(w, s.git, Diff).git), tag);
  }

  lemma CommitIfStagedAcks(w: Oracle, s: State, tag: Tag)
    ensures AckedExactly(s, CommitIfStaged(w, s, tag)) && s.git.trace <= CommitIfStaged(w, s, tag).git.trace
  {
    hide Execute, Answer, HeadHistory, Delta, CommitChecked;
    InspectingMovesNothing(s.git.repo, w(s.git.tick));
    CommitCheckedAcks(w, s.(git := Ask(w, s.git, Diff).git), tag);
  }

  /** An event acknowledges exactly the file versions by which it moved HEAD, when its commit exits
      0, and sorts them by whether a rebase is in progress; a commit that lands but is killed or fails
      acknowledges nothing. */
  lemma AckIsExact(w: Oracle, s: State, e: SyncEvent)
    ensures AckedExactly(s, HandleEvent(w, s, e))
  {
    hide Execute, Answer, HeadHistory, Delta, CommitIfStaged;
    StagingMovesNothing(s.git.repo, StageOf(e), w(s.git.tick));
    CommitIfStagedAcks(w, s.(git := Ask(w, s.git, StageOf(e)).git), TagOf(e));
  }

  // ---- Nothing twice ---------------------------------------------------------------------

  predicate CaughtUp(r: Repo) {
    InStep(r) && r.work == r.index
  }

  /** The branch a push cycle uses, named directly or as HEAD, is checked out, and no upstream it
      could rebase onto holds anything HEAD does not. */
  predicate UpToDate(cfg: Config, r: Repo) {
    && r.stopped.None? && r.head.On? && Configured(cfg, r.head.branch)
    && Contains(r, r.head.branch)
    && (r.remoteHead.Some? ==> Contains(r, r.remoteHead.value))
  }

  predicate Contains(r: Repo, u: Branch) {
    Ref(r.tracking, u) <= HeadHistory(r) && Ref(r.remote, u) <= HeadHistory(r)
  }

  /** Nothing new on disk and, if there is a remote, nothing new there. */
  predicate NothingNew(cfg: Config, r: Repo) {
    CaughtUp(r) && (cfg.remote ==> UpToDate(cfg, r))
  }

  /** Between the `n`-th and the `k`-th command nobody else writes to disk or pushes. */
  predicate Undisturbed(w: Oracle, n: nat, k: nat) {
    forall i | n <= i < k :: w(i).edits == map[] && w(i).foreign == map[]
  }

  /** From `s` to `t`, if there was nothing new and nobody interfered, HEAD has not moved and there
      is still nothing new. */
  predicate Echo(cfg: Config, w: Oracle, s: State, t: State) {
    && s.git.tick <= t.git.tick
    && (NothingNew(cfg, s.git.repo) && Undisturbed(w, s.git.tick, t.git.tick) ==>
          NothingNew(cfg, t.git.repo) && HeadHistory(t.git.repo) == HeadHistory(s.git.repo))
  }

  lemma EchoTransitive(cfg: Config, w: Oracle, s: State, t: State, u: State)
    requires Echo(cfg, w, s, t) && Echo(cfg, w, t, u)
    ensures Echo(cfg, w, s, u)
  {
    hide NothingNew, HeadHistory;
  }

  /** Staging or committing changes nothing. */
  lemma NothingToCommit(cfg: Config, r: Repo, c: Command, o: Outcome)
    requires NothingNew(cfg, r) && o.edits == map[] && o.foreign == map[]
    requires c.Add? || c.AddAll? || c.Diff? || c.CommitIndex?
    ensures NothingNew(cfg, Execute(r, c, o)) && HeadHistory(Execute(r, c, o)) == HeadHistory(r)
  {
    hide Configured, Weathered;
    CalmWeather(r, o);
    if c.Add? {
      assert Staged(r, c.paths) == r by { assert Staged(r, c.paths).index == r.index; }
    }
  }

  /** A rebase has nothing to do, and a push sends only what HEAD holds. */
  lemma NothingToPush(cfg: Config, r: Repo, c: Command, o: Outcome)
    requires cfg.remote && NothingNew(cfg, r) && o.edits == map[] && o.foreign == map[]
    requires c.CurrentBranch? || c.Fetch? || c.Rebase? || c.Abort? || c.Push?
    requires c.Rebase? ==> c.branch == r.head.branch || c.branch == "HEAD"
    requires c.Push? ==> c.branch == r.head.branch || c.branch == "HEAD"
    ensures NothingNew(cfg, Execute(r, c, o)) && HeadHistory(Execute(r, c, o)) == HeadHistory(r)
    ensures Execute(r, c, o).head == r.head
  {
    hide Weathered, Configured, FinishRebase, Rebased, Clashes, Fork;
    CalmWeather(r, o);
    if c.Rebase? && (Lands(r, c, o) || Strands(r, c, o)) {
      RebaseIsIdle(cfg, r, c.branch);
    }
  }

  lemma RebaseIsIdle(cfg: Config, r: Repo, name: Branch)
    requires NothingNew(cfg, r) && UpToDate(cfg, r) && (name == r.head.branch || name == "HEAD")
    requires Startable(r, name)
    ensures !Behind(r, name)
    ensures Rebasable(r, name) ==>
              FinishRebase(r, name) == r.(branches := r.branches[r.head.branch := HeadHistory(r)])
  {
    var up := UpstreamHistory(r, name);
    assert up <= HeadHistory(r);
    assert Fork(up, HeadHistory(r)) == |up|;
    assert Merge(r.work, r.index, r.index) == r.work by {
      TreesAgree(Merge(r.work, r.index, r.index), r.work);
    }
  }

  lemma EventAskEchoes(cfg: Config, w: Oracle, s: State, c: Command)
    requires c.Add? || c.AddAll? || c.Diff? || c.CommitIndex?
    ensures Echo(cfg, w, s, s.(git := Ask(w, s.git, c).git))
  {
    hide Execute, Answer, NothingNew, HeadHistory;
    if NothingNew(cfg, s.git.repo) && Undisturbed(w, s.git.tick, s.git.tick + 1) {
      NothingToCommit(cfg, s.git.repo, c, w(s.git.tick));
    }
  }

  lemma CommitCheckedEchoes(cfg: Config, w: Oracle, s: State, tag: Tag)
    ensures Echo(cfg, w, s, CommitChecked(w, s, tag))
  {
    hide Execute, Answer, Echo, HeadTree, Delta;
    EventAskEchoes(cfg, w, s, Diff);
    var t := s.(git := Ask(w, s.git, Diff).git);
    EventAskEchoes(cfg, w, t, CommitIndex(tag));
    EchoTransitive(cfg, w, s, t, t.(git := Ask(w, t.git, CommitIndex(tag)).git));
    EchoSeesTheRepo(cfg, w, s);
  }

  /** Only the repository and the count of commands matter. */
  lemma EchoSeesTheRepo(cfg: Config, w: Oracle, s: State)
    ensures forall t: State, u: State | t.git == u.git :: Echo(cfg, w, s, t) == Echo(cfg, w, s, u)
  {
  }

  lemma EventEchoes(cfg: Config, w: Oracle, s: State, e: SyncEvent)
    ensures Echo(cfg, w, s, HandleEvent(w, s, e))
  {
    hide Execute, Answer, Echo, CommitChecked;
    EventAskEchoes(cfg, w, s, StageOf(e));
    var t := s.(git := Ask(w, s.git, StageOf(e)).git);
    EventAskEchoes(cfg, w, t, Diff);
    var u := t.(git := Ask(w, t.git, Diff).git);
    CommitCheckedEchoes(cfg, w, u, TagOf(e));
    EchoTransitive(cfg, w, s, t, u);
    EchoTransitive(cfg, w, s, u, CommitChecked(w, u, TagOf(e)));
    EchoSeesTheRepo(cfg, w, s);
    assert Echo(cfg, w, s, s) by { EchoesItself(cfg, w, s); }
  }

  lemma EchoesItself(cfg: Config, w: Oracle, s: State)
    ensures Echo(cfg, w, s, s)
  {
  }

  /** The same where the cycle pushes `name`. */
  predicate NameEcho(cfg: Config, w: Oracle, name: Branch, s: State, t: State) {
    && s.git.tick <= t.git.tick
    && (cfg.remote && NothingNew(cfg, s.git.repo) && NamesHead(s.git.repo, name) && Undisturbed(w, s.git.tick, t.git.tick) ==>
          && NothingNew(cfg, t.git.repo) && NamesHead(t.git.repo, name)
          && HeadHistory(t.git.repo) == HeadHistory(s.git.repo))
  }

  predicate NamesHead(r: Repo, name: Branch) {
    r.head.On? && (name == r.head.branch || name == "HEAD")
  }

  lemma PushAskEchoes(cfg: Config, w: Oracle, s: State, c: Command, name: Branch)
    requires c == Fetch || c == Command.Rebase(name) || c == Abort || c == Push(name)
    ensures NameEcho(cfg, w, name, s, s.(git := Ask(w, s.git, c).git))
  {
    hide Execute, Answer, NothingNew, HeadHistory;
    var r := s.git.repo;
    if cfg.remote && NothingNew(cfg, r) && NamesHead(r, name) && Undisturbed(w, s.git.tick, s.git.tick + 1) {
      NothingToPush(cfg, r, c, w(s.git.tick));
    }
  }

  lemma NameEchoTransitive(cfg: Config, w: Oracle, name: Branch, s: State, t: State, u: State)
    requires NameEcho(cfg, w, name, s, t) && NameEcho(cfg, w, name, t, u)
    ensures NameEcho(cfg, w, name, s, u)
  {
    hide NothingNew, HeadHistory;
  }

  lemma DeliverEchoes(cfg: Config, w: Oracle, s: State, name: Branch)
    ensures NameEcho(cfg, w, name, s, Deliver(cfg, w, s, name))
  {
    hide Execute, Answer, NothingNew, HeadHistory;
    PushAskEchoes(cfg, w, s, Push(name), name);
  }

  lemma RebaseThenPushEchoes(cfg: Config, w: Oracle, s: State, name: Branch)
    ensures NameEcho(cfg, w, name, s, RebaseThenPush(cfg, w, s, name))
  {
    hide Execute, Answer, NameEcho, Deliver;
    PushAskEchoes(cfg, w, s, Command.Rebase(name), name);
    var t := s.(git := Ask(w, s.git, Command.Rebase(name)).git);
    DeliverEchoes(cfg, w, t, name);
    PushAskEchoes(cfg, w, t, Abort, name);
    var u := t.(git := Ask(w, t.git, Abort).git);
    DeliverEchoes(cfg, w, u, name);
    NameEchoTransitive(cfg, w, name, s, t, Deliver(cfg, w, t, name));
    NameEchoTransitive(cfg, w, name, s, t, u);
    NameEchoTransitive(cfg, w, name, s, u, Deliver(cfg, w, u, name));
  }

  lemma FetchThenPushEchoes(cfg: Config, w: Oracle, s: State, name: Branch)
    ensures NameEcho(cfg, w, name, s, FetchThenPush(cfg, w, s, name))
  {
    hide Execute, Answer, NameEcho, Deliver, RebaseThenPush;
    PushAskEchoes(cfg, w, s, Fetch, name);
    var t := s.(git := Ask(w, s.git, Fetch).git);
    DeliverEchoes(cfg, w, t, name);
    RebaseThenPushEchoes(cfg, w, t, name);
    NameEchoTransitive(cfg, w, name, s, t, Deliver(cfg, w, t, name));
    NameEchoTransitive(cfg, w, name, s, t, RebaseThenPush(cfg, w, t, name));
  }

  lemma CurrentBranchEchoes(cfg: Config, w: Oracle, s: State)
    ensures var t := s.(git := Ask(w, s.git, CurrentBranch).git);
            && (cfg.remote ==> Echo(cfg, w, s, t))
            && HeadName(t.git.repo) == HeadName(s.git.repo)
  {
    hide NothingNew, HeadHistory, InStep;
    if cfg.remote && NothingNew(cfg, s.git.repo) && Undisturbed(w, s.git.tick, s.git.tick + 1) {
      NothingToPush(cfg, s.git.repo, CurrentBranch, w(s.git.tick));
    }
  }

  lemma MaybePushEchoes(cfg: Config, w: Oracle, s: State)
    ensures Echo(cfg, w, s, MaybePush(cfg, w, s))
  {
    hide Execute, Answer, FetchThenPush, Contains, CaughtUp, HeadHistory;
    if Attempts(cfg, s) {
      var t := s.(git := Ask(w, s.git, CurrentBranch).git);
      FetchThenPushEchoes(cfg, w, s, cfg.branch);
      CurrentBranchEchoes(cfg, w, s);
      FetchThenPushEchoes(cfg, w, t, HeadName(t.git.repo));
    }
  }

  /** With nothing new on disk or on the remote and nobody interfering, any number of turns of the
      loop, events and push cycles alike and however their commands end, add no commit. */
  lemma {:induction false} EchoesAddNoCommit(cfg: Config, w: Oracle, s: State, turns: seq<Turn>)
    ensures Echo(cfg, w, s, Run(cfg, w, s, turns))
    decreases |turns|
  {
    hide Echo, HandleEvent, MaybePush;
    if turns == [] {
      EchoesItself(cfg, w, s);
    } else {
      var n := |turns| - 1;
      var t := Run(cfg, w, s, turns[..n]);
      EchoesAddNoCommit(cfg, w, s, turns[..n]);
      match turns[n] {
        case Quiet =>
          WaitEchoes(cfg, w, t, cfg.debounce);
          MaybePushEchoes(cfg, w, Wait(t, cfg.debounce));
          EchoTransitive(cfg, w, t, Wait(t, cfg.debounce), MaybePush(cfg, w, Wait(t, cfg.debounce)));
        case Got(e, wait) =>
          var h := HandleEvent(w, Wait(t, wait), e);
          WaitEchoes(cfg, w, t, wait);
          EventEchoes(cfg, w, Wait(t, wait), e);
          EchoTransitive(cfg, w, t, Wait(t, wait), h);
          MaybePushEchoes(cfg, w, h);
          EchoTransitive(cfg, w, t, h, MaybePush(cfg, w, h));
      }
      EchoTransitive(cfg, w, s, t, LoopTurn(cfg, w, t, turns[n]));
    }
  }

  lemma WaitEchoes(cfg: Config, w: Oracle, s: State, d: Duration)
    ensures Echo(cfg, w, s, Wait(s, d))
  {
  }

  // ---- Local wins ------------------------------------------------------------------------

  /** Fetch, rebase and push in a row, all exiting 0, under the branch's own name or HEAD. */
  lemma ThreeCommandsLetLocalWin(w: Oracle, g: Git, name: Branch, b: Branch, p: Path)
    requires g.repo.head == On(b) && (name == b || name == "HEAD")
    requires Ask(w, g, Fetch).reply.Ok()
    requires Ask(w, Ask(w, g, Fetch).git, Command.Rebase(name)).reply.Ok()
    requires Ask(w, Ask(w, Ask(w, g, Fetch).git, Command.Rebase(name)).git, Push(name)).reply.Ok()
    ensures var fetched := Ask(w, g, Fetch).git;
            var rebased := Ask(w, fetched, Command.Rebase(name)).git;
            var pushed := Ask(w, rebased, Push(name)).git;
            var up, local := UpstreamHistory(fetched.repo, name), Ref(g.repo.branches, b);
            var end := Ref(pushed.repo.remote, b);
            && (b != "HEAD" && name == b && b in fetched.repo.remote ==> up == Ref(fetched.repo.remote, b))
            && up <= end && end == Ref(pushed.repo.branches, b)
            && (NeverNewlyTouched(up, Fork(up, local), local, p) ==> At(Tip(end), p) == At(Tip(up), p))
            && (forall i | Fork(up, local) <= i < |local| && LastNewTouch(up, Fork(up, local), local, i, p) ::
                  At(Tip(end), p) == At(local[i].tree, p))
  {
    hide NeverNewlyTouched, LastNewTouch, AlreadyUpstream, Clashes, Replay;
    var fetched := Ask(w, g, Fetch).git;
    var rebased := Ask(w, fetched, Command.Rebase(name)).git;
    var up, local := UpstreamHistory(fetched.repo, name), Ref(g.repo.branches, b);
    assert fetched.repo.head == On(b) && Ref(fetched.repo.branches, b) == local;
    RebaseMovesBranch(fetched.repo, name, b, w(fetched.tick));
    PushDelivers(rebased.repo, w(rebased.tick), name, b);
    RebasedExtendsUpstream(up, local);
    LocalWins(up, local, p);
  }

  /** A push attempt resolves the branch, if none is configured, and then begins its cycle. */
  function Resolved(cfg: Config, w: Oracle, s: State): Git {
    if cfg.branch == "" then Ask(w, s.git, CurrentBranch).git else s.git
  }

  /** A push attempt of the worker whose commands all succeed clears the flag and leaves on the remote what it fetched,
      extended by the local commits: every fetched commit is kept; a path has the content that its
      last local commit not already upstream gave it, or the fetched content if there is none. */
  lemma PushedCycleLetsLocalWin(cfg: Config, w: Oracle, s: State, b: Branch, p: Path)
    requires Attempts(cfg, s) && s.git.repo.head == On(b) && b != "" && Configured(cfg, b)
    requires cfg.branch == "" ==> Ask(w, s.git, CurrentBranch).reply.Ok()
    requires var name := if cfg.branch == "" then b else cfg.branch;
             var fetched := Ask(w, Resolved(cfg, w, s), Fetch);
             var rebased := Ask(w, fetched.git, Command.Rebase(name));
             fetched.reply.Ok() && rebased.reply.Ok() && Ask(w, rebased.git, Push(name)).reply.Ok()
    ensures var name := if cfg.branch == "" then b else cfg.branch;
            var t := MaybePush(cfg, w, s);
            var fetched := Ask(w, Resolved(cfg, w, s), Fetch).git;
            var up, local := UpstreamHistory(fetched.repo, name), Ref(s.git.repo.branches, b);
            var end := Ref(t.git.repo.remote, b);
            && !t.unpushed
            && (name == b != "HEAD" && b in fetched.repo.remote ==> up == Ref(fetched.repo.remote, b))
            && up <= end && end == Ref(t.git.repo.branches, b)
            && (NeverNewlyTouched(up, Fork(up, local), local, p) ==> At(Tip(end), p) == At(Tip(up), p))
            && (forall i | Fork(up, local) <= i < |local| && LastNewTouch(up, Fork(up, local), local, i, p) ::
                  At(Tip(end), p) == At(local[i].tree, p))
  {
    hide Execute, Answer, NeverNewlyTouched, LastNewTouch, Fork;
    var name := if cfg.branch == "" then b else cfg.branch;
    var g := Resolved(cfg, w, s);
    ResolvingMovesNothing(s.git.repo, w(s.git.tick));
    assert g.repo.head == On(b) && Ref(g.repo.branches, b) == Ref(s.git.repo.branches, b);
    ThreeCommandsLetLocalWin(w, g, name, b, p);
    var rebased := Ask(w, Ask(w, g, Fetch).git, Command.Rebase(name)).git;
    assert MaybePush(cfg, w, s).git == Ask(w, rebased, Push(name)).git;
  }

  lemma ResolvingMovesNothing(r: Repo, o: Outcome)
    ensures var t := Execute(r, CurrentBranch, o); t.head == r.head && t.branches == r.branches
  {
  }

  lemma RebaseMovesBranch(r: Repo, name: Branch, b: Branch, o: Outcome)
    requires r.head == On(b) && Answer(r, Command.Rebase(name), o).Ok()
    ensures var t := Execute(r, Command.Rebase(name), o);
            var done := Rebased(UpstreamHistory(r, name), Ref(r.branches, b));
            t.head == On(b) && done.Done? && Ref(t.branches, b) == done.history
  {
    hide Rebased;
  }

  // ---- Staging what is not there ---------------------------------------------------------

  /** A write that names a path neither on disk nor in the index stages nothing, not even its other
      paths, commits nothing and acknowledges nothing; unless staging raised, the cycle is recorded
      as failed. */
  lemma AddFailsAsAWhole(w: Oracle, s: State, op: string, paths: seq<Path>, p: Path)
    requires p in paths && p !in s.git.repo.index && p !in Edited(s.git.repo.work, w(s.git.tick).edits)
    ensures var t := HandleEvent(w, s, McpWrite(op, paths));
            && t.git.repo.index == s.git.repo.index && HeadHistory(t.git.repo) == HeadHistory(s.git.repo)
            && t.anchored == s.anchored && t.adrift == s.adrift && t.unpushed == s.unpushed
            && |t.git.trace| == |s.git.trace| + 1
            && (t.degraded.Some? || t.git.trace[|s.git.trace|].reply.Raised?)
  {
    hide CommitIfStaged;
    MissingPathIsRefused(s.git.repo, paths, p, w(s.git.tick));
  }

  lemma MissingPathIsRefused(r: Repo, paths: seq<Path>, p: Path, o: Outcome)
    requires p in paths && p !in r.index && p !in Edited(r.work, o.edits)
    ensures Execute(r, Add(paths), o).index == r.index
    ensures HeadHistory(Execute(r, Add(paths), o)) == HeadHistory(r)
    ensures !Answer(r, Add(paths), o).Ok()
  {
  }
}
