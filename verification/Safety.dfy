/** What every run of the worker keeps: acknowledged versions, a clean branch, a growing remote. */
module Safety {
  import opened Trees
  import opened Repository
  import opened Machine

  // ---- Without any hypothesis ------------------------------------------------------------

  /** From `s` to `t` the remote only grew, and commands were only added to the trace. */
  ghost predicate Grew(s: State, t: State) {
    RemoteExtends(s.git.repo, t.git.repo) && s.git.trace <= t.git.trace
  }

  lemma RemoteExtendsItself(r: Repo)
    ensures RemoteExtends(r, r)
  {
  }

  lemma GrewTransitive(s: State, t: State, u: State)
    requires Grew(s, t) && Grew(t, u)
    ensures Grew(s, u)
  {
    forall b: Branch ensures Ref(s.git.repo.remote, b) <= Ref(u.git.repo.remote, b) {
      assert Ref(s.git.repo.remote, b) <= Ref(t.git.repo.remote, b) <= Ref(u.git.repo.remote, b);
    }
  }

  lemma AskGrows(w: Oracle, s: State, c: Command)
    ensures Grew(s, s.(git := Ask(w, s.git, c).git))
  {
    RemoteOnlyGrows(s.git.repo, c, w(s.git.tick));
  }

  lemma DeliverGrows(cfg: Config, w: Oracle, s: State, b: Branch)
    ensures Grew(s, Deliver(cfg, w, s, b))
  {
    AskGrows(w, s, Push(b));
  }

  lemma CommitNowGrows(w: Oracle, s: State, tag: Tag)
    ensures Grew(s, CommitNow(w, s, tag))
  {
    hide Execute, Answer, RemoteExtends;
    AskGrows(w, s, CommitIndex(tag));
  }

  lemma CommitCheckedGrows(w: Oracle, s: State, tag: Tag)
    ensures Grew(s, CommitChecked(w, s, tag))
  {
    hide Execute, Answer, RemoteExtends;
    AskGrows(w, s, Diff);
    var t := s.(git := Ask(w, s.git, Diff).git);
    CommitNowGrows(w, t, tag);
    RemoteExtendsItself(t.git.repo);
    GrewTransitive(s, t, CommitChecked(w, s, tag));
  }

  lemma CommitIfStagedGrows(w: Oracle, s: State, tag: Tag)
    ensures Grew(s, CommitIfStaged(w, s, tag))
  {
    hide Execute, Answer, RemoteExtends;
    AskGrows(w, s, Diff);
    var t := s.(git := Ask(w, s.git, Diff).git);
    CommitCheckedGrows(w, t, tag);
    RemoteExtendsItself(t.git.repo);
    GrewTransitive(s, t, CommitIfStaged(w, s, tag));
  }

  lemma HandleEventGrows(w: Oracle, s: State, e: SyncEvent)
    ensures Grew(s, HandleEvent(w, s, e))
  {
    hide Execute, Answer, RemoteExtends;
    var stage, tag := StageOf(e), TagOf(e);
    AskGrows(w, s, stage);
    var t := s.(git := Ask(w, s.git, stage).git);
    CommitIfStagedGrows(w, t, tag);
    RemoteExtendsItself(s.git.repo);
    RemoteExtendsItself(t.git.repo);
    GrewTransitive(s, t, StageAndCommit(w, s, stage, tag));
  }

  lemma AbortThenPushGrows(cfg: Config, w: Oracle, s: State, b: Branch)
    ensures Grew(s, AbortThenPush(cfg, w, s, b))
  {
    AskGrows(w, s, Abort);
    var t := s.(git := Ask(w, s.git, Abort).git);
    DeliverGrows(cfg, w, t, b);
    GrewTransitive(s, t, Deliver(cfg, w, t, b));
  }

  lemma RebaseThenPushGrows(cfg: Config, w: Oracle, s: State, b: Branch)
    ensures Grew(s, RebaseThenPush(cfg, w, s, b))
  {
    AskGrows(w, s, Command.Rebase(b));
    var t := s.(git := Ask(w, s.git, Command.Rebase(b)).git);
    DeliverGrows(cfg, w, t, b);
    AbortThenPushGrows(cfg, w, t, b);
    GrewTransitive(s, t, RebaseThenPush(cfg, w, s, b));
  }

  lemma FetchThenPushGrows(cfg: Config, w: Oracle, s: State, b: Branch)
    ensures Grew(s, FetchThenPush(cfg, w, s, b))
  {
    AskGrows(w, s, Fetch);
    var t := s.(git := Ask(w, s.git, Fetch).git);
    DeliverGrows(cfg, w, t, b);
    RebaseThenPushGrows(cfg, w, t, b);
    GrewTransitive(s, t, FetchThenPush(cfg, w, s, b));
  }

  lemma MaybePushGrows(cfg: Config, w: Oracle, s: State)
    ensures Grew(s, MaybePush(cfg, w, s))
  {
    if Attempts(cfg, s) {
      if cfg.branch != "" {
        FetchThenPushGrows(cfg, w, s, cfg.branch);
      } else {
        AskGrows(w, s, CurrentBranch);
        var t := s.(git := Ask(w, s.git, CurrentBranch).git);
        FetchThenPushGrows(cfg, w, t, HeadName(t.git.repo));
        GrewTransitive(s, t, PushOnce(cfg, w, s));
      }
    }
  }

  lemma LoopTurnGrows(cfg: Config, w: Oracle, s: State, t: Turn)
    ensures Grew(s, LoopTurn(cfg, w, s, t))
  {
    match t {
      case Quiet =>
        MaybePushGrows(cfg, w, Wait(s, cfg.debounce));
      case Got(e, wait) =>
        var h := HandleEvent(w, Wait(s, wait), e);
        HandleEventGrows(w, Wait(s, wait), e);
        MaybePushGrows(cfg, w, h);
        GrewTransitive(Wait(s, wait), h, MaybePush(cfg, w, h));
    }
  }

  /** In every run, under no hypothesis, no remote history is ever overwritten: each is a prefix of
      what it becomes. */
  lemma {:induction false} RemoteIsNeverOverwritten(cfg: Config, w: Oracle, s: State, turns: seq<Turn>)
    ensures Grew(s, Run(cfg, w, s, turns))
    decreases |turns|
  {
    if turns != [] {
      var t := Run(cfg, w, s, turns[..|turns| - 1]);
      RemoteIsNeverOverwritten(cfg, w, s, turns[..|turns| - 1]);
      LoopTurnGrows(cfg, w, t, turns[|turns| - 1]);
      GrewTransitive(s, t, Run(cfg, w, s, turns));
    }
  }

  // ---- Where the clone can be ------------------------------------------------------------

  lemma AskStaysPlaced(w: Oracle, s: State, c: Command, b: Branch)
    requires Placed(s.git.repo, b)
    ensures Placed(Ask(w, s.git, c).git.repo, b)
  {
    StaysPlaced(s.git.repo, c, w(s.git.tick), b);
  }

  // ---- Acknowledged versions -------------------------------------------------------------

  /** The configured branch is empty, or names the checked-out one. */
  predicate Configured(cfg: Config, b: Branch) {
    cfg.branch == "" || cfg.branch == b || cfg.branch == "HEAD"
  }

  /** The clone is settled on `b` or in the middle of a rebase of it; either way every anchored
      version is recorded on the branch, and once nothing is marked unpushed, on the remote. */
  predicate Kept(s: State, b: Branch) {
    && Placed(s.git.repo, b)
    && RecordsAll(Ref(s.git.repo.branches, b), s.anchored)
    && (!s.unpushed ==> RecordsAll(Ref(s.git.repo.remote, b), s.anchored))
  }

  /** Any command at all keeps what is kept. */
  lemma AskKeeps(w: Oracle, s: State, c: Command, b: Branch)
    requires Kept(s, b)
    ensures Kept(s.(git := Ask(w, s.git, c).git), b)
  {
    hide Placed, Execute, Answer, RecordsAll;
    var o := w(s.git.tick);
    StaysPlaced(s.git.repo, c, o, b);
    BranchKeepsVersions(s.git.repo, c, o, b, s.anchored);
    if !s.unpushed {
      RemoteKeepsVersions(s.git.repo, c, o, b, s.anchored);
    }
  }

  lemma CommitNowKeeps(w: Oracle, s: State, tag: Tag, b: Branch)
    requires Kept(s, b)
    ensures Kept(CommitNow(w, s, tag), b)
  {
    hide Execute, Answer, Settled, Mid, HeadTree;
    AskKeeps(w, s, CommitIndex(tag), b);
    var a := Ask(w, s.git, CommitIndex(tag));
    if a.reply.Ok() {
      CommitMeansInStep(s.git.repo, tag, w(s.git.tick));
      if a.git.repo.stopped.None? {
        assert s.git.repo.head == On(b) by { UnstoppedIsOnBranch(s.git.repo, b); }
        CommitRecords(s.git.repo, tag, w(s.git.tick), b);
      }
    }
  }

  lemma UnstoppedIsOnBranch(r: Repo, b: Branch)
    requires Placed(r, b) && r.stopped.None?
    ensures r.head == On(b)
  {
  }

  lemma CommitCheckedKeeps(w: Oracle, s: State, tag: Tag, b: Branch)
    requires Kept(s, b)
    ensures Kept(CommitChecked(w, s, tag), b)
  {
    hide Execute, Answer, Placed, RecordsAll, CommitNow;
    AskKeeps(w, s, Diff, b);
    CommitNowKeeps(w, s.(git := Ask(w, s.git, Diff).git), tag, b);
  }

  lemma CommitIfStagedKeeps(w: Oracle, s: State, tag: Tag, b: Branch)
    requires Kept(s, b)
    ensures Kept(CommitIfStaged(w, s, tag), b)
  {
    hide Execute, Answer, Placed, RecordsAll, CommitChecked;
    AskKeeps(w, s, Diff, b);
    CommitCheckedKeeps(w, s.(git := Ask(w, s.git, Diff).git), tag, b);
  }

  lemma HandleEventKeeps(w: Oracle, s: State, e: SyncEvent, b: Branch)
    requires Kept(s, b)
    ensures Kept(HandleEvent(w, s, e), b)
  {
    hide Execute, Answer, Placed, RecordsAll, CommitIfStaged;
    AskKeeps(w, s, StageOf(e), b);
    CommitIfStagedKeeps(w, s.(git := Ask(w, s.git, StageOf(e)).git), TagOf(e), b);
  }

  /** A push under either name clears the flag only when the remote has everything. */
  lemma DeliverKeeps(cfg: Config, w: Oracle, s: State, name: Branch, b: Branch)
    requires Kept(s, b) && (name == b || name == "HEAD")
    ensures Kept(Deliver(cfg, w, s, name), b)
  {
    hide Execute, Answer, Settled, Mid, RecordsAll;
    AskKeeps(w, s, Push(name), b);
    if Ask(w, s.git, Push(name)).reply.Ok() {
      PlacedHead(s.git.repo, b);
      PushDelivers(s.git.repo, w(s.git.tick), name, b);
    }
  }

  lemma PlacedHead(r: Repo, b: Branch)
    requires Placed(r, b)
    ensures r.head == On(b) || (r.head.Detached? && HeadName(r) == "HEAD")
  {
  }

  lemma RebaseThenPushKeeps(cfg: Config, w: Oracle, s: State, name: Branch, b: Branch)
    requires Kept(s, b) && (name == b || name == "HEAD")
    ensures Kept(RebaseThenPush(cfg, w, s, name), b)
  {
    hide Execute, Answer, Kept, Deliver;
    AskKeeps(w, s, Command.Rebase(name), b);
    var t := s.(git := Ask(w, s.git, Command.Rebase(name)).git);
    DeliverKeeps(cfg, w, t, name, b);
    AskKeeps(w, t, Abort, b);
    DeliverKeeps(cfg, w, t.(git := Ask(w, t.git, Abort).git), name, b);
  }

  lemma FetchThenPushKeeps(cfg: Config, w: Oracle, s: State, name: Branch, b: Branch)
    requires Kept(s, b) && (name == b || name == "HEAD")
    ensures Kept(FetchThenPush(cfg, w, s, name), b)
  {
    hide Execute, Answer, Kept, Deliver, RebaseThenPush;
    AskKeeps(w, s, Fetch, b);
    var t := s.(git := Ask(w, s.git, Fetch).git);
    DeliverKeeps(cfg, w, t, name, b);
    RebaseThenPushKeeps(cfg, w, t, name, b);
  }

  lemma MaybePushKeeps(cfg: Config, w: Oracle, s: State, b: Branch)
    requires Kept(s, b) && Configured(cfg, b)
    ensures Kept(MaybePush(cfg, w, s), b)
  {
    hide Execute, Answer, Settled, Mid, RecordsAll, FetchThenPush;
    if cfg.branch != "" {
      FetchThenPushKeeps(cfg, w, s, cfg.branch, b);
    } else {
      AskKeeps(w, s, CurrentBranch, b);
      var t := s.(git := Ask(w, s.git, CurrentBranch).git);
      PlacedHead(t.git.repo, b);
      FetchThenPushKeeps(cfg, w, t, HeadName(t.git.repo), b);
    }
  }

  lemma LoopTurnKeeps(cfg: Config, w: Oracle, s: State, t: Turn, b: Branch)
    requires Kept(s, b) && Configured(cfg, b)
    ensures Kept(LoopTurn(cfg, w, s, t), b)
  {
    hide Placed, RecordsAll, HandleEvent, MaybePush;
    match t {
      case Quiet => MaybePushKeeps(cfg, w, Wait(s, cfg.debounce), b);
      case Got(e, wait) =>
        HandleEventKeeps(w, Wait(s, wait), e, b);
        MaybePushKeeps(cfg, w, HandleEvent(w, Wait(s, wait), e), b);
    }
  }

  /** From a settled clone, over every run and whatever the world does, killed rebases and failed
      aborts included: the clone is settled or in the middle of a rebase of its branch; every version
      acknowledged with no rebase in progress is recorded on the branch, and on the remote unless
      `unpushed` is set. */
  lemma {:induction false} NoAcknowledgedVersionIsForgotten(
    cfg: Config, w: Oracle, repo: Repo, now: real, turns: seq<Turn>, b: Branch)
    requires Settled(repo, b) && Configured(cfg, b)
    ensures Kept(Run(cfg, w, Fresh(repo, now), turns), b)
    decreases |turns|
  {
    if turns == [] {
      assert RecordsAll(Ref(repo.branches, b), {}) && RecordsAll(Ref(repo.remote, b), {});
    } else {
      hide Kept, LoopTurn;
      var n := |turns| - 1;
      NoAcknowledgedVersionIsForgotten(cfg, w, repo, now, turns[..n], b);
      LoopTurnKeeps(cfg, w, Run(cfg, w, Fresh(repo, now), turns[..n]), turns[n], b);
    }
  }

  // ---- Exactly which versions can be lost ------------------------------------------------

  /** No commit exited 0 while a rebase was in progress. */
  predicate Careful(trace: seq<Entry>) {
    forall e | e in trace :: !(e.midRebase && e.command.CommitIndex? && e.reply.Ok())
  }

  /** Nothing is adrift exactly when no commit was acknowledged in the middle of a rebase. */
  predicate Sorted(s: State) {
    s.adrift == {} <==> Careful(s.git.trace)
  }

  lemma ChangeHasADelta(before: Tree, after: Tree)
    requires before != after
    ensures Delta(before, after) != {}
  {
    if forall p :: At(before, p) == At(after, p) {
      TreesAgree(before, after);
    } else {
      var p :| At(before, p) != At(after, p);
      assert (p, At(after, p)) in Delta(before, after);
    }
  }

  lemma AskSorts(w: Oracle, s: State, c: Command)
    requires Sorted(s) && !c.CommitIndex?
    ensures Sorted(s.(git := Ask(w, s.git, c).git))
  {
    hide Execute, Answer;
    var t := Ask(w, s.git, c).git.trace;
    assert forall e | e in s.git.trace :: e in t;
  }

  lemma CommitNowSorts(w: Oracle, s: State, tag: Tag)
    requires Sorted(s)
    ensures Sorted(CommitNow(w, s, tag))
  {
    hide Execute, Answer, HeadTree, Delta;
    var a := Ask(w, s.git, CommitIndex(tag));
    var e := a.git.trace[|s.git.trace|];
    assert e in a.git.trace && forall x | x in s.git.trace :: x in a.git.trace;
    if a.reply.Ok() {
      CommitMeansInStep(s.git.repo, tag, w(s.git.tick));
      ChangeHasADelta(HeadTree(s.git.repo), HeadTree(a.git.repo));
    }
  }

  lemma CommitCheckedSorts(w: Oracle, s: State, tag: Tag)
    requires Sorted(s)
    ensures Sorted(CommitChecked(w, s, tag))
  {
    hide Execute, Answer, Careful, CommitNow;
    AskSorts(w, s, Diff);
    CommitNowSorts(w, s.(git := Ask(w, s.git, Diff).git), tag);
  }

  lemma HandleEventSorts(w: Oracle, s: State, e: SyncEvent)
    requires Sorted(s)
    ensures Sorted(HandleEvent(w, s, e))
  {
    hide Execute, Answer, Careful, CommitChecked;
    AskSorts(w, s, StageOf(e));
    var t := s.(git := Ask(w, s.git, StageOf(e)).git);
    AskSorts(w, t, Diff);
    CommitCheckedSorts(w, t.(git := Ask(w, t.git, Diff).git), TagOf(e));
  }

  lemma DeliverSorts(cfg: Config, w: Oracle, s: State, b: Branch)
    requires Sorted(s)
    ensures Sorted(Deliver(cfg, w, s, b))
  {
    hide Execute, Answer, Careful;
    AskSorts(w, s, Push(b));
  }

  lemma FetchThenPushSorts(cfg: Config, w: Oracle, s: State, b: Branch)
    requires Sorted(s)
    ensures Sorted(FetchThenPush(cfg, w, s, b))
  {
    hide Execute, Answer, Careful, Deliver;
    AskSorts(w, s, Fetch);
    var t := s.(git := Ask(w, s.git, Fetch).git);
    DeliverSorts(cfg, w, t, b);
    AskSorts(w, t, Command.Rebase(b));
    var u := t.(git := Ask(w, t.git, Command.Rebase(b)).git);
    DeliverSorts(cfg, w, u, b);
    AskSorts(w, u, Abort);
    DeliverSorts(cfg, w, u.(git := Ask(w, u.git, Abort).git), b);
  }

  lemma MaybePushSorts(cfg: Config, w: Oracle, s: State)
    requires Sorted(s)
    ensures Sorted(MaybePush(cfg, w, s))
  {
    hide Execute, Answer, Careful, FetchThenPush;
    FetchThenPushSorts(cfg, w, s, cfg.branch);
    AskSorts(w, s, CurrentBranch);
    var t := s.(git := Ask(w, s.git, CurrentBranch).git);
    FetchThenPushSorts(cfg, w, t, HeadName(t.git.repo));
  }

  lemma {:induction false} RunSorts(cfg: Config, w: Oracle, repo: Repo, now: real, turns: seq<Turn>)
    ensures Sorted(Run(cfg, w, Fresh(repo, now), turns))
    decreases |turns|
  {
    hide HandleEvent, MaybePush;
    if turns != [] {
      var n := |turns| - 1;
      RunSorts(cfg, w, repo, now, turns[..n]);
      var s := Run(cfg, w, Fresh(repo, now), turns[..n]);
      match turns[n] {
        case Quiet => MaybePushSorts(cfg, w, Wait(s, cfg.debounce));
        case Got(e, wait) =>
          HandleEventSorts(w, Wait(s, wait), e);
          MaybePushSorts(cfg, w, HandleEvent(w, Wait(s, wait), e));
      }
    }
  }

  /** So an acknowledged version can be missing from the branch only if it was acknowledged in the
      middle of a rebase: all acknowledged versions are on the branch exactly when those are, and
      likewise on the remote when nothing is marked unpushed. There are none such exactly when no
      commit exited 0 while a rebase was in progress. */
  lemma ForgottenExactly(cfg: Config, w: Oracle, repo: Repo, now: real, turns: seq<Turn>, b: Branch)
    requires Settled(repo, b) && Configured(cfg, b)
    ensures var t := Run(cfg, w, Fresh(repo, now), turns);
            var branch, remote := Ref(t.git.repo.branches, b), Ref(t.git.repo.remote, b);
            && (RecordsAll(branch, t.Acked()) <==> RecordsAll(branch, t.adrift))
            && (!t.unpushed ==> (RecordsAll(remote, t.Acked()) <==> RecordsAll(remote, t.adrift)))
            && (t.adrift == {} <==> Careful(t.git.trace))
  {
    hide Run, Placed, Records, Careful;
    NoAcknowledgedVersionIsForgotten(cfg, w, repo, now, turns, b);
    RunSorts(cfg, w, repo, now, turns);
  }

  // ---- Conflict markers ------------------------------------------------------------------

  lemma DeliverStaysPlaced(cfg: Config, w: Oracle, s: State, name: Branch, b: Branch)
    requires Placed(s.git.repo, b)
    ensures Placed(Deliver(cfg, w, s, name).git.repo, b)
  {
    hide Execute, Answer, Placed;
    AskStaysPlaced(w, s, Push(name), b);
  }

  lemma FetchThenPushStaysPlaced(cfg: Config, w: Oracle, s: State, name: Branch, b: Branch)
    requires Placed(s.git.repo, b)
    ensures Placed(FetchThenPush(cfg, w, s, name).git.repo, b)
  {
    hide Execute, Answer, Placed, Deliver;
    AskStaysPlaced(w, s, Fetch, b);
    var t := s.(git := Ask(w, s.git, Fetch).git);
    DeliverStaysPlaced(cfg, w, t, name, b);
    AskStaysPlaced(w, t, Command.Rebase(name), b);
    var u := t.(git := Ask(w, t.git, Command.Rebase(name)).git);
    DeliverStaysPlaced(cfg, w, u, name, b);
    AskStaysPlaced(w, u, Abort, b);
    DeliverStaysPlaced(cfg, w, u.(git := Ask(w, u.git, Abort).git), name, b);
  }

  lemma MaybePushStaysPlaced(cfg: Config, w: Oracle, s: State, b: Branch)
    requires Placed(s.git.repo, b)
    ensures Placed(MaybePush(cfg, w, s).git.repo, b)
  {
    hide Execute, Answer, Placed, FetchThenPush;
    FetchThenPushStaysPlaced(cfg, w, s, cfg.branch, b);
    AskStaysPlaced(w, s, CurrentBranch, b);
    var t := s.(git := Ask(w, s.git, CurrentBranch).git);
    FetchThenPushStaysPlaced(cfg, w, t, HeadName(t.git.repo), b);
  }

  lemma CommitCheckedStaysPlaced(w: Oracle, s: State, tag: Tag, b: Branch)
    requires Placed(s.git.repo, b)
    ensures Placed(CommitChecked(w, s, tag).git.repo, b)
  {
    hide Execute, Answer, Placed, HeadTree, Delta;
    AskStaysPlaced(w, s, Diff, b);
    AskStaysPlaced(w, s.(git := Ask(w, s.git, Diff).git), CommitIndex(tag), b);
  }

  lemma HandleEventStaysPlaced(w: Oracle, s: State, e: SyncEvent, b: Branch)
    requires Placed(s.git.repo, b)
    ensures Placed(HandleEvent(w, s, e).git.repo, b)
  {
    hide Execute, Answer, Placed, CommitChecked;
    AskStaysPlaced(w, s, StageOf(e), b);
    var t := s.(git := Ask(w, s.git, StageOf(e)).git);
    AskStaysPlaced(w, t, Diff, b);
    CommitCheckedStaysPlaced(w, t.(git := Ask(w, t.git, Diff).git), TagOf(e), b);
  }

  /** From a settled clone, over every run under any configuration, no hypothesis on the run: no
      commit on any branch, tracking ref or remote branch ever holds conflict markers. With no
      rebase in progress the clone is on its branch and tree and index hold none either; with one,
      HEAD is detached and an abort will clear them. */
  lemma {:induction false} MarkersReachNoBranch(
    cfg: Config, w: Oracle, repo: Repo, now: real, turns: seq<Turn>, b: Branch)
    requires Settled(repo, b)
    ensures var r := Run(cfg, w, Fresh(repo, now), turns).git.repo;
            Spotless(r) && if r.stopped.None? then Settled(r, b) else Mid(r, b)
    decreases |turns|
  {
    hide HandleEvent, MaybePush, Spotless;
    if turns != [] {
      var n := |turns| - 1;
      MarkersReachNoBranch(cfg, w, repo, now, turns[..n], b);
      var s := Run(cfg, w, Fresh(repo, now), turns[..n]);
      match turns[n] {
        case Quiet => MaybePushStaysPlaced(cfg, w, Wait(s, cfg.debounce), b);
        case Got(e, wait) =>
          HandleEventStaysPlaced(w, Wait(s, wait), e, b);
          MaybePushStaysPlaced(cfg, w, HandleEvent(w, Wait(s, wait), e), b);
      }
    }
  }

  // ---- A turn that ends in the middle of a rebase ----------------------------------------

  /** No rebase was ever left in progress except by a `rebase` that returned and was then aborted. */
  predicate Tame(trace: seq<Entry>) {
    forall e | e in trace && e.midRebase :: e.command.Rebase? && e.reply.Returned?
  }

  /** The trace stops being tame exactly where a rebase stays in progress. */
  predicate EndsTamely(s: State, b: Branch) {
    Placed(s.git.repo, b) && (Tame(s.git.trace) <==> s.git.repo.stopped.None?)
  }

  lemma TameIsPrefixClosed(trace: seq<Entry>, longer: seq<Entry>)
    requires trace <= longer && Tame(longer)
    ensures Tame(trace)
  {
  }

  lemma TameExtends(w: Oracle, g: Git, c: Command)
    ensures var a := Ask(w, g, c);
            Tame(a.git.trace) <==>
              Tame(g.trace) && (a.git.repo.stopped.Some? ==> c.Rebase? && a.reply.Returned?)
  {
    hide Execute, Answer;
    var a := Ask(w, g, c);
    assert a.git.trace[|g.trace|] in a.git.trace && forall e | e in g.trace :: e in a.git.trace;
  }

  /** Only a rebase opens a rebase, and only an abort closes one. */
  lemma AskEndsTamely(w: Oracle, s: State, c: Command, b: Branch)
    requires EndsTamely(s, b) && !c.Rebase? && (s.git.repo.stopped.Some? ==> !c.Abort?)
    ensures EndsTamely(s.(git := Ask(w, s.git, c).git), b)
    ensures Ask(w, s.git, c).git.repo.stopped.Some? <==> s.git.repo.stopped.Some?
  {
    hide Execute, Answer, Settled, Mid, Tame;
    AskStaysPlaced(w, s, c, b);
    TameExtends(w, s.git, c);
    PlacedByStopped(s.git.repo, b);
    if s.git.repo.stopped.None? {
      SettledStep(s.git.repo, c, w(s.git.tick), b);
    } else {
      MidStep(s.git.repo, c, w(s.git.tick), b);
    }
  }

  lemma PlacedByStopped(r: Repo, b: Branch)
    requires Placed(r, b)
    ensures if r.stopped.None? then Settled(r, b) else Mid(r, b)
  {
  }

  lemma DeliverEndsTamely(cfg: Config, w: Oracle, s: State, name: Branch, b: Branch)
    requires EndsTamely(s, b)
    ensures EndsTamely(Deliver(cfg, w, s, name), b)
  {
    hide Execute, Answer, Placed, Tame;
    AskEndsTamely(w, s, Push(name), b);
  }

  lemma AbortThenPushEndsTamely(cfg: Config, w: Oracle, s: State, name: Branch, b: Branch)
    requires Placed(s.git.repo, b) && Tame(s.git.trace)
    ensures EndsTamely(AbortThenPush(cfg, w, s, name), b)
  {
    hide Execute, Answer, Placed, Tame, Deliver;
    AskStaysPlaced(w, s, Abort, b);
    TameExtends(w, s.git, Abort);
    DeliverEndsTamely(cfg, w, s.(git := Ask(w, s.git, Abort).git), name, b);
  }

  lemma RebaseThenPushEndsTamely(cfg: Config, w: Oracle, s: State, name: Branch, b: Branch)
    requires EndsTamely(s, b) && s.git.repo.stopped.None?
    ensures EndsTamely(RebaseThenPush(cfg, w, s, name), b)
  {
    hide Execute, Answer, Settled, Mid, Tame, Deliver, AbortThenPush;
    var a := Ask(w, s.git, Command.Rebase(name));
    var t := s.(git := a.git);
    AskStaysPlaced(w, s, Command.Rebase(name), b);
    TameExtends(w, s.git, Command.Rebase(name));
    if a.reply.Ok() {
      PlacedByStopped(s.git.repo, b);
      SettledStep(s.git.repo, Command.Rebase(name), w(s.git.tick), b);
      DeliverEndsTamely(cfg, w, t, name, b);
    } else if a.reply.Returned? {
      AbortThenPushEndsTamely(cfg, w, t, name, b);
    }
  }

  lemma FetchThenPushEndsTamely(cfg: Config, w: Oracle, s: State, name: Branch, b: Branch)
    requires EndsTamely(s, b) && s.git.repo.stopped.None?
    ensures EndsTamely(FetchThenPush(cfg, w, s, name), b)
  {
    hide Execute, Answer, Placed, Tame, Deliver, RebaseThenPush;
    AskEndsTamely(w, s, Fetch, b);
    var t := s.(git := Ask(w, s.git, Fetch).git);
    DeliverEndsTamely(cfg, w, t, name, b);
    RebaseThenPushEndsTamely(cfg, w, t, name, b);
  }

  lemma MaybePushEndsTamely(cfg: Config, w: Oracle, s: State, b: Branch)
    requires EndsTamely(s, b) && s.git.repo.stopped.None?
    ensures EndsTamely(MaybePush(cfg, w, s), b)
  {
    hide Execute, Answer, Placed, Tame, FetchThenPush;
    AskEndsTamely(w, s, CurrentBranch, b);
    FetchThenPushEndsTamely(cfg, w, s, cfg.branch, b);
    var t := s.(git := Ask(w, s.git, CurrentBranch).git);
    FetchThenPushEndsTamely(cfg, w, t, HeadName(t.git.repo), b);
  }

  lemma CommitCheckedEndsTamely(w: Oracle, s: State, tag: Tag, b: Branch)
    requires EndsTamely(s, b)
    ensures EndsTamely(CommitChecked(w, s, tag), b)
    ensures CommitChecked(w, s, tag).git.repo.stopped.Some? <==> s.git.repo.stopped.Some?
  {
    hide Execute, Answer, Placed, Tame, HeadTree, Delta;
    AskEndsTamely(w, s, Diff, b);
    AskEndsTamely(w, s.(git := Ask(w, s.git, Diff).git), CommitIndex(tag), b);
  }

  lemma HandleEventEndsTamely(w: Oracle, s: State, e: SyncEvent, b: Branch)
    requires EndsTamely(s, b)
    ensures EndsTamely(HandleEvent(w, s, e), b)
    ensures HandleEvent(w, s, e).git.repo.stopped.Some? <==> s.git.repo.stopped.Some?
  {
    hide Execute, Answer, Placed, Tame, CommitChecked;
    AskEndsTamely(w, s, StageOf(e), b);
    var t := s.(git := Ask(w, s.git, StageOf(e)).git);
    AskEndsTamely(w, t, Diff, b);
    CommitCheckedEndsTamely(w, t.(git := Ask(w, t.git, Diff).git), TagOf(e), b);
  }

  lemma LoopTurnEndsTamely(cfg: Config, w: Oracle, s: State, t: Turn, b: Branch)
    requires EndsTamely(s, b) && s.git.repo.stopped.None?
    ensures EndsTamely(LoopTurn(cfg, w, s, t), b)
  {
    hide Placed, Tame, HandleEvent, MaybePush;
    match t {
      case Quiet => MaybePushEndsTamely(cfg, w, Wait(s, cfg.debounce), b);
      case Got(e, wait) =>
        HandleEventEndsTamely(w, Wait(s, wait), e, b);
        MaybePushEndsTamely(cfg, w, HandleEvent(w, Wait(s, wait), e), b);
    }
  }

  predicate Settles(s: State) {
    s.git.repo.stopped.None?
  }

  /** From a settled clone, under any configuration: no turn of the run ends with a rebase in
      progress exactly when no rebase was killed once it had begun and no abort failed to end one. */
  lemma {:induction false} RebaseLeftOpenExactly(
    cfg: Config, w: Oracle, repo: Repo, now: real, turns: seq<Turn>, b: Branch)
    requires Settled(repo, b)
    ensures Tame(Run(cfg, w, Fresh(repo, now), turns).git.trace) <==>
              forall k | 0 <= k <= |turns| :: Settles(Run(cfg, w, Fresh(repo, now), turns[..k]))
    ensures Tame(Run(cfg, w, Fresh(repo, now), turns).git.trace) ==>
              EndsTamely(Run(cfg, w, Fresh(repo, now), turns), b)
    decreases |turns|
  {
    hide Placed, LoopTurn, RemoteExtends;
    var s := Fresh(repo, now);
    if turns == [] {
      assert turns[..0] == turns;
      assert Placed(repo, b) by { SettledIsPlaced(repo, b); }
    } else {
      hide Tame;
      var n := |turns| - 1;
      var t, u := Run(cfg, w, s, turns[..n]), Run(cfg, w, s, turns);
      RebaseLeftOpenExactly(cfg, w, repo, now, turns[..n], b);
      assert turns[..n + 1] == turns;
      assert forall k | 0 <= k <= n :: turns[..n][..k] == turns[..k];
      LoopTurnGrows(cfg, w, t, turns[n]);
      if Tame(t.git.trace) {
        LoopTurnEndsTamely(cfg, w, t, turns[n], b);
      } else if Tame(u.git.trace) {
        TameIsPrefixClosed(t.git.trace, u.git.trace);
      }
    }
  }

  lemma SettledIsPlaced(r: Repo, b: Branch)
    requires Settled(r, b)
    ensures Placed(r, b)
  {
  }

  // ---- Index agreement -------------------------------------------------------------------

  predicate Inspects(c: Command) {
    c.Add? || c.AddAll? || c.Diff? || c.CommitIndex?
  }

  /** The last staging, inspecting or committing command ended in an exception other than the
      timeout: the handler that swallows it records nothing. */
  predicate LastRaised(trace: seq<Entry>) {
    if trace == [] then false
    else
      var e := trace[|trace| - 1];
      if Inspects(e.command) then e.reply.Raised? else LastRaised(trace[..|trace| - 1])
  }

  /** With no rebase in progress, a healthy worker's index agrees with HEAD. */
  predicate Aligned(s: State) {
    s.git.repo.stopped.None? && s.degraded.None? && !LastRaised(s.git.trace) ==> InStep(s.git.repo)
  }

  lemma AskRaises(w: Oracle, g: Git, c: Command)
    ensures var t := Ask(w, g, c).git.trace;
            LastRaised(t) == if Inspects(c) then Ask(w, g, c).reply.Raised? else LastRaised(g.trace)
  {
    hide Execute, Answer;
    var t := Ask(w, g, c).git.trace;
    assert t[..|t| - 1] == g.trace;
  }

  /** After an event that issued commands, whatever came before: a healthy worker whose last
      command did not raise has its index in step with HEAD. */
  predicate CameClean(t: State) {
    t.degraded.None? && !LastRaised(t.git.trace) ==> InStep(t.git.repo)
  }

  lemma CommitNowComesClean(w: Oracle, s: State, tag: Tag)
    ensures CameClean(CommitNow(w, s, tag))
  {
    hide Execute, Answer, InStep, LastRaised, HeadTree, Delta;
    AskRaises(w, s.git, CommitIndex(tag));
    if Ask(w, s.git, CommitIndex(tag)).reply.Ok() {
      CommitMeansInStep(s.git.repo, tag, w(s.git.tick));
    }
  }

  lemma CommitCheckedComesClean(w: Oracle, s: State, tag: Tag)
    ensures CameClean(CommitChecked(w, s, tag))
  {
    hide Execute, Answer, InStep, LastRaised, CommitNow;
    AskRaises(w, s.git, Diff);
    var a := Ask(w, s.git, Diff);
    if a.reply.Ok() {
      CleanDiffMeansInStep(s.git.repo, w(s.git.tick));
    } else {
      CommitNowComesClean(w, s.(git := a.git), tag);
    }
  }

  lemma CommitIfStagedComesClean(w: Oracle, s: State, tag: Tag)
    ensures CameClean(CommitIfStaged(w, s, tag))
  {
    hide Execute, Answer, InStep, LastRaised, CommitChecked;
    AskRaises(w, s.git, Diff);
    var a := Ask(w, s.git, Diff);
    if a.reply.Ok() {
      CleanDiffMeansInStep(s.git.repo, w(s.git.tick));
    } else {
      CommitCheckedComesClean(w, s.(git := a.git), tag);
    }
  }

  /** In any state at all, in the middle of a rebase too: an event that issues commands leaves the
      worker degraded, or raising, or with its index in step with HEAD. */
  lemma EventComesClean(w: Oracle, s: State, e: SyncEvent)
    requires e.McpWrite? ==> e.paths != []
    ensures CameClean(HandleEvent(w, s, e))
  {
    hide Execute, Answer, InStep, LastRaised, CommitIfStaged;
    AskRaises(w, s.git, StageOf(e));
    CommitIfStagedComesClean(w, s.(git := Ask(w, s.git, StageOf(e)).git), TagOf(e));
  }

  /** Push-cycle commands decide nothing about health and keep the agreement. */
  lemma AskStaysAligned(w: Oracle, s: State, c: Command, b: Branch)
    requires Placed(s.git.repo, b) && Aligned(s) && Pushes(c)
    ensures var t := s.(git := Ask(w, s.git, c).git); Placed(t.git.repo, b) && Aligned(t)
  {
    hide Execute, Answer, InStep, LastRaised, Placed;
    AskStaysPlaced(w, s, c, b);
    AskRaises(w, s.git, c);
    var t := s.(git := Ask(w, s.git, c).git);
    if t.git.repo.stopped.None? && t.degraded.None? && !LastRaised(t.git.trace) {
      PushCommandsKeepStep(s.git.repo, c, w(s.git.tick), b);
    }
  }

  lemma DeliverStaysAligned(cfg: Config, w: Oracle, s: State, name: Branch, b: Branch)
    requires Placed(s.git.repo, b) && Aligned(s)
    ensures Placed(Deliver(cfg, w, s, name).git.repo, b) && Aligned(Deliver(cfg, w, s, name))
  {
    hide Execute, Answer, InStep, LastRaised, Placed;
    AskStaysAligned(w, s, Push(name), b);
  }

  lemma FetchThenPushStaysAligned(cfg: Config, w: Oracle, s: State, name: Branch, b: Branch)
    requires Placed(s.git.repo, b) && Aligned(s)
    ensures Aligned(FetchThenPush(cfg, w, s, name))
  {
    hide Execute, Answer, Aligned, Placed, Deliver;
    AskStaysAligned(w, s, Fetch, b);
    var t := s.(git := Ask(w, s.git, Fetch).git);
    DeliverStaysAligned(cfg, w, t, name, b);
    AskStaysAligned(w, t, Command.Rebase(name), b);
    var u := t.(git := Ask(w, t.git, Command.Rebase(name)).git);
    DeliverStaysAligned(cfg, w, u, name, b);
    AskStaysAligned(w, u, Abort, b);
    DeliverStaysAligned(cfg, w, u.(git := Ask(w, u.git, Abort).git), name, b);
  }

  lemma MaybePushStaysAligned(cfg: Config, w: Oracle, s: State, b: Branch)
    requires Placed(s.git.repo, b) && Aligned(s)
    ensures Aligned(MaybePush(cfg, w, s))
  {
    hide Execute, Answer, Aligned, Placed, FetchThenPush;
    FetchThenPushStaysAligned(cfg, w, s, cfg.branch, b);
    AskStaysAligned(w, s, CurrentBranch, b);
    var t := s.(git := Ask(w, s.git, CurrentBranch).git);
    FetchThenPushStaysAligned(cfg, w, t, HeadName(t.git.repo), b);
  }

  /** From a settled clone whose index agrees with HEAD, over every run under any configuration: with
      no rebase in progress, a worker that is not degraded has its index in step with HEAD, unless
      the last staging, inspecting or committing command raised. */
  lemma {:induction false} HealthyMeansInStep(
    cfg: Config, w: Oracle, repo: Repo, now: real, turns: seq<Turn>, b: Branch)
    requires Settled(repo, b) && InStep(repo)
    ensures Aligned(Run(cfg, w, Fresh(repo, now), turns))
    decreases |turns|
  {
    hide HandleEvent, MaybePush, Settled, Mid, InStep, LastRaised;
    if turns != [] {
      var n := |turns| - 1;
      HealthyMeansInStep(cfg, w, repo, now, turns[..n], b);
      MarkersReachNoBranch(cfg, w, repo, now, turns[..n], b);
      var s := Run(cfg, w, Fresh(repo, now), turns[..n]);
      match turns[n] {
        case Quiet => MaybePushStaysAligned(cfg, w, Wait(s, cfg.debounce), b);
        case Got(e, wait) =>
          var h := HandleEvent(w, Wait(s, wait), e);
          HandleEventStaysPlaced(w, Wait(s, wait), e, b);
          if e.McpWrite? && e.paths == [] {
            EmptyWriteDoesNothing(w, Wait(s, wait), e);
          } else {
            EventComesClean(w, Wait(s, wait), e);
          }
          MaybePushStaysAligned(cfg, w, h, b);
      }
    }
  }

  lemma EmptyWriteDoesNothing(w: Oracle, s: State, e: SyncEvent)
    requires e.McpWrite? && e.paths == []
    ensures HandleEvent(w, s, e) == s
  {
  }

  /** What a raising command can leave. An inspection leaves the agreement as it found it; a staging
      command leaves the index as it was, or in step exactly when what it staged is what HEAD holds;
      a commit restores the agreement exactly when
      it landed before it raised. */
  lemma RaisedLeavesExactly(r: Repo, c: Command, o: Outcome)
    requires Inspects(c) && Answer(r, c, o).Raised?
    ensures var t, w := Execute(r, c, o), Weathered(r, o);
            match c
            case Diff => InStep(t) <==> InStep(r)
            case CommitIndex(_) => InStep(t) <==> InStep(r) || Lands(w, c, o)
            case AddAll => InStep(t) <==> if Lands(w, c, o) then w.work == HeadTree(r) else InStep(r)
            case Add(paths) => InStep(t) <==> if Lands(w, c, o) then StagesNothing(w, paths) else InStep(r)
            case _ => true
  {
    hide Staged, StagesNothing, Edited, Grown;
    if c.Add? {
      StagedInStep(Weathered(r, o), c.paths);
    }
  }

  /** Staging these paths brings the index to what HEAD holds. */
  ghost predicate StagesNothing(r: Repo, paths: seq<Path>) {
    && (forall p | p in r.unmerged :: p in paths)
    && (forall p :: At(if p in paths then r.work else r.index, p) == At(HeadTree(r), p))
  }

  lemma StagedInStep(r: Repo, paths: seq<Path>)
    ensures InStep(Staged(r, paths)) <==> StagesNothing(r, paths)
  {
    var s := Staged(r, paths);
    assert HeadTree(s) == HeadTree(r);
    assert s.unmerged == {} <==> forall p | p in r.unmerged :: p in paths by {
      assert forall p | p in r.unmerged && p !in paths :: p in s.unmerged;
    }
    assert forall p :: At(s.index, p) == At(if p in paths then r.work else r.index, p);
    if forall p :: At(s.index, p) == At(HeadTree(r), p) {
      TreesAgree(s.index, HeadTree(r));
    }
  }

  // ---- Shutting down ---------------------------------------------------------------------

  /** A push attempt that leaves `unpushed` set did not end with a successful push. */
  predicate NoOkPushLast(trace: seq<Entry>) {
    |trace| > 0 && !(trace[|trace| - 1].command.Push? && trace[|trace| - 1].reply.Ok())
  }

  lemma CurrentBranchIsNoPush(w: Oracle, s: State)
    ensures NoOkPushLast(Ask(w, s.git, CurrentBranch).git.trace)
  {
    hide Execute, Answer;
  }

  lemma AttemptWithoutDelivery(cfg: Config, w: Oracle, s: State, b: Branch)
    requires s.unpushed
    ensures FetchThenPush(cfg, w, s, b).unpushed ==> NoOkPushLast(FetchThenPush(cfg, w, s, b).git.trace)
    ensures s.git.trace < FetchThenPush(cfg, w, s, b).git.trace
  {
    hide Execute, Answer, RebaseThenPush;
    var t := s.(git := Ask(w, s.git, Fetch).git);
    RebaseWithoutDelivery(cfg, w, t, b);
  }

  lemma RebaseWithoutDelivery(cfg: Config, w: Oracle, s: State, b: Branch)
    requires s.unpushed
    ensures RebaseThenPush(cfg, w, s, b).unpushed ==> NoOkPushLast(RebaseThenPush(cfg, w, s, b).git.trace)
    ensures s.git.trace < RebaseThenPush(cfg, w, s, b).git.trace
  {
    hide Execute, Answer;
  }

  /** What a flush achieves: everything anchored is on the remote, or there is no remote, or an
      attempt was made whose last command was no successful push. */
  predicate Flushed(cfg: Config, s: State, t: State, b: Branch) {
    || !cfg.remote
    || RecordsAll(Ref(t.git.repo.remote, b), t.anchored)
    || (t.unpushed && s.git.trace < t.git.trace && NoOkPushLast(t.git.trace))
  }

  lemma FlushDelivers(cfg: Config, w: Oracle, s: State, b: Branch)
    requires Kept(s, b) && Configured(cfg, b)
    ensures Flushed(cfg, s, MaybePush(cfg, w, s), b)
  {
    hide Execute, Answer, Placed, RecordsAll, FetchThenPush, NoOkPushLast;
    MaybePushKeeps(cfg, w, s, b);
    if Attempts(cfg, s) {
      AttemptWithoutDelivery(cfg, w, s, cfg.branch);
      var t := s.(git := Ask(w, s.git, CurrentBranch).git);
      AttemptWithoutDelivery(cfg, w, t, HeadName(t.git.repo));
      assert NoOkPushLast(t.git.trace) by { CurrentBranchIsNoPush(w, s); }
    }
  }

  /** A whole life: any run from a settled clone, then `stop` with the worker joined. */
  lemma RunThenStopDelivers(cfg: Config, w: Oracle, repo: Repo, now: real, turns: seq<Turn>, b: Branch)
    requires Settled(repo, b) && Configured(cfg, b)
    ensures var s := Run(cfg, w, Fresh(repo, now), turns); Flushed(cfg, s, MaybePush(cfg, w, s), b)
  {
    hide Settled, Kept, Run, MaybePush;
    NoAcknowledgedVersionIsForgotten(cfg, w, repo, now, turns, b);
    FlushDelivers(cfg, w, Run(cfg, w, Fresh(repo, now), turns), b);
  }
}
