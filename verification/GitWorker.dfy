/** `GitOps` and `GitWorker` as classes that update their fields, proved against `Machine`. */
module GitWorkers {
  import opened Options
  import opened Trees
  import opened Repository
  import opened Machine
  import opened Health
  import opened Protocol
  import opened Safety

  /** The door to git: one command per call. `git` is the modelled repository with its clock. */
  class GitOps {
    const weather: Oracle
    var git: Git

    constructor (weather: Oracle, repo: Repo, now: real)
      ensures this.weather == weather && git == Git(repo, now, 0, [])
    {
      this.weather := weather;
      git := Git(repo, now, 0, []);
    }

    method Invoke(c: Command) returns (reply: Reply)
      modifies this
      ensures Asked(git, reply) == Ask(weather, old(git), c)
    {
      var a := Ask(weather, git, c);
      git := a.git;
      reply := a.reply;
    }

    method Add(paths: seq<Path>) returns (reply: Reply)
      modifies this
      ensures Asked(git, reply) == Ask(weather, old(git), Command.Add(paths))
    {
      reply := Invoke(Command.Add(paths));
    }

    method AddAll() returns (reply: Reply)
      modifies this
      ensures Asked(git, reply) == Ask(weather, old(git), Command.AddAll)
    {
      reply := Invoke(Command.AddAll);
    }

    /** Any failing exit counts as "something staged". */
    method HasStaged() returns (reply: Reply, staged: bool)
      modifies this
      ensures Asked(git, reply) == Ask(weather, old(git), Diff)
      ensures staged == (reply.Returned? && !reply.Ok())
    {
      reply := Invoke(Diff);
      staged := reply.Returned? && !reply.Ok();
    }

    /** Commit the index; an ok no-op when the index turns out to agree with HEAD. */
    method CommitStaged(tag: Tag) returns (reply: Reply)
      modifies this
      ensures var d := Ask(weather, old(git), Diff);
              Asked(git, reply) == if d.reply.Returned? && !d.reply.Ok() then Ask(weather, d.git, CommitIndex(tag)) else d
    {
      var staged;
      reply, staged := HasStaged();
      if staged {
        reply := Invoke(CommitIndex(tag));
      }
    }

    method FetchRemote() returns (reply: Reply)
      modifies this
      ensures Asked(git, reply) == Ask(weather, old(git), Fetch)
    {
      reply := Invoke(Fetch);
    }

    method RebaseTheirs(b: Branch) returns (reply: Reply)
      modifies this
      ensures Asked(git, reply) == Ask(weather, old(git), Command.Rebase(b))
    {
      reply := Invoke(Command.Rebase(b));
    }

    method RebaseAbort() returns (reply: Reply)
      modifies this
      ensures Asked(git, reply) == Ask(weather, old(git), Abort)
    {
      reply := Invoke(Abort);
    }

    method PushBranch(b: Branch) returns (reply: Reply)
      modifies this
      ensures Asked(git, reply) == Ask(weather, old(git), Push(b))
    {
      reply := Invoke(Push(b));
    }

    method CurrentBranchName() returns (reply: Reply, name: Option<Branch>)
      modifies this
      ensures Asked(git, reply) == Ask(weather, old(git), CurrentBranch)
      ensures name == if reply.Ok() && HeadName(git.repo) != "" then Some(HeadName(git.repo)) else None
    {
      reply := Invoke(CurrentBranch);
      name := if reply.Ok() && HeadName(git.repo) != "" then Some(HeadName(git.repo)) else None;
    }
  }

  /** The consumer. The ghost fields record what it logged, pinged and had acknowledged. */
  class GitWorker {
    const git: GitOps
    const cfg: Config
    var stopping: bool
    var unpushed: bool
    var lastPush: real
    var degradedRc: Option<Code>
    ghost var lines: seq<Line>
    ghost var pings: nat
    ghost var anchored: set<Version>
    ghost var adrift: set<Version>

    constructor (git: GitOps, cfg: Config)
      requires git.git.tick == 0 && git.git.trace == []
      ensures this.git == git && this.cfg == cfg && !stopping
      ensures View() == Fresh(git.git.repo, git.git.now)
    {
      this.git := git;
      this.cfg := cfg;
      stopping, unpushed, lastPush, degradedRc := false, false, git.git.now, None;
      lines, pings, anchored, adrift := [], 0, {}, {};
    }

    ghost function View(): State
      reads this, git
    {
      State(git.git, unpushed, lastPush, degradedRc, lines, pings, anchored, adrift)
    }

    method RecordFailure(code: Code)
      modifies this
      ensures View() == Machine.RecordFailure(old(View()), code) && stopping == old(stopping)
    {
      lines := lines + [if degradedRc == Some(code) then Debug(code) else Warning(code, degradedRc.None?)];
      degradedRc := Some(code);
    }

    method RecordClean()
      modifies this
      ensures View() == Machine.RecordClean(old(View())) && stopping == old(stopping)
    {
      lines := lines + if degradedRc.Some? then [Info(degradedRc.value)] else [];
      degradedRc := None;
    }

    /** Stage, commit what the index then holds, and record how the cycle ended. */
    method StageAndCommit(stage: Command, tag: Tag)
      requires stage.Add? || stage.AddAll?
      modifies this, git
      ensures View() == Machine.StageAndCommit(git.weather, old(View()), stage, tag) && stopping == old(stopping)
    {
      hide Execute, Answer;
      var staged: Reply;
      if stage.Add? { staged := git.Add(stage.paths); } else { staged := git.AddAll(); }
      if staged.Raised? { return; }
      if staged.TimedOut? { RecordFailure(Timeout); return; }
      if !staged.Ok() { RecordFailure(Rc(staged.rc)); return; }
      CommitIfStaged(tag);
    }

    method CommitIfStaged(tag: Tag)
      modifies this, git
      ensures View() == Machine.CommitIfStaged(git.weather, old(View()), tag) && stopping == old(stopping)
    {
      hide Execute, Answer;
      var diff, any := git.HasStaged();
      if diff.Raised? { return; }
      if diff.TimedOut? { RecordFailure(Timeout); return; }
      if any {
        CommitChecked(tag);
      } else {
        RecordClean();
      }
    }

    method CommitChecked(tag: Tag)
      modifies this, git
      ensures View() == Machine.CommitChecked(git.weather, old(View()), tag) && stopping == old(stopping)
    {
      hide Execute, Answer, HeadTree;
      ghost var diffed := Ask(git.weather, git.git, Diff);
      var result := git.CommitStaged(tag);
      if result.Raised? { return; }
      if result.TimedOut? { RecordFailure(Timeout); return; }
      if !result.Ok() { RecordFailure(Rc(result.rc)); return; }
      unpushed := true;
      if !diffed.reply.Ok() {
        var gained := Delta(HeadTree(diffed.git.repo), HeadTree(git.git.repo));
        if git.git.repo.stopped.Some? { adrift := adrift + gained; } else { anchored := anchored + gained; }
      }
      RecordClean();
    }

    /** Dispatch by kind; an exception ends the event and is otherwise without effect. */
    method HandleEvent(e: SyncEvent)
      modifies this, git
      ensures View() == Machine.HandleEvent(git.weather, old(View()), e) && stopping == old(stopping)
    {
      match e
      case McpWrite(op, paths) =>
        if paths != [] {
          StageAndCommit(Command.Add(paths), Mcp(op, paths));
        }
      case SyncSweep(_) => StageAndCommit(Command.AddAll, Sync);
    }

    method MaybePush()
      modifies this, git
      ensures View() == Machine.MaybePush(cfg, git.weather, old(View())) && stopping == old(stopping)
    {
      if unpushed && cfg.remote {
        PushOnce();
      }
    }

    /** Resolve the branch, then fetch, rebase, push; any exception ends the attempt. */
    method PushOnce()
      modifies this, git
      ensures View() == Machine.PushOnce(cfg, git.weather, old(View())) && stopping == old(stopping)
    {
      hide Execute, Answer;
      var branch := cfg.branch;
      if branch == "" {
        var reply, name := git.CurrentBranchName();
        if name.None? { return; }
        branch := name.value;
      }
      FetchThenPush(branch);
    }

    method FetchThenPush(branch: Branch)
      modifies this, git
      ensures View() == Machine.FetchThenPush(cfg, git.weather, old(View()), branch) && stopping == old(stopping)
    {
      hide Execute, Answer, Machine.Deliver;
      var fetched := git.FetchRemote();
      if !fetched.Returned? { return; }
      if fetched.Ok() {
        var rebased := git.RebaseTheirs(branch);
        if !rebased.Returned? { return; }
        if !rebased.Ok() {
          var aborted := git.RebaseAbort();
          if !aborted.Returned? { return; }
        }
      }
      Deliver(branch);
    }

    method Deliver(branch: Branch)
      modifies this, git
      ensures View() == Machine.Deliver(cfg, git.weather, old(View()), branch) && stopping == old(stopping)
    {
      hide Execute, Answer;
      var pushed := git.PushBranch(branch);
      if pushed.Ok() {
        unpushed := false;
        lastPush := git.git.now;
        pings := if cfg.heartbeat then pings + 1 else pings;
      }
    }

    /** Block on the queue. */
    method Sleep(d: Duration)
      modifies git
      ensures View() == Wait(old(View()), d)
    {
      git.git := git.git.(now := git.git.now + d);
    }

    /** A worker as the constructor leaves it. */
    ghost predicate Unused()
      reads this, git
    {
      View() == Fresh(git.git.repo, git.git.now)
    }

    /** The loop, over what each `get` returns until the stop flag is set; not entered if it is. What
        the theorems say of runs holds of a worker that has run. */
    method Run(turns: seq<Turn>)
      modifies this, git
      ensures View() == if stopping then old(View()) else Machine.Run(cfg, git.weather, old(View()), turns)
      ensures stopping == old(stopping)
      ensures old(Unused()) ==> Chronicled(View()) && Rested(cfg, old(git.git.now), View())
      ensures old(Unused()) ==>
                forall b | Settled(old(git.git.repo), b) && Configured(cfg, b) :: Kept(View(), b)
    {
      hide LoopTurn, Machine.HandleEvent, Machine.MaybePush, Settled, Kept, Chronicled, Rested;
      ghost var start := View();
      ghost var repo, now, played := git.git.repo, git.git.now, if stopping then [] else turns;
      var i := 0;
      while !stopping && i < |turns|
        invariant 0 <= i <= |turns| && (stopping ==> i == 0)
        invariant View() == Machine.Run(cfg, git.weather, start, turns[..i]) && stopping == old(stopping)
      {
        RunStep(cfg, git.weather, start, turns, i);
        Turn(turns[i]);
        i := i + 1;
      }
      assert turns[..i] == played;
      assert View() == Machine.Run(cfg, git.weather, start, played);
      if start == Fresh(repo, now) {
        HealthIsLastOutcome(cfg, git.weather, repo, now, played);
        EveryRunIsBooked(cfg, git.weather, repo, now, played);
        forall b | Settled(repo, b) && Configured(cfg, b) ensures Kept(View(), b) {
          NoAcknowledgedVersionIsForgotten(cfg, git.weather, repo, now, played, b);
        }
      }
    }

    method Turn(t: Turn)
      modifies this, git
      ensures View() == LoopTurn(cfg, git.weather, old(View()), t) && stopping == old(stopping)
    {
      match t
      case Quiet =>
        Sleep(cfg.debounce);
        MaybePush();
      case Got(e, wait) =>
        Sleep(wait);
        HandleEvent(e);
        if git.git.now - lastPush >= cfg.maxInterval {
          MaybePush();
        }
    }

    /** With the worker thread joined: set the flag and flush once. */
    method Stop()
      modifies this, git
      ensures stopping && View() == Machine.MaybePush(cfg, git.weather, old(View()))
      ensures forall b | old(Kept(View(), b)) && Configured(cfg, b) ::
                Kept(View(), b) && Flushed(cfg, old(View()), View(), b)
    {
      hide Kept, Flushed, Machine.MaybePush;
      ghost var s := View();
      stopping := true;
      MaybePush();
      forall b | Kept(s, b) && Configured(cfg, b) ensures Kept(View(), b) && Flushed(cfg, s, View(), b) {
        MaybePushKeeps(cfg, git.weather, s, b);
        FlushDelivers(cfg, git.weather, s, b);
      }
    }
  }
}
