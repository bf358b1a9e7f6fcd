/** The git worker as a function of its state and of everything the world may do: the specification
    the `GitWorker` class is proved against and the one the theorems are about. */
module Machine {
  import opened Options
  import opened Trees
  import opened Repository

  /** What the n-th git command meets. A theorem for every oracle is one for every behaviour. */
  type Oracle = nat -> Outcome

  /** One command: when it was issued and ended, how, and whether a rebase was in progress after it. */
  datatype Entry = Entry(command: Command, reply: Reply, midRebase: bool, issued: real, ended: real)

  datatype Git = Git(repo: Repo, now: real, tick: nat, trace: seq<Entry>)

  datatype Asked = Asked(git: Git, reply: Reply)

  function Ask(w: Oracle, g: Git, c: Command): Asked {
    var o := w(g.tick);
    var repo, reply := Execute(g.repo, c, o), Answer(g.repo, c, o);
    var issued := g.now + o.before;
    var e := Entry(c, reply, repo.stopped.Some?, issued, issued + o.took);
    Asked(Git(repo, issued + o.took, g.tick + 1, g.trace + [e]), reply)
  }

  datatype SyncEvent = McpWrite(operation: string, paths: seq<Path>) | SyncSweep(trigger: string)

  /** `remote` false is commit-only mode; `branch` empty means the checked-out one. */
  datatype Config = Config(remote: bool, branch: Branch, debounce: Duration, maxInterval: Duration, heartbeat: bool)

  datatype Code = Rc(rc: int) | Timeout

  /** The health log lines; `entering` marks the warning that opens a degraded streak. */
  datatype Line = Warning(code: Code, entering: bool) | Debug(code: Code) | Info(was: Code)

  /** The worker's fields, with what it has logged, pinged and had acknowledged so far. A version is
      acknowledged when the commit that introduced it exits 0: `anchored` if no rebase was in
      progress then, `adrift` if one was. */
  datatype State = State(
    git: Git, unpushed: bool, lastPush: real, degraded: Option<Code>,
    lines: seq<Line>, pings: nat, anchored: set<Version>, adrift: set<Version>)
  {
    function Acked(): set<Version> { anchored + adrift }
  }

  function Fresh(repo: Repo, now: real): State {
    State(Git(repo, now, 0, []), false, now, None, [], 0, {}, {})
  }

  // ---- Cycle health ----------------------------------------------------------------------

  function RecordFailure(s: State, code: Code): State {
    s.(degraded := Some(code),
       lines := s.lines + [if s.degraded == Some(code) then Debug(code) else Warning(code, s.degraded.None?)])
  }

  function RecordClean(s: State): State {
    s.(degraded := None,
       lines := s.lines + if s.degraded.Some? then [Info(s.degraded.value)] else [])
  }

  // ---- Staging and committing ------------------------------------------------------------

  function StageAndCommit(w: Oracle, s: State, stage: Command, tag: Tag): State {
    var a := Ask(w, s.git, stage);
    var t := s.(git := a.git);
    match a.reply
    case Raised => t
    case TimedOut => RecordFailure(t, Timeout)
    case Returned(rc) => if rc != 0 then RecordFailure(t, Rc(rc)) else CommitIfStaged(w, t, tag)
  }

  function CommitIfStaged(w: Oracle, s: State, tag: Tag): State {
    var a := Ask(w, s.git, Diff);
    var t := s.(git := a.git);
    match a.reply
    case Raised => t
    case TimedOut => RecordFailure(t, Timeout)
    case Returned(rc) => if rc == 0 then RecordClean(t) else CommitChecked(w, t, tag)
  }

  /** `GitOps.commit` asks again whether anything is staged, and reports success if not. */
  function CommitChecked(w: Oracle, s: State, tag: Tag): State {
    var a := Ask(w, s.git, Diff);
    var t := s.(git := a.git);
    match a.reply
    case Raised => t
    case TimedOut => RecordFailure(t, Timeout)
    case Returned(rc) => if rc == 0 then RecordClean(t.(unpushed := true)) else CommitNow(w, t, tag)
  }

  function CommitNow(w: Oracle, s: State, tag: Tag): State {
    var a := Ask(w, s.git, CommitIndex(tag));
    var t := s.(git := a.git);
    match a.reply
    case Raised => t
    case TimedOut => RecordFailure(t, Timeout)
    case Returned(rc) =>
      if rc != 0 then RecordFailure(t, Rc(rc))
      else RecordClean(Acknowledge(t.(unpushed := true), Delta(HeadTree(s.git.repo), HeadTree(t.git.repo))))
  }

  function Acknowledge(s: State, vs: set<Version>): State {
    if s.git.repo.stopped.Some? then s.(adrift := s.adrift + vs) else s.(anchored := s.anchored + vs)
  }

  function StageOf(e: SyncEvent): Command {
    if e.McpWrite? then Add(e.paths) else AddAll
  }

  function TagOf(e: SyncEvent): Tag {
    if e.McpWrite? then Mcp(e.operation, e.paths) else Sync
  }

  function HandleEvent(w: Oracle, s: State, e: SyncEvent): State {
    if e.McpWrite? && e.paths == [] then s else StageAndCommit(w, s, StageOf(e), TagOf(e))
  }

  // ---- Pushing ---------------------------------------------------------------------------

  predicate Overdue(cfg: Config, s: State) {
    s.git.now - s.lastPush >= cfg.maxInterval
  }

  predicate Attempts(cfg: Config, s: State) {
    s.unpushed && cfg.remote
  }

  function MaybePush(cfg: Config, w: Oracle, s: State): State {
    if Attempts(cfg, s) then PushOnce(cfg, w, s) else s
  }

  function PushOnce(cfg: Config, w: Oracle, s: State): State {
    if cfg.branch != "" then FetchThenPush(cfg, w, s, cfg.branch)
    else
      var a := Ask(w, s.git, CurrentBranch);
      var t := s.(git := a.git);
      if a.reply.Ok() && HeadName(a.git.repo) != "" then FetchThenPush(cfg, w, t, HeadName(a.git.repo)) else t
  }

  function FetchThenPush(cfg: Config, w: Oracle, s: State, b: Branch): State {
    var a := Ask(w, s.git, Fetch);
    var t := s.(git := a.git);
    if !a.reply.Returned? then t
    else if a.reply.Ok() then RebaseThenPush(cfg, w, t, b)
    else Deliver(cfg, w, t, b)
  }

  function RebaseThenPush(cfg: Config, w: Oracle, s: State, b: Branch): State {
    var a := Ask(w, s.git, Command.Rebase(b));
    var t := s.(git := a.git);
    if !a.reply.Returned? then t
    else if a.reply.Ok() then Deliver(cfg, w, t, b)
    else AbortThenPush(cfg, w, t, b)
  }

  function AbortThenPush(cfg: Config, w: Oracle, s: State, b: Branch): State {
    var a := Ask(w, s.git, Abort);
    var t := s.(git := a.git);
    if !a.reply.Returned? then t else Deliver(cfg, w, t, b)
  }

  function Deliver(cfg: Config, w: Oracle, s: State, b: Branch): State {
    var a := Ask(w, s.git, Push(b));
    var t := s.(git := a.git);
    if a.reply.Ok() then
      t.(unpushed := false, lastPush := t.git.now, pings := if cfg.heartbeat then s.pings + 1 else s.pings)
    else t
  }

  // ---- The loop --------------------------------------------------------------------------

  /** One pass of the loop: the queue stays empty for the debounce window, or an event arrives. */
  datatype Turn = Quiet | Got(event: SyncEvent, wait: Duration)

  function Wait(s: State, d: Duration): State {
    s.(git := s.git.(now := s.git.now + d))
  }

  function LoopTurn(cfg: Config, w: Oracle, s: State, t: Turn): State {
    match t
    case Quiet => MaybePush(cfg, w, Wait(s, cfg.debounce))
    case Got(e, wait) =>
      var h := HandleEvent(w, Wait(s, wait), e);
      if Overdue(cfg, h) then MaybePush(cfg, w, h) else h
  }

  function Run(cfg: Config, w: Oracle, s: State, turns: seq<Turn>): State {
    if turns == [] then s
    else LoopTurn(cfg, w, Run(cfg, w, s, turns[..|turns| - 1]), turns[|turns| - 1])
  }

  /** Running one turn more. */
  lemma RunStep(cfg: Config, w: Oracle, s: State, turns: seq<Turn>, i: nat)
    requires i < |turns|
    ensures Run(cfg, w, s, turns[..i + 1]) == LoopTurn(cfg, w, Run(cfg, w, s, turns[..i]), turns[i])
  {
    assert turns[..i + 1][..i] == turns[..i];
  }
}
