/** The order of the commands of every run, and the worker's fields as functions of that order. */
module Protocol {
  import opened Trees
  import opened Repository
  import opened Machine

  // ---- Which command may follow which ----------------------------------------------------

  predicate Failed(e: Entry) {
    e.reply.Returned? && !e.reply.Ok()
  }

  /** After `e` its cycle goes on; otherwise the next command opens a new one. */
  predicate GoesOn(e: Entry) {
    match e.command
    case Add(_) | AddAll => e.reply.Ok()
    case Diff => Failed(e)
    case Fetch => e.reply.Returned?
    case Rebase(_) => e.reply.Returned?
    case Abort => e.reply.Returned?
    case CommitIndex(_) | CurrentBranch | Push(_) => false
  }

  /** The first command of an event, or of a push cycle, which opens only when a push is owed. */
  predicate Opens(c: Command) {
    c.Add? || c.AddAll? || c.CurrentBranch? || c.Fetch?
  }

  /** What the code issues next within a cycle: stage, inspect, inspect again, commit; and fetch,
      rebase if it fetched, abort if the rebase failed, push. */
  predicate Continues(e: Entry, c: Command) {
    match e.command
    case Add(_) | AddAll => c.Diff?
    case Diff => c.Diff? || c.CommitIndex?
    case Fetch => if e.reply.Ok() then c.Rebase? else c.Push?
    case Rebase(b) => if e.reply.Ok() then c == Push(b) else c.Abort?
    case Abort => c.Push?
    case CommitIndex(_) | CurrentBranch | Push(_) => false
  }

  predicate Permits(trace: seq<Entry>, c: Command) {
    if trace == [] || !GoesOn(trace[|trace| - 1]) then Opens(c) && (c.CurrentBranch? || c.Fetch? ==> OwesPush(trace))
    else Continues(trace[|trace| - 1], c)
  }

  /** No cycle is under way. */
  predicate AtRest(trace: seq<Entry>) {
    trace == [] || !GoesOn(trace[|trace| - 1])
  }

  predicate Lawful(trace: seq<Entry>) {
    trace == [] || (Lawful(trace[..|trace| - 1]) && Permits(trace[..|trace| - 1], trace[|trace| - 1].command))
  }

  // ---- The fields, read off the commands -------------------------------------------------

  function OkPushes(trace: seq<Entry>): nat {
    if trace == [] then 0
    else
      var e := trace[|trace| - 1];
      OkPushes(trace[..|trace| - 1]) + if e.command.Push? && e.reply.Ok() then 1 else 0
  }

  predicate CommitOnly(trace: seq<Entry>) {
    forall e | e in trace :: e.command.Add? || e.command.AddAll? || e.command.Diff? || e.command.CommitIndex?
  }

  /** Something was reported committed since the last ok push. The second of two inspections in a
      row exits 0 only in `GitOps.commit`, which then reports an ok no-op. */
  predicate OwesPush(trace: seq<Entry>) {
    if trace == [] then false
    else
      var init, e := trace[..|trace| - 1], trace[|trace| - 1];
      if e.command.Push? && e.reply.Ok() then false
      else if e.command.CommitIndex? && e.reply.Ok() then true
      else if e.command.Diff? && e.reply.Ok() && init != [] && init[|init| - 1].command.Diff? then true
      else OwesPush(init)
  }

  function LastPushTime(trace: seq<Entry>, start: real): real {
    if trace == [] then start
    else
      var e := trace[|trace| - 1];
      if e.command.Push? && e.reply.Ok() then e.ended else LastPushTime(trace[..|trace| - 1], start)
  }

  /** Pings, commit-only mode, `_unpushed` and `_last_push`, all determined by the commands. */
  predicate Booked(cfg: Config, start: real, s: State) {
    && Lawful(s.git.trace)
    && s.pings == (if cfg.heartbeat then OkPushes(s.git.trace) else 0)
    && (!cfg.remote ==> CommitOnly(s.git.trace))
    && s.unpushed == OwesPush(s.git.trace)
    && s.lastPush == LastPushTime(s.git.trace, start)
  }

  predicate Rested(cfg: Config, start: real, s: State) {
    Booked(cfg, start, s) && AtRest(s.git.trace)
  }

  /** One more command: how the readings change. */
  lemma AskReads(w: Oracle, g: Git, c: Command, start: real)
    requires Lawful(g.trace) && Permits(g.trace, c)
    ensures var t := Ask(w, g, c).git.trace;
            var e := t[|t| - 1];
            && |t| == |g.trace| + 1 && e.command == c && e.reply == Ask(w, g, c).reply && e.ended == Ask(w, g, c).git.now
            && Lawful(t)
            && OkPushes(t) == OkPushes(g.trace) + (if c.Push? && e.reply.Ok() then 1 else 0)
            && LastPushTime(t, start) == (if c.Push? && e.reply.Ok() then e.ended else LastPushTime(g.trace, start))
            && OwesPush(t) == (if c.Push? && e.reply.Ok() then false
                               else if c.CommitIndex? && e.reply.Ok() then true
                               else if c.Diff? && e.reply.Ok() && g.trace != [] && g.trace[|g.trace| - 1].command.Diff? then true
                               else OwesPush(g.trace))
            && (CommitOnly(g.trace) && (c.Add? || c.AddAll? || c.Diff? || c.CommitIndex?) ==> CommitOnly(t))
  {
    hide Execute, Answer;
    var t := Ask(w, g, c).git.trace;
    assert t[..|t| - 1] == g.trace;
  }

  // ---- Event cycles ----------------------------------------------------------------------

  lemma CommitNowIsBooked(cfg: Config, w: Oracle, s: State, tag: Tag, start: real)
    requires Booked(cfg, start, s) && Permits(s.git.trace, CommitIndex(tag))
    ensures Rested(cfg, start, CommitNow(w, s, tag))
  {
    hide Execute, Answer, Permits, Lawful, OkPushes, LastPushTime, OwesPush, CommitOnly;
    AskReads(w, s.git, CommitIndex(tag), start);
  }

  lemma CommitCheckedIsBooked(cfg: Config, w: Oracle, s: State, tag: Tag, start: real)
    requires Booked(cfg, start, s) && s.git.trace != []
    requires var e := s.git.trace[|s.git.trace| - 1]; e.command.Diff? && Failed(e)
    ensures Rested(cfg, start, CommitChecked(w, s, tag))
  {
    hide Execute, Answer, Lawful, OkPushes, LastPushTime, OwesPush, CommitOnly, CommitNow;
    AskReads(w, s.git, Diff, start);
    var a := Ask(w, s.git, Diff);
    if a.reply.Returned? && !a.reply.Ok() {
      CommitNowIsBooked(cfg, w, s.(git := a.git), tag, start);
    }
  }

  lemma CommitIfStagedIsBooked(cfg: Config, w: Oracle, s: State, tag: Tag, start: real)
    requires Booked(cfg, start, s) && s.git.trace != []
    requires var e := s.git.trace[|s.git.trace| - 1]; (e.command.Add? || e.command.AddAll?) && e.reply.Ok()
    ensures Rested(cfg, start, CommitIfStaged(w, s, tag))
  {
    hide Execute, Answer, Lawful, OkPushes, LastPushTime, OwesPush, CommitOnly, CommitChecked;
    AskReads(w, s.git, Diff, start);
    var a := Ask(w, s.git, Diff);
    if a.reply.Returned? && !a.reply.Ok() {
      CommitCheckedIsBooked(cfg, w, s.(git := a.git), tag, start);
    }
  }

  lemma HandleEventIsBooked(cfg: Config, w: Oracle, s: State, e: SyncEvent, start: real)
    requires Rested(cfg, start, s)
    ensures Rested(cfg, start, HandleEvent(w, s, e))
  {
    hide Execute, Answer, Lawful, OkPushes, LastPushTime, OwesPush, CommitOnly, CommitIfStaged;
    var stage, tag := StageOf(e), TagOf(e);
    AskReads(w, s.git, stage, start);
    var a := Ask(w, s.git, stage);
    if a.reply.Ok() {
      CommitIfStagedIsBooked(cfg, w, s.(git := a.git), tag, start);
    }
  }

  // ---- Push cycles -----------------------------------------------------------------------

  lemma DeliverIsBooked(cfg: Config, w: Oracle, s: State, b: Branch, start: real)
    requires Booked(cfg, start, s) && cfg.remote && Permits(s.git.trace, Push(b))
    ensures Rested(cfg, start, Deliver(cfg, w, s, b))
  {
    hide Execute, Answer, Permits, Lawful, OkPushes, LastPushTime, OwesPush, CommitOnly;
    AskReads(w, s.git, Push(b), start);
  }

  lemma AbortThenPushIsBooked(cfg: Config, w: Oracle, s: State, b: Branch, start: real)
    requires Booked(cfg, start, s) && cfg.remote && Permits(s.git.trace, Abort)
    ensures Rested(cfg, start, AbortThenPush(cfg, w, s, b))
  {
    hide Execute, Answer, Lawful, OkPushes, LastPushTime, OwesPush, CommitOnly, Deliver;
    AskReads(w, s.git, Abort, start);
    var a := Ask(w, s.git, Abort);
    if a.reply.Returned? {
      DeliverIsBooked(cfg, w, s.(git := a.git), b, start);
    }
  }

  lemma RebaseThenPushIsBooked(cfg: Config, w: Oracle, s: State, b: Branch, start: real)
    requires Booked(cfg, start, s) && cfg.remote && Permits(s.git.trace, Command.Rebase(b))
    ensures Rested(cfg, start, RebaseThenPush(cfg, w, s, b))
  {
    hide Execute, Answer, Lawful, OkPushes, LastPushTime, OwesPush, CommitOnly, Deliver, AbortThenPush;
    AskReads(w, s.git, Command.Rebase(b), start);
    var a := Ask(w, s.git, Command.Rebase(b));
    if a.reply.Ok() {
      DeliverIsBooked(cfg, w, s.(git := a.git), b, start);
    } else if a.reply.Returned? {
      AbortThenPushIsBooked(cfg, w, s.(git := a.git), b, start);
    }
  }

  lemma FetchThenPushIsBooked(cfg: Config, w: Oracle, s: State, b: Branch, start: real)
    requires Rested(cfg, start, s) && cfg.remote && s.unpushed
    ensures Rested(cfg, start, FetchThenPush(cfg, w, s, b))
  {
    hide Execute, Answer, Lawful, OkPushes, LastPushTime, OwesPush, CommitOnly, Deliver, RebaseThenPush;
    AskReads(w, s.git, Fetch, start);
    var a := Ask(w, s.git, Fetch);
    if a.reply.Ok() {
      RebaseThenPushIsBooked(cfg, w, s.(git := a.git), b, start);
    } else if a.reply.Returned? {
      DeliverIsBooked(cfg, w, s.(git := a.git), b, start);
    }
  }

  lemma MaybePushIsBooked(cfg: Config, w: Oracle, s: State, start: real)
    requires Rested(cfg, start, s)
    ensures Rested(cfg, start, MaybePush(cfg, w, s))
  {
    hide Execute, Answer, Lawful, OkPushes, LastPushTime, OwesPush, CommitOnly, FetchThenPush;
    if Attempts(cfg, s) {
      FetchThenPushIsBooked(cfg, w, s, cfg.branch, start);
      AskReads(w, s.git, CurrentBranch, start);
      var t := s.(git := Ask(w, s.git, CurrentBranch).git);
      FetchThenPushIsBooked(cfg, w, t, HeadName(t.git.repo), start);
    }
  }

  /** In every run, under no hypothesis: the commands come in the order the policy prescribes, a
      push cycle only when a push is owed, a commit only after staging and two inspections, an abort only after a failed rebase, a push
      only after a failed fetch, a finished rebase or an abort; between turns no cycle is under
      way; one ping per ok push when a URL is set and none otherwise; no remote command without a
      remote; `_unpushed` set exactly when something was reported committed since the last ok push;
      and `_last_push` the time that push ended. */
  lemma {:induction false} EveryRunIsBooked(cfg: Config, w: Oracle, repo: Repo, now: real, turns: seq<Turn>)
    ensures Rested(cfg, now, Run(cfg, w, Fresh(repo, now), turns))
    decreases |turns|
  {
    hide HandleEvent, PushOnce, Execute, Answer;
    if turns != [] {
      var n := |turns| - 1;
      EveryRunIsBooked(cfg, w, repo, now, turns[..n]);
      var s := Run(cfg, w, Fresh(repo, now), turns[..n]);
      match turns[n] {
        case Quiet => MaybePushIsBooked(cfg, w, Wait(s, cfg.debounce), now);
        case Got(e, wait) =>
          HandleEventIsBooked(cfg, w, Wait(s, wait), e, now);
          MaybePushIsBooked(cfg, w, HandleEvent(w, Wait(s, wait), e), now);
      }
    }
  }
}
