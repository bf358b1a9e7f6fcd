/** What one turn of the loop issues, said of its commands and their outcomes alone. */
module Policy {
  import opened Trees
  import opened Repository
  import opened Machine
  import opened Protocol

  // ---- The scripts -----------------------------------------------------------------------

  /** An event without paths issues nothing. Any other is staged; if that exits 0, inspected; if
      something is staged, inspected again; if so still, committed under the event's own tag. */
  predicate EventScript(e: SyncEvent, es: seq<Entry>) {
    if e.McpWrite? && e.paths == [] then es == []
    else
      && 1 <= |es| <= 4
      && (match e
          case McpWrite(_, paths) => es[0].command == Add(paths)
          case SyncSweep(_) => es[0].command == AddAll)
      && (|es| > 1 <==> es[0].reply == Returned(0))
      && (|es| > 1 ==> es[1].command == Diff && (|es| > 2 <==> Failed(es[1])))
      && (|es| > 2 ==> es[2].command == Diff && (|es| > 3 <==> Failed(es[2])))
      && (|es| > 3 ==>
            match e
            case McpWrite(op, paths) => es[3].command == CommitIndex(Mcp(op, paths))
            case SyncSweep(_) => es[3].command == CommitIndex(Sync))
  }

  /** Fetch; if that exits 0, rebase onto the remote's `name`; if that fails, abort; and push `name`,
      unless one of them was killed or raised. */
  predicate PushScript(name: Branch, es: seq<Entry>) {
    && 1 <= |es| <= 4
    && es[0].command == Fetch
    && (|es| == 1 <==> !es[0].reply.Returned?)
    && (|es| > 1 && Failed(es[0]) ==> |es| == 2 && es[1].command == Push(name))
    && (|es| > 1 && es[0].reply == Returned(0) ==>
          && es[1].command == Command.Rebase(name)
          && (|es| == 2 <==> !es[1].reply.Returned?)
          && (es[1].reply == Returned(0) ==> |es| == 3 && es[2].command == Push(name))
          && (Failed(es[1]) ==>
                && |es| > 2 && es[2].command == Abort
                && (|es| == 4 <==> es[2].reply.Returned?)
                && (|es| == 4 ==> es[3].command == Push(name))))
  }

  /** What `rev-parse` prints for HEAD. */
  predicate HeadIs(r: Repo, name: Branch) {
    r.head == On(name) || (r.head.Detached? && name == "HEAD")
  }

  /** A push attempt: under the configured branch, or under the name it asks git for first. */
  predicate AttemptScript(cfg: Config, r: Repo, es: seq<Entry>) {
    if cfg.branch != "" then PushScript(cfg.branch, es)
    else
      && |es| > 0 && es[0].command == CurrentBranch
      && if es[0].reply == Returned(0) && !HeadIs(r, "") then
           PushScript(if r.head.On? then r.head.branch else "HEAD", es[1..])
         else |es| == 1
  }

  /** What a turn adds to the trace: after a quiet window an attempt, if a push is owed and there is a
      remote; for an event its script, then an attempt if one is owed and the interval since the
      last ok push is over. */
  predicate TurnScript(cfg: Config, start: real, r: Repo, now: real, trace: seq<Entry>, t: Turn, es: seq<Entry>) {
    match t
    case Quiet => if cfg.remote && OwesPush(trace) then AttemptScript(cfg, r, es) else es == []
    case Got(e, wait) =>
      exists n | 0 <= n <= |es| ::
        && EventScript(e, es[..n])
        && var clock := if n == 0 then now + wait else es[n - 1].ended;
           if cfg.remote && OwesPush(trace + es[..n]) && clock >= LastPushTime(trace + es[..n], start) + cfg.maxInterval
           then AttemptScript(cfg, r, es[n..]) else es[n..] == []
  }

  // ---- The worker follows them -----------------------------------------------------------

  /** From `s` to `t` the commands `es` were issued, and the clock stands where they left it. */
  predicate Issues(s: State, t: State, es: seq<Entry>) {
    && t.git.trace == s.git.trace + es
    && t.git.now == (if es == [] then s.git.now else es[|es| - 1].ended)
  }

  function EntryOf(w: Oracle, g: Git, c: Command): Entry {
    var a := Ask(w, g, c);
    a.git.trace[|g.trace|]
  }

  lemma IssuesOne(w: Oracle, s: State, c: Command)
    ensures var e := EntryOf(w, s.git, c);
            && e.command == c && e.reply == Ask(w, s.git, c).reply
            && Issues(s, s.(git := Ask(w, s.git, c).git), [e])
  {
    hide Execute, Answer;
  }

  lemma IssuesThen(s: State, t: State, u: State, es: seq<Entry>, fs: seq<Entry>)
    requires Issues(s, t, es) && Issues(t, u, fs)
    ensures Issues(s, u, es + fs)
  {
    assert s.git.trace + es + fs == s.git.trace + (es + fs);
  }

  lemma CommitCheckedIssues(w: Oracle, s: State, tag: Tag) returns (es: seq<Entry>)
    ensures Issues(s, CommitChecked(w, s, tag), es)
    ensures 1 <= |es| <= 2 && es[0].command == Diff && (|es| > 1 <==> Failed(es[0]))
    ensures |es| > 1 ==> es[1].command == CommitIndex(tag)
  {
    hide Execute, Answer, HeadTree, Delta;
    var t := s.(git := Ask(w, s.git, Diff).git);
    var u := t.(git := Ask(w, t.git, CommitIndex(tag)).git);
    var e, f := EntryOf(w, s.git, Diff), EntryOf(w, t.git, CommitIndex(tag));
    IssuesOne(w, s, Diff);
    IssuesOne(w, t, CommitIndex(tag));
    IssuesThen(s, t, u, [e], [f]);
    es := if Failed(e) then [e] + [f] else [e];
  }

  lemma EventIssues(w: Oracle, s: State, e: SyncEvent) returns (es: seq<Entry>)
    ensures Issues(s, HandleEvent(w, s, e), es) && EventScript(e, es)
  {
    hide Execute, Answer, CommitChecked;
    if e.McpWrite? && e.paths == [] {
      es := [];
    } else {
      var c := if e.McpWrite? then Add(e.paths) else AddAll;
      var tag := if e.McpWrite? then Mcp(e.operation, e.paths) else Sync;
      var t := s.(git := Ask(w, s.git, c).git);
      var u := t.(git := Ask(w, t.git, Diff).git);
      IssuesOne(w, s, c);
      IssuesOne(w, t, Diff);
      var e0, e1 := EntryOf(w, s.git, c), EntryOf(w, t.git, Diff);
      IssuesThen(s, t, u, [e0], [e1]);
      var rest := CommitCheckedIssues(w, u, tag);
      IssuesThen(s, u, CommitChecked(w, u, tag), [e0] + [e1], rest);
      es := if !e0.reply.Ok() then [e0] else if !Failed(e1) then [e0] + [e1] else [e0] + [e1] + rest;
    }
  }

  lemma DeliverIssues(cfg: Config, w: Oracle, s: State, name: Branch) returns (es: seq<Entry>)
    ensures Issues(s, Deliver(cfg, w, s, name), es) && |es| == 1 && es[0].command == Push(name)
  {
    hide Execute, Answer;
    IssuesOne(w, s, Push(name));
    es := [EntryOf(w, s.git, Push(name))];
  }

  lemma RebaseIssues(cfg: Config, w: Oracle, s: State, name: Branch) returns (es: seq<Entry>)
    ensures Issues(s, RebaseThenPush(cfg, w, s, name), es)
    ensures 1 <= |es| <= 3 && es[0].command == Command.Rebase(name)
    ensures |es| == 1 <==> !es[0].reply.Returned?
    ensures es[0].reply.Ok() ==> |es| == 2 && es[1].command == Push(name)
    ensures Failed(es[0]) ==> |es| > 1 && es[1].command == Abort
                              && (|es| == 3 <==> es[1].reply.Returned?) && (|es| == 3 ==> es[2].command == Push(name))
  {
    hide Execute, Answer, Deliver;
    var t := s.(git := Ask(w, s.git, Command.Rebase(name)).git);
    var u := t.(git := Ask(w, t.git, Abort).git);
    IssuesOne(w, s, Command.Rebase(name));
    IssuesOne(w, t, Abort);
    var e0, e1 := EntryOf(w, s.git, Command.Rebase(name)), EntryOf(w, t.git, Abort);
    var p := DeliverIssues(cfg, w, t, name);
    var q := DeliverIssues(cfg, w, u, name);
    IssuesThen(s, t, Deliver(cfg, w, t, name), [e0], p);
    IssuesThen(s, t, u, [e0], [e1]);
    IssuesThen(s, u, Deliver(cfg, w, u, name), [e0] + [e1], q);
    es := if !e0.reply.Returned? then [e0] else if e0.reply.Ok() then [e0] + p
          else if !e1.reply.Returned? then [e0] + [e1] else [e0] + [e1] + q;
  }

  lemma FetchIssues(cfg: Config, w: Oracle, s: State, name: Branch) returns (es: seq<Entry>)
    ensures Issues(s, FetchThenPush(cfg, w, s, name), es) && PushScript(name, es)
  {
    hide Execute, Answer, Deliver, RebaseThenPush;
    var t := s.(git := Ask(w, s.git, Fetch).git);
    IssuesOne(w, s, Fetch);
    var e0 := EntryOf(w, s.git, Fetch);
    var p := DeliverIssues(cfg, w, t, name);
    var q := RebaseIssues(cfg, w, t, name);
    IssuesThen(s, t, Deliver(cfg, w, t, name), [e0], p);
    IssuesThen(s, t, RebaseThenPush(cfg, w, t, name), [e0], q);
    es := if !e0.reply.Returned? then [e0] else if e0.reply.Ok() then [e0] + q else [e0] + p;
  }

  /** Asking for the branch leaves HEAD where it is. */
  lemma AskingKeepsHead(r: Repo, c: Command, o: Outcome)
    requires c.Add? || c.AddAll? || c.Diff? || c.CommitIndex? || c.CurrentBranch?
    ensures var t := Execute(r, c, o); t.head == r.head || (t.head.Detached? && r.head.Detached?)
  {
    hide Accepts, Edited, Grown, HeadHistory;
  }

  lemma AttemptIssues(cfg: Config, w: Oracle, s: State) returns (es: seq<Entry>)
    requires s.unpushed && cfg.remote
    ensures Issues(s, MaybePush(cfg, w, s), es) && AttemptScript(cfg, s.git.repo, es)
  {
    hide Execute, Answer, FetchThenPush, PushScript;
    if cfg.branch != "" {
      es := FetchIssues(cfg, w, s, cfg.branch);
    } else {
      var t := s.(git := Ask(w, s.git, CurrentBranch).git);
      IssuesOne(w, s, CurrentBranch);
      AskingKeepsHead(s.git.repo, CurrentBranch, w(s.git.tick));
      var e0 := EntryOf(w, s.git, CurrentBranch);
      var q := FetchIssues(cfg, w, t, HeadName(t.git.repo));
      IssuesThen(s, t, FetchThenPush(cfg, w, t, HeadName(t.git.repo)), [e0], q);
      es := if e0.reply.Ok() && HeadName(t.git.repo) != "" then [e0] + q else [e0];
      assert ([e0] + q)[1..] == q;
    }
  }

  lemma EventKeepsHead(w: Oracle, s: State, e: SyncEvent)
    ensures var r, t := s.git.repo, HandleEvent(w, s, e).git.repo;
            t.head == r.head || (t.head.Detached? && r.head.Detached?)
  {
    hide Execute, Answer, CommitChecked;
    AskingKeepsHead(s.git.repo, StageOf(e), w(s.git.tick));
    var t := s.(git := Ask(w, s.git, StageOf(e)).git);
    AskingKeepsHead(t.git.repo, Diff, w(t.git.tick));
    CommitKeepsHead(w, t.(git := Ask(w, t.git, Diff).git), TagOf(e));
  }

  lemma CommitKeepsHead(w: Oracle, s: State, tag: Tag)
    ensures var r, t := s.git.repo, CommitChecked(w, s, tag).git.repo;
            t.head == r.head || (t.head.Detached? && r.head.Detached?)
  {
    hide Execute, Answer, HeadTree, Delta;
    AskingKeepsHead(s.git.repo, Diff, w(s.git.tick));
    var t := s.(git := Ask(w, s.git, Diff).git);
    AskingKeepsHead(t.git.repo, CommitIndex(tag), w(t.git.tick));
  }

  lemma TurnIssues(cfg: Config, w: Oracle, start: real, s: State, t: Turn) returns (es: seq<Entry>)
    requires Rested(cfg, start, s)
    ensures LoopTurn(cfg, w, s, t).git.trace == s.git.trace + es
    ensures TurnScript(cfg, start, s.git.repo, s.git.now, s.git.trace, t, es)
  {
    hide HandleEvent, MaybePush, OwesPush, LastPushTime, Lawful, OkPushes, CommitOnly, EventScript, AttemptScript, AtRest;
    match t {
      case Quiet =>
        var q := Wait(s, cfg.debounce);
        if q.unpushed && cfg.remote {
          es := AttemptIssues(cfg, w, q);
        } else {
          es := [];
          assert MaybePush(cfg, w, q) == q by { NoAttempt(cfg, w, q); }
        }
      case Got(e, wait) =>
        var q := Wait(s, wait);
        var h := HandleEvent(w, q, e);
        var a := EventIssues(w, q, e);
        HandleEventIsBooked(cfg, w, q, e, start);
        var b: seq<Entry> := [];
        if h.unpushed && cfg.remote && h.git.now - h.lastPush >= cfg.maxInterval {
          b := AttemptIssues(cfg, w, h);
          EventKeepsHead(w, q, e);
          assert AttemptScript(cfg, s.git.repo, b) by { ScriptSeesTheHead(cfg, h.git.repo, s.git.repo, b); }
        } else {
          assert MaybePush(cfg, w, h) == h || !Overdue(cfg, h) by { if Overdue(cfg, h) { NoAttempt(cfg, w, h); } }
        }
        es := a + b;
        assert es[..|a|] == a && es[|a|..] == b;
        assert s.git.trace + a + b == s.git.trace + es;
    }
  }

  lemma NoAttempt(cfg: Config, w: Oracle, s: State)
    requires !s.unpushed || !cfg.remote
    ensures MaybePush(cfg, w, s) == s
  {
  }

  lemma ScriptSeesTheHead(cfg: Config, r: Repo, r': Repo, es: seq<Entry>)
    requires AttemptScript(cfg, r, es) && (r.head == r'.head || (r.head.Detached? && r'.head.Detached?))
    ensures AttemptScript(cfg, r', es)
  {
  }

  /** In every run, each turn adds to the trace what its script says and nothing else: which commands
      on which paths, under which tag and branch name, when to go on and when to stop, and when a
      push is attempted at all. */
  lemma EveryTurnFollowsItsScript(cfg: Config, w: Oracle, repo: Repo, now: real, turns: seq<Turn>, k: nat)
    returns (es: seq<Entry>)
    requires k < |turns|
    ensures var s, t := Run(cfg, w, Fresh(repo, now), turns[..k]), Run(cfg, w, Fresh(repo, now), turns[..k + 1]);
            && t.git.trace == s.git.trace + es
            && TurnScript(cfg, now, s.git.repo, s.git.now, s.git.trace, turns[k], es)
  {
    hide LoopTurn, Run, Rested, TurnScript;
    EveryRunIsBooked(cfg, w, repo, now, turns[..k]);
    RunStep(cfg, w, Fresh(repo, now), turns, k);
    es := TurnIssues(cfg, w, now, Run(cfg, w, Fresh(repo, now), turns[..k]), turns[k]);
  }

  // ---- What follows ----------------------------------------------------------------------

  /** On branch `b`, configured or not, everything is rebased onto and pushed under `b`. */
  lemma PushesNameTheBranch(cfg: Config, w: Oracle, s: State, b: Branch)
    requires s.git.repo.head == On(b) && (cfg.branch == "" || cfg.branch == b)
    ensures var t := MaybePush(cfg, w, s).git.trace;
            && s.git.trace <= t
            && forall e | e in t[|s.git.trace|..] ::
                 (e.command.Rebase? ==> e.command.branch == b) && (e.command.Push? ==> e.command == Push(b))
  {
    hide PushOnce;
    if s.unpushed && cfg.remote {
      var es := AttemptIssues(cfg, w, s);
      var t := MaybePush(cfg, w, s).git.trace;
      assert t[|s.git.trace|..] == es;
      forall e | e in es
        ensures (e.command.Rebase? ==> e.command.branch == b) && (e.command.Push? ==> e.command == Push(b))
      {
        if cfg.branch == "" && |es| > 1 {
          assert es[1..][0] == es[1];
          ScriptNames(b, es[1..]);
          assert e == es[0] || e in es[1..];
        } else if cfg.branch != "" {
          ScriptNames(b, es);
        }
      }
    }
  }

  lemma ScriptNames(b: Branch, es: seq<Entry>)
    requires PushScript(b, es)
    ensures forall e | e in es ::
              (e.command.Rebase? ==> e.command.branch == b) && (e.command.Push? ==> e.command == Push(b))
  {
  }

  /** A quiet queue with nothing unpushed never pushes. */
  lemma IdleQueueNeverPushes(cfg: Config, w: Oracle, s: State)
    requires !s.unpushed || !cfg.remote
    ensures LoopTurn(cfg, w, s, Quiet) == Wait(s, cfg.debounce)
  {
  }
}
