/** The worker thread and the thread calling `stop`, interleaved command by command. */
module Shutdown {
  import opened Options
  import opened Trees
  import opened Repository
  import opened Machine

  // ---- How long one turn can be ----------------------------------------------------------

  /** The most git commands an event can issue: stage, inspect twice, commit. */
  const PER_EVENT: nat := 4

  /** The most a push cycle can issue: resolve the branch if none is configured, fetch, rebase, abort,
      push. */
  function PerPush(cfg: Config): nat {
    if !cfg.remote then 0 else if cfg.branch == "" then 5 else 4
  }

  /** How long `n` commands can take, each with what goes before it. */
  function Total(n: nat, slot: Duration): (t: Duration) {
    if n == 0 then 0.0 else Total(n - 1, slot) + slot
  }

  lemma {:induction false} TotalIsProduct(n: nat, slot: Duration)
    ensures Total(n, slot) == n as real * slot
  {
    if n > 0 {
      TotalIsProduct(n - 1, slot);
      assert n as real * slot == (n - 1) as real * slot + slot;
    }
  }

  /** More commands take longer. */
  lemma {:induction false} Scales(left: nat, more: nat, slot: Duration)
    requires left <= more
    ensures Total(left, slot) <= Total(more, slot)
    ensures left < more ==> Total(left, slot) + slot <= Total(more, slot)
    decreases more
  {
    if left < more {
      Scales(left, more - 1, slot);
    }
  }

  /** From `s` to `t` at most `n` commands were issued, each within its slot. */
  predicate Spends(s: State, t: State, n: nat, slot: Duration) {
    && |t.git.trace| <= |s.git.trace| + n
    && t.git.now <= s.git.now + n as real * slot
  }

  ghost predicate Bounded(w: Oracle, slot: Duration) {
    forall n :: w(n).before + w(n).took <= slot
  }

  lemma CommitsAreShort(w: Oracle, s: State, tag: Tag, slot: Duration)
    requires Bounded(w, slot)
    ensures Spends(s, CommitChecked(w, s, tag), 2, slot)
  {
    hide Execute, Answer, HeadTree, Delta;
  }

  lemma EventsAreShort(w: Oracle, s: State, e: SyncEvent, slot: Duration)
    requires Bounded(w, slot)
    ensures Spends(s, HandleEvent(w, s, e), PER_EVENT, slot)
  {
    hide Execute, Answer, CommitChecked;
    CommitsAreShort(w, s.(git := Ask(w, Ask(w, s.git, StageOf(e)).git, Diff).git), TagOf(e), slot);
  }

  lemma FetchesAreShort(cfg: Config, w: Oracle, s: State, b: Branch, slot: Duration)
    requires Bounded(w, slot)
    ensures Spends(s, FetchThenPush(cfg, w, s, b), 4, slot)
  {
    hide Execute, Answer, RebaseThenPush;
    RebasesAreShort(cfg, w, s.(git := Ask(w, s.git, Fetch).git), b, slot);
  }

  lemma RebasesAreShort(cfg: Config, w: Oracle, s: State, b: Branch, slot: Duration)
    requires Bounded(w, slot)
    ensures Spends(s, RebaseThenPush(cfg, w, s, b), 3, slot)
  {
    hide Execute, Answer;
  }

  lemma PushesAreShort(cfg: Config, w: Oracle, s: State, slot: Duration)
    requires Bounded(w, slot)
    ensures Spends(s, MaybePush(cfg, w, s), PerPush(cfg), slot)
  {
    hide Execute, Answer, FetchThenPush;
    FetchesAreShort(cfg, w, s, cfg.branch, slot);
    var t := s.(git := Ask(w, s.git, CurrentBranch).git);
    FetchesAreShort(cfg, w, t, HeadName(t.git.repo), slot);
  }

  /** No turn issues more commands or takes longer than this. */
  lemma TurnsAreShort(cfg: Config, w: Oracle, s: State, t: Turn, slot: Duration)
    requires Bounded(w, slot) && (t.Got? ==> t.wait <= cfg.debounce)
    ensures Spends(Wait(s, cfg.debounce), LoopTurn(cfg, w, s, t), PER_EVENT + PerPush(cfg), slot)
    ensures t.Quiet? ==> Spends(Wait(s, cfg.debounce), LoopTurn(cfg, w, s, t), PerPush(cfg), slot)
  {
    hide HandleEvent, MaybePush;
    match t {
      case Quiet => PushesAreShort(cfg, w, Wait(s, cfg.debounce), slot);
      case Got(e, wait) =>
        EventsAreShort(w, Wait(s, wait), e, slot);
        PushesAreShort(cfg, w, HandleEvent(w, Wait(s, wait), e), slot);
    }
  }

  // ---- Such a turn exists ----------------------------------------------------------------

  /** Every command uses its whole slot; the rebase, its abort and the push fail. */
  function Slow(cfg: Config, before: Duration, took: Duration): Oracle {
    (n: nat) => Outcome(map[], map[], Returned(if n < PerPush(cfg) + 1 then 0 else 1), Nothing, before, took)
  }

  function Dirty(): Repo {
    Repo(map["a.md" := Text("1")], map[], {}, On("main"), map["main" := []], map[], map[], None, None)
  }

  /** A clone with one new file, and a worker with an earlier commit unpushed and the interval over. */
  function Busy(cfg: Config): State {
    Wait(Fresh(Dirty(), 0.0), cfg.maxInterval).(unpushed := true)
  }

  lemma SlowAsk(cfg: Config, before: Duration, took: Duration, g: Git, c: Command)
    requires c.AddAll? || c.Diff? || c.CommitIndex? || c.CurrentBranch? || c.Fetch?
    requires g.tick < PerPush(cfg) + 1
    ensures var a := Ask(Slow(cfg, before, took), g, c);
            && a.git.repo == (if Accepts(g.repo, c) then Effect(g.repo, c) else g.repo)
            && a.reply == Returned(if Accepts(g.repo, c) then 0 else Refusal(c))
            && a.git.tick == g.tick + 1 && a.git.now == g.now + before + took && |a.git.trace| == |g.trace| + 1
  {
    hide Accepts, Effect;
    var o := Slow(cfg, before, took)(g.tick);
    CalmWeather(g.repo, o);
  }

  lemma FailingAsk(cfg: Config, before: Duration, took: Duration, g: Git, c: Command)
    requires g.tick >= PerPush(cfg) + 1
    ensures var a := Ask(Slow(cfg, before, took), g, c);
            && a.reply == Returned(1)
            && a.git.tick == g.tick + 1 && a.git.now == g.now + before + took && |a.git.trace| == |g.trace| + 1
  {
    hide Execute;
  }

  lemma SlowEvent(cfg: Config, before: Duration, took: Duration, s: State)
    requires cfg.remote && s.git.repo == Dirty() && s.git.tick == 0
    ensures var t := HandleEvent(Slow(cfg, before, took), s, SyncSweep("timer"));
            && t.git.now == s.git.now + 4.0 * (before + took) && |t.git.trace| == |s.git.trace| + 4
            && t.git.tick == 4 && t.lastPush == s.lastPush && t.unpushed
            && t.git.repo == Dirty().(index := Dirty().work, branches := t.git.repo.branches)
            && "main" in t.git.repo.branches
  {
    hide Execute, Answer;
    var w := Slow(cfg, before, took);
    var staged := Dirty().(index := Dirty().work);
    assert Dirty().work["a.md"].Text? && staged.index != map[];
    SlowAsk(cfg, before, took, s.git, AddAll);
    var t := s.(git := Ask(w, s.git, AddAll).git);
    SlowAsk(cfg, before, took, t.git, Diff);
    var u := t.(git := Ask(w, t.git, Diff).git);
    SlowAsk(cfg, before, took, u.git, Diff);
    var v := u.(git := Ask(w, u.git, Diff).git);
    SlowAsk(cfg, before, took, v.git, CommitIndex(Sync));
  }

  lemma SlowFetch(cfg: Config, before: Duration, took: Duration, s: State, b: Branch)
    requires s.git.tick == PerPush(cfg)
    ensures var t := FetchThenPush(cfg, Slow(cfg, before, took), s, b);
            t.git.now == s.git.now + 4.0 * (before + took) && |t.git.trace| == |s.git.trace| + 4
  {
    hide Execute, Answer, Accepts, Effect;
    var w := Slow(cfg, before, took);
    assert Accepts(s.git.repo, Fetch) by { FetchIsAccepted(s.git.repo); }
    SlowAsk(cfg, before, took, s.git, Fetch);
    var t := s.(git := Ask(w, s.git, Fetch).git);
    FailingAsk(cfg, before, took, t.git, Command.Rebase(b));
    var u := t.(git := Ask(w, t.git, Command.Rebase(b)).git);
    FailingAsk(cfg, before, took, u.git, Abort);
    var v := u.(git := Ask(w, u.git, Abort).git);
    FailingAsk(cfg, before, took, v.git, Push(b));
  }

  lemma FetchIsAccepted(r: Repo)
    ensures Accepts(r, Fetch)
  {
  }

  lemma SlowPush(cfg: Config, before: Duration, took: Duration, s: State)
    requires Attempts(cfg, s) && s.git.tick == 4
    requires s.git.repo.head == On("main") && "main" in s.git.repo.branches
    ensures var t := MaybePush(cfg, Slow(cfg, before, took), s);
            && t.git.now == s.git.now + PerPush(cfg) as real * (before + took)
            && |t.git.trace| == |s.git.trace| + PerPush(cfg)
  {
    hide Execute, Answer, FetchThenPush, Effect;
    if cfg.branch != "" {
      SlowFetch(cfg, before, took, s, cfg.branch);
    } else {
      SlowAsk(cfg, before, took, s.git, CurrentBranch);
      assert Effect(s.git.repo, CurrentBranch) == s.git.repo by { AskingChangesNothing(s.git.repo); }
      var t := s.(git := Ask(Slow(cfg, before, took), s.git, CurrentBranch).git);
      SlowFetch(cfg, before, took, t, "main");
    }
  }

  lemma AskingChangesNothing(r: Repo)
    requires Accepts(r, CurrentBranch)
    ensures Effect(r, CurrentBranch) == r
  {
  }

  /** Under every configuration with a remote, and whatever a command and the work before it can take,
      some turn of the worker, with a commit already unpushed, is as long as `TurnsAreShort` allows:
      eight or nine commands, each using its whole slot, after a full debounce window. */
  lemma LongestTurnHappens(cfg: Config, before: Duration, took: Duration)
    returns (w: Oracle, s: State, turn: Turn)
    requires cfg.remote
    ensures s.unpushed && turn.Got? && turn.wait <= cfg.debounce
    ensures forall n :: w(n).before == before && w(n).took == took
    ensures var t, n := LoopTurn(cfg, w, s, turn), PER_EVENT + PerPush(cfg);
            && |t.git.trace| == |s.git.trace| + n
            && t.git.now == s.git.now + cfg.debounce + n as real * (before + took)
  {
    hide HandleEvent, MaybePush;
    w, s, turn := Slow(cfg, before, took), Busy(cfg), Got(SyncSweep("timer"), cfg.debounce);
    var h := HandleEvent(w, Wait(s, cfg.debounce), turn.event);
    SlowEvent(cfg, before, took, Wait(s, cfg.debounce));
    assert Overdue(cfg, h);
    SlowPush(cfg, before, took, h);
  }

  // ---- Two threads -----------------------------------------------------------------------

  /** Timeout of a git command, longest other work before one, debounce window, the budget `stop`
      gives `join`, and the commands a push cycle can issue. */
  datatype Params = Params(timeout: Duration, pause: Duration, debounce: Duration, join: Duration, push: nat) {
    function Slot(): Duration { pause + timeout }

    function PerTurn(): nat { PER_EVENT + push }

    function LongestTurn(): Duration { debounce + Total(PerTurn(), Slot()) }
  }

  /** `left` bounds the commands the current turn may still issue. */
  datatype WorkerPc =
    | Head | InGet(deadline: real) | Between(left: nat)
    | Preparing(deadline: real, left: nat) | InCommand(deadline: real, left: nat) | Exited

  datatype StopperPc = Serving | Joining(deadline: real) | Flushing(left: nat) | FlushCommand(deadline: real, left: nat) | Finished

  /** `expired` records that `join` gave up on a live worker. */
  datatype Threads = Threads(now: real, stop: bool, worker: WorkerPc, stopper: StopperPc, expired: bool)

  predicate Start(c: Threads) {
    c.now == 0.0 && !c.stop && c.worker == WorkerPc.Head && c.stopper == Serving && !c.expired
  }

  /** One step of the worker thread. */
  predicate WorkerStep(p: Params, c: Threads, d: Threads) {
    && d == c.(worker := d.worker)
    && match c.worker
       case Head => d.worker == if c.stop then Exited else InGet(c.now + p.debounce)
       case InGet(deadline) =>
         d.worker == Between(p.PerTurn()) || (c.now == deadline && d.worker == Between(p.push))
       case Between(left) =>
         d.worker == WorkerPc.Head || (left > 0 && d.worker == Preparing(c.now + p.pause, left - 1))
       case Preparing(_, left) => d.worker == InCommand(c.now + p.timeout, left)
       case InCommand(_, left) => d.worker == Between(left)
       case Exited => false
  }

  /** One step of the stopping thread: set the flag, join, flush. */
  predicate StopperStep(p: Params, c: Threads, d: Threads) {
    match c.stopper
    case Serving => d == c.(stop := true, stopper := Joining(c.now + p.join))
    case Joining(deadline) =>
      || (c.worker.Exited? && d == c.(stopper := Flushing(p.push)))
      || (!c.worker.Exited? && c.now == deadline && d == c.(stopper := Flushing(p.push), expired := true))
    case Flushing(left) =>
      || d == c.(stopper := Finished)
      || (left > 0 && d == c.(stopper := FlushCommand(c.now + p.timeout, left - 1)))
    case FlushCommand(_, left) => d == c.(stopper := Flushing(left))
    case Finished => false
  }

  predicate Timed(w: WorkerPc) { w.InGet? || w.Preparing? || w.InCommand? }

  /** Time passes only while the worker waits or works, and never past what a thread waits for. */
  predicate TimeStep(c: Threads, d: Threads) {
    && c.now <= d.now && d == c.(now := d.now)
    && (Timed(c.worker) || c.worker.Exited?)
    && (Timed(c.worker) ==> d.now <= c.worker.deadline)
    && (c.stopper.Joining? || c.stopper.FlushCommand? ==> d.now <= c.stopper.deadline)
  }

  predicate Next(p: Params, c: Threads, d: Threads) {
    WorkerStep(p, c, d) || StopperStep(p, c, d) || TimeStep(c, d)
  }

  predicate IsRun(p: Params, run: seq<Threads>) {
    && |run| > 0 && Start(run[0])
    && forall i | 0 < i < |run| :: Next(p, run[i - 1], run[i])
  }

  /** Both threads are inside a git command. */
  predicate Overlap(c: Threads) {
    c.worker.InCommand? && c.stopper.FlushCommand?
  }

  // ---- Safety ----------------------------------------------------------------------------

  /** The longest the worker can take to leave its loop once the flag is set. */
  function Residual(p: Params, c: Threads): real {
    match c.worker
    case Head | Exited => 0.0
    case InGet(deadline) => deadline - c.now + Total(p.PerTurn(), p.Slot())
    case Between(left) => Total(left, p.Slot())
    case Preparing(deadline, left) => deadline - c.now + p.timeout + Total(left, p.Slot())
    case InCommand(deadline, left) => deadline - c.now + Total(left, p.Slot())
  }

  predicate Inv(p: Params, c: Threads) {
    && (c.worker.InGet? ==> c.now <= c.worker.deadline <= c.now + p.debounce)
    && (c.worker.Between? ==> c.worker.left <= p.PerTurn())
    && (c.worker.Preparing? ==> c.now <= c.worker.deadline <= c.now + p.pause && c.worker.left < p.PerTurn())
    && (c.worker.InCommand? ==> c.now <= c.worker.deadline <= c.now + p.timeout && c.worker.left < p.PerTurn())
    && (c.stopper.Serving? <==> !c.stop)
    && (c.stopper.Joining? && !c.worker.Exited? ==> c.now + Residual(p, c) <= c.stopper.deadline - p.join + p.LongestTurn())
    && (c.stopper.Serving? || c.stopper.Joining? ==> !c.expired)
    && (c.stopper.Flushing? ==> c.stopper.left <= p.push)
    && (c.stopper.FlushCommand? ==> c.stopper.left < p.push)
    && (c.worker.Exited? ==> c.stop)
    && (c.stop && !c.stopper.Joining? && !c.expired ==> c.worker.Exited?)
    && (c.expired ==> p.join <= p.LongestTurn())
  }

  lemma StepKeepsInv(p: Params, c: Threads, d: Threads)
    requires Inv(p, c) && Next(p, c, d)
    ensures Inv(p, d)
  {
    if WorkerStep(p, c, d) {
      WorkerKeepsInv(p, c, d);
    } else if StopperStep(p, c, d) {
      ResidualIsBounded(p, c);
    }
  }

  lemma ResidualIsBounded(p: Params, c: Threads)
    requires Inv(p, c)
    ensures 0.0 <= Residual(p, c) <= p.LongestTurn()
  {
    if c.worker.Between? || c.worker.Preparing? || c.worker.InCommand? {
      Scales(c.worker.left, p.PerTurn(), p.Slot());
    }
  }

  lemma WorkerKeepsInv(p: Params, c: Threads, d: Threads)
    requires Inv(p, c) && WorkerStep(p, c, d)
    ensures Inv(p, d)
  {
    Scales(p.push, p.PerTurn(), p.Slot());
    assert c.stop ==> Residual(p, d) <= Residual(p, c);
  }

  lemma {:induction false} RunKeepsInv(p: Params, run: seq<Threads>, i: nat)
    requires IsRun(p, run) && i < |run|
    ensures Inv(p, run[i])
    decreases i
  {
    if i > 0 {
      RunKeepsInv(p, run, i - 1);
      StepKeepsInv(p, run[i - 1], run[i]);
    }
  }

  /** In every interleaving, two threads are inside git at once only after `join` gave up, and
      that cannot happen when its budget covers the longest turn. */
  lemma OverlapOnlyAfterExpiry(p: Params, run: seq<Threads>, i: nat)
    requires IsRun(p, run) && i < |run| && Overlap(run[i])
    ensures run[i].expired && p.join <= p.LongestTurn() && p.push > 0
  {
    RunKeepsInv(p, run, i);
  }

  /** Without expiry the worker is gone by the time the flush begins. */
  lemma FlushIsAlone(p: Params, run: seq<Threads>, i: nat)
    requires IsRun(p, run) && i < |run| && !run[i].expired
    requires run[i].stopper.Flushing? || run[i].stopper.FlushCommand? || run[i].stopper.Finished?
    ensures run[i].worker.Exited?
  {
    RunKeepsInv(p, run, i);
  }

  // ---- The budget the code gives is not enough -------------------------------------------

  lemma Extend(p: Params, run: seq<Threads>, d: Threads) returns (longer: seq<Threads>)
    requires IsRun(p, run) && Next(p, run[|run| - 1], d)
    ensures IsRun(p, longer) && longer[|longer| - 1] == d
  {
    longer := run + [d];
  }

  /** At its deadline `join` gives up and the flush issues a command. */
  lemma Expire(p: Params, run: seq<Threads>) returns (longer: seq<Threads>)
    requires IsRun(p, run) && p.push > 0
    requires var c := run[|run| - 1]; c.stopper == Joining(c.now) && !c.worker.Exited?
    ensures IsRun(p, longer)
    ensures var c, d := run[|run| - 1], longer[|longer| - 1]; d.worker == c.worker && d.now == c.now && d.stopper.FlushCommand?
  {
    var c := run[|run| - 1];
    longer := Extend(p, run, c.(stopper := Flushing(p.push), expired := true));
    longer := Extend(p, longer, longer[|longer| - 1].(stopper := FlushCommand(c.now + p.timeout, p.push - 1)));
  }

  /** From a turn under way, commands that each use their whole slot reach past the deadline. */
  lemma {:induction false} KeepBusy(p: Params, run: seq<Threads>) returns (longer: seq<Threads>)
    requires IsRun(p, run) && p.push > 0
    requires var c := run[|run| - 1];
             && c.worker.Between? && c.stopper.Joining?
             && c.worker.left > 0
             && c.now <= c.stopper.deadline <= c.now + Total(c.worker.left, p.Slot())
    ensures IsRun(p, longer) && Overlap(longer[|longer| - 1])
    decreases run[|run| - 1].worker.left
  {
    var c := run[|run| - 1];
    var left, due := c.worker.left - 1, c.stopper.deadline;
    var d := c.(worker := Preparing(c.now + p.pause, left));
    longer := Extend(p, run, d);
    if due <= c.now + p.pause {
      longer := Extend(p, longer, d.(now := due));
      longer := Expire(p, longer);
      longer := Extend(p, longer, longer[|longer| - 1].(worker := InCommand(due + p.timeout, left)));
    } else {
      d := d.(now := c.now + p.pause);
      longer := Extend(p, longer, d);
      d := d.(worker := InCommand(d.now + p.timeout, left));
      longer := Extend(p, longer, d);
      if due <= d.now + p.timeout {
        longer := Extend(p, longer, d.(now := due));
        longer := Expire(p, longer);
      } else {
        d := d.(now := d.now + p.timeout);
        longer := Extend(p, longer, d);
        longer := Extend(p, longer, d.(worker := Between(left)));
        longer := KeepBusy(p, longer);
      }
    }
  }

  /** Whenever the budget does not exceed the longest turn, some run in which every command obeys
      its timeout has both threads inside git. */
  lemma OverlapIsReachable(p: Params) returns (run: seq<Threads>)
    requires p.push > 0 && p.join <= p.LongestTurn()
    ensures IsRun(p, run) && Overlap(run[|run| - 1])
  {
    var c := Threads(0.0, false, WorkerPc.Head, Serving, false);
    run := [c];
    run := Extend(p, run, c.(worker := InGet(0.0 + p.debounce)));
    c := run[|run| - 1];
    run := Extend(p, run, c.(stop := true, stopper := Joining(0.0 + p.join)));
    c := run[|run| - 1];
    var wait := if p.join < p.debounce then p.join else p.debounce;
    run := Extend(p, run, c.(now := wait));
    c := run[|run| - 1];
    run := Extend(p, run, c.(worker := Between(p.PerTurn())));
    run := KeepBusy(p, run);
  }

  /** Two threads can be inside git at once exactly when there is a remote and the join budget does
      not exceed the longest turn of the loop. */
  lemma OverlapExactly(p: Params)
    ensures (exists run: seq<Threads> :: IsRun(p, run) && Overlap(run[|run| - 1]))
            <==> p.push > 0 && p.join <= p.LongestTurn()
  {
    if p.push > 0 && p.join <= p.LongestTurn() {
      var run := OverlapIsReachable(p);
    }
    forall run: seq<Threads> | IsRun(p, run) && Overlap(run[|run| - 1])
      ensures p.push > 0 && p.join <= p.LongestTurn()
    {
      OverlapOnlyAfterExpiry(p, run, |run| - 1);
    }
  }

  /** What `stop` does: join for the timeout plus five seconds. */
  function CodeParams(cfg: Config, timeout: Duration, pause: Duration): Params {
    Params(timeout, pause, cfg.debounce, timeout + 5.0, PerPush(cfg))
  }

  /** With a remote and the budget the code gives, both threads can be inside git exactly when five
      seconds do not exceed the rest of the longest turn: always, for a timeout of a second or more. */
  lemma CodeBudgetAllowsOverlap(cfg: Config, timeout: Duration, pause: Duration)
    requires cfg.remote
    ensures var p := CodeParams(cfg, timeout, pause);
            var overlaps := exists run: seq<Threads> :: IsRun(p, run) && Overlap(run[|run| - 1]);
            && (overlaps <==>
                  5.0 <= cfg.debounce + (PER_EVENT + PerPush(cfg)) as real * pause
                         + (PER_EVENT + PerPush(cfg) - 1) as real * timeout)
            && (timeout >= 1.0 ==> overlaps)
  {
    var p := CodeParams(cfg, timeout, pause);
    OverlapExactly(p);
    TotalIsProduct(p.PerTurn(), p.Slot());
  }
}
