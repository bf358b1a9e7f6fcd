/** Cycle health and its log lines, as a function of nothing but the commands issued. */
module Health {
  import opened Options
  import opened Trees
  import opened Repository
  import opened Machine

  /** The outcome of a cycle: clean, or failed with a code. */
  type Decision = Option<Code>

  /** What one command settles about the cycle it belongs to, if anything. */
  function Decides(e: Entry): Option<Decision> {
    match (e.command, e.reply)
    case (Add(_), TimedOut) => Some(Some(Timeout))
    case (AddAll, TimedOut) => Some(Some(Timeout))
    case (Diff, TimedOut) => Some(Some(Timeout))
    case (CommitIndex(_), TimedOut) => Some(Some(Timeout))
    case (Add(_), Returned(rc)) => if rc == 0 then None else Some(Some(Rc(rc)))
    case (AddAll, Returned(rc)) => if rc == 0 then None else Some(Some(Rc(rc)))
    case (Diff, Returned(rc)) => if rc == 0 then Some(None) else None
    case (CommitIndex(_), Returned(rc)) => if rc == 0 then Some(None) else Some(Some(Rc(rc)))
    case _ => None
  }

  function Decisions(trace: seq<Entry>): seq<Decision> {
    if trace == [] then []
    else
      var d := Decides(trace[|trace| - 1]);
      var ds := Decisions(trace[..|trace| - 1]);
      if d.Some? then ds + [d.value] else ds
  }

  function Last(ds: seq<Decision>): Decision {
    if ds == [] then None else ds[|ds| - 1]
  }

  /** The line an outcome deserves: a warning when a failure differs from what came before it, a
      debug line when it repeats it, an info line on recovery. */
  function LineFor(prior: Decision, d: Decision): Option<Line> {
    match d
    case Some(code) => Some(if prior == d then Debug(code) else Warning(code, prior == None))
    case None => if prior.Some? then Some(Info(prior.value)) else None
  }

  function LinesFor(ds: seq<Decision>): seq<Line> {
    if ds == [] then []
    else
      var init := ds[..|ds| - 1];
      var line := LineFor(Last(init), ds[|ds| - 1]);
      if line.Some? then LinesFor(init) + [line.value] else LinesFor(init)
  }

  /** `degraded` is the last outcome, and the log is the one the outcomes deserve. */
  predicate Chronicled(s: State) {
    && s.degraded == Last(Decisions(s.git.trace))
    && s.lines == LinesFor(Decisions(s.git.trace))
  }

  /** One more command adds its decision, if it makes one. */
  lemma AskDecides(w: Oracle, g: Git, c: Command)
    ensures var a := Ask(w, g, c);
            var e := Entry(c, a.reply, a.git.repo.stopped.Some?, g.now, a.git.now);
            Decisions(a.git.trace)
              == if Decides(e).Some? then Decisions(g.trace) + [Decides(e).value] else Decisions(g.trace)
  {
    var a := Ask(w, g, c);
    assert a.git.trace[..|a.git.trace| - 1] == g.trace;
  }

  lemma DecisionIsRecorded(s: State, ds: seq<Decision>, d: Decision)
    requires s.degraded == Last(ds) && s.lines == LinesFor(ds)
    ensures var t := if d.Some? then RecordFailure(s, d.value) else RecordClean(s);
            t.degraded == Last(ds + [d]) && t.lines == LinesFor(ds + [d])
  {
    assert (ds + [d])[..|ds|] == ds;
  }

  lemma CommitNowIsChronicled(w: Oracle, s: State, tag: Tag)
    requires Chronicled(s)
    ensures Chronicled(CommitNow(w, s, tag))
  {
    var ds := Decisions(s.git.trace);
    AskDecides(w, s.git, CommitIndex(tag));
    var a := Ask(w, s.git, CommitIndex(tag));
    match a.reply {
      case Raised =>
      case TimedOut => DecisionIsRecorded(s, ds, Some(Timeout));
      case Returned(rc) => DecisionIsRecorded(s, ds, if rc == 0 then None else Some(Rc(rc)));
    }
  }

  lemma CommitCheckedIsChronicled(w: Oracle, s: State, tag: Tag)
    requires Chronicled(s)
    ensures Chronicled(CommitChecked(w, s, tag))
  {
    AskDecides(w, s.git, Diff);
    var a := Ask(w, s.git, Diff);
    var t := s.(git := a.git);
    match a.reply {
      case Raised =>
      case TimedOut => DecisionIsRecorded(s, Decisions(s.git.trace), Some(Timeout));
      case Returned(rc) =>
        if rc == 0 { DecisionIsRecorded(s, Decisions(s.git.trace), None); } else { CommitNowIsChronicled(w, t, tag); }
    }
  }

  lemma CommitIfStagedIsChronicled(w: Oracle, s: State, tag: Tag)
    requires Chronicled(s)
    ensures Chronicled(CommitIfStaged(w, s, tag))
  {
    AskDecides(w, s.git, Diff);
    var a := Ask(w, s.git, Diff);
    var t := s.(git := a.git);
    match a.reply {
      case Raised =>
      case TimedOut => DecisionIsRecorded(s, Decisions(s.git.trace), Some(Timeout));
      case Returned(rc) =>
        if rc == 0 { DecisionIsRecorded(s, Decisions(s.git.trace), None); } else { CommitCheckedIsChronicled(w, t, tag); }
    }
  }

  lemma HandleEventIsChronicled(w: Oracle, s: State, e: SyncEvent)
    requires Chronicled(s)
    ensures Chronicled(HandleEvent(w, s, e))
  {
    hide Execute, Answer, CommitIfStaged, LinesFor, Decisions, Last;
    var stage, tag := StageOf(e), TagOf(e);
    AskDecides(w, s.git, stage);
    var a := Ask(w, s.git, stage);
    var t := s.(git := a.git);
    match a.reply {
      case Raised =>
      case TimedOut => DecisionIsRecorded(s, Decisions(s.git.trace), Some(Timeout));
      case Returned(rc) =>
        if rc != 0 { DecisionIsRecorded(s, Decisions(s.git.trace), Some(Rc(rc))); }
        else { CommitIfStagedIsChronicled(w, t, tag); }
    }
  }

  // Push commands decide nothing, so a push cycle leaves the health alone.

  lemma DeliverIsChronicled(cfg: Config, w: Oracle, s: State, b: Branch)
    requires Chronicled(s)
    ensures Chronicled(Deliver(cfg, w, s, b))
  {
    AskDecides(w, s.git, Push(b));
  }

  lemma RebaseThenPushIsChronicled(cfg: Config, w: Oracle, s: State, b: Branch)
    requires Chronicled(s)
    ensures Chronicled(RebaseThenPush(cfg, w, s, b))
  {
    AskDecides(w, s.git, Command.Rebase(b));
    var t := s.(git := Ask(w, s.git, Command.Rebase(b)).git);
    AskDecides(w, t.git, Abort);
    var u := t.(git := Ask(w, t.git, Abort).git);
    DeliverIsChronicled(cfg, w, t, b);
    DeliverIsChronicled(cfg, w, u, b);
  }

  lemma FetchThenPushIsChronicled(cfg: Config, w: Oracle, s: State, b: Branch)
    requires Chronicled(s)
    ensures Chronicled(FetchThenPush(cfg, w, s, b))
  {
    AskDecides(w, s.git, Fetch);
    var t := s.(git := Ask(w, s.git, Fetch).git);
    RebaseThenPushIsChronicled(cfg, w, t, b);
    DeliverIsChronicled(cfg, w, t, b);
  }

  lemma MaybePushIsChronicled(cfg: Config, w: Oracle, s: State)
    requires Chronicled(s)
    ensures Chronicled(MaybePush(cfg, w, s))
  {
    AskDecides(w, s.git, CurrentBranch);
    var t := s.(git := Ask(w, s.git, CurrentBranch).git);
    FetchThenPushIsChronicled(cfg, w, s, cfg.branch);
    FetchThenPushIsChronicled(cfg, w, t, HeadName(t.git.repo));
  }

  /** After any run `degraded` is the last outcome among the commands issued, whatever pushes, empty
      writes and idle waits came between, and the log is exactly the one those outcomes deserve. */
  lemma {:induction false} HealthIsLastOutcome(cfg: Config, w: Oracle, repo: Repo, now: real, turns: seq<Turn>)
    ensures Chronicled(Run(cfg, w, Fresh(repo, now), turns))
    decreases |turns|
  {
    if turns != [] {
      var n := |turns| - 1;
      HealthIsLastOutcome(cfg, w, repo, now, turns[..n]);
      var s := Run(cfg, w, Fresh(repo, now), turns[..n]);
      match turns[n] {
        case Quiet => MaybePushIsChronicled(cfg, w, Wait(s, cfg.debounce));
        case Got(e, wait) =>
          HandleEventIsChronicled(w, Wait(s, wait), e);
          MaybePushIsChronicled(cfg, w, HandleEvent(w, Wait(s, wait), e));
      }
    }
  }

  // ---- Counting the log ------------------------------------------------------------------

  function Warnings(lines: seq<Line>): nat {
    if lines == [] then 0
    else Warnings(lines[..|lines| - 1]) + if lines[|lines| - 1].Warning? then 1 else 0
  }

  function Entries(lines: seq<Line>): nat {
    if lines == [] then 0
    else Entries(lines[..|lines| - 1]) +
         if lines[|lines| - 1].Warning? && lines[|lines| - 1].entering then 1 else 0
  }

  function Recoveries(lines: seq<Line>): nat {
    if lines == [] then 0
    else Recoveries(lines[..|lines| - 1]) + if lines[|lines| - 1].Info? then 1 else 0
  }

  /** Where a maximal run of equal failure codes begins. */
  predicate StartsRun(ds: seq<Decision>, i: nat)
    requires i < |ds|
  {
    ds[i].Some? && (i == 0 || ds[i - 1] != ds[i])
  }

  function RunStarts(ds: seq<Decision>): set<nat> {
    set i | 0 <= i < |ds| && StartsRun(ds, i)
  }

  lemma RunStartsExtend(ds: seq<Decision>, d: Decision)
    ensures |RunStarts(ds + [d])| == |RunStarts(ds)| + if StartsRun(ds + [d], |ds|) then 1 else 0
  {
    var k := ds + [d];
    forall i: nat ensures i in RunStarts(k) <==> i in RunStarts(ds) || (i == |ds| && StartsRun(k, i)) {
      if i < |ds| {
        assert k[i] == ds[i];
      }
    }
    if StartsRun(k, |ds|) {
      assert RunStarts(k) == RunStarts(ds) + {|ds|};
    } else {
      assert RunStarts(k) == RunStarts(ds);
    }
  }

  lemma CountLine(lines: seq<Line>, l: Line)
    ensures Warnings(lines + [l]) == Warnings(lines) + if l.Warning? then 1 else 0
    ensures Entries(lines + [l]) == Entries(lines) + if l.Warning? && l.entering then 1 else 0
    ensures Recoveries(lines + [l]) == Recoveries(lines) + if l.Info? then 1 else 0
  {
    assert (lines + [l])[..|lines|] == lines;
  }

  /** One warning per maximal run of equal failure codes; and each streak that opened has either
      been closed by exactly one recovery line or is the one still open. */
  lemma {:induction false} LogCounts(ds: seq<Decision>)
    ensures Warnings(LinesFor(ds)) == |RunStarts(ds)|
    ensures Entries(LinesFor(ds)) == Recoveries(LinesFor(ds)) + if Last(ds).Some? then 1 else 0
    decreases |ds|
  {
    if ds == [] {
      assert RunStarts(ds) == {};
    } else {
      var init, d := ds[..|ds| - 1], ds[|ds| - 1];
      assert ds == init + [d];
      LogCounts(init);
      RunStartsExtend(init, d);
      var line := LineFor(Last(init), d);
      if line.Some? {
        CountLine(LinesFor(init), line.value);
      }
    }
  }
}
