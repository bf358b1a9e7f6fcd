/** How long a commit can wait for a push attempt. */
module Latency {
  import opened Trees
  import opened Repository
  import opened Machine
  import opened Safety

  /** Every git command ends within the timeout `T` and is issued within `S` of the step before it,
      stamping and logging included. */
  ghost predicate Bounded(w: Oracle, S: Duration, T: Duration) {
    forall n :: w(n).before <= S && w(n).took <= T
  }

  /** `get` returns an event within the debounce window or not at all. */
  predicate Timely(cfg: Config, turns: seq<Turn>) {
    forall t | t in turns && t.Got? :: t.wait <= cfg.debounce
  }

  /** The trace beyond its first `n` commands shows a push cycle beginning by `deadline`. */
  predicate AttemptedBy(trace: seq<Entry>, n: nat, deadline: real) {
    exists i | n <= i < |trace| :: (trace[i].command.Fetch? || trace[i].command.CurrentBranch?) && trace[i].issued <= deadline
  }

  lemma {:induction false} RunFromFirst(cfg: Config, w: Oracle, s: State, turns: seq<Turn>)
    requires turns != []
    ensures Run(cfg, w, s, turns) == Run(cfg, w, LoopTurn(cfg, w, s, turns[0]), turns[1..])
    decreases |turns|
  {
    hide LoopTurn;
    var n := |turns| - 1;
    if n > 0 {
      RunFromFirst(cfg, w, s, turns[..n]);
      assert turns[..n][1..] == turns[1..][..n - 1];
    } else {
      assert turns[..n] == [];
    }
  }

  lemma CommitTakes(w: Oracle, s: State, tag: Tag, S: Duration, T: Duration)
    requires Bounded(w, S, T)
    ensures var h := CommitChecked(w, s, tag);
            h.git.now <= s.git.now + 2.0 * (S + T) && h.lastPush == s.lastPush && (s.unpushed ==> h.unpushed)
  {
    hide Execute, Answer;
  }

  /** Handling an event issues at most four commands, leaves the push clock alone and forgets no
      unpushed commit. */
  lemma HandlingTakes(w: Oracle, s: State, e: SyncEvent, S: Duration, T: Duration)
    requires Bounded(w, S, T)
    ensures var h := HandleEvent(w, s, e);
            h.git.now <= s.git.now + 4.0 * (S + T) && h.lastPush == s.lastPush && (s.unpushed ==> h.unpushed)
  {
    hide Execute, Answer, CommitChecked;
    var stage, tag := StageOf(e), TagOf(e);
    CommitTakes(w, s.(git := Ask(w, Ask(w, s.git, stage).git, Diff).git), tag, S, T);
  }

  /** Getting past the guard of `_maybe_push` begins a push cycle within `S`. */
  lemma AttemptBegins(cfg: Config, w: Oracle, s: State, S: Duration, T: Duration)
    requires Attempts(cfg, s) && Bounded(w, S, T)
    ensures var t := MaybePush(cfg, w, s).git.trace;
            && s.git.trace < t
            && (t[|s.git.trace|].command.Fetch? || t[|s.git.trace|].command.CurrentBranch?)
            && s.git.now <= t[|s.git.trace|].issued <= s.git.now + S
  {
    hide Execute, Answer;
    if cfg.branch != "" {
      FetchBegins(cfg, w, s, cfg.branch, S, T);
    } else {
      var t := s.(git := Ask(w, s.git, CurrentBranch).git);
      FetchBegins(cfg, w, t, HeadName(t.git.repo), S, T);
    }
  }

  lemma FetchBegins(cfg: Config, w: Oracle, s: State, b: Branch, S: Duration, T: Duration)
    requires Bounded(w, S, T)
    ensures var t := FetchThenPush(cfg, w, s, b).git.trace;
            s.git.trace < t && t[|s.git.trace|].command.Fetch? && s.git.now <= t[|s.git.trace|].issued <= s.git.now + S
  {
    var f := s.(git := Ask(w, s.git, Fetch).git);
    assert f.git.trace[|s.git.trace|].command.Fetch? && s.git.now <= f.git.trace[|s.git.trace|].issued <= s.git.now + S;
    assert f.git.trace <= FetchThenPush(cfg, w, s, b).git.trace by {
      hide Execute, Answer, RemoteExtends;
      RebaseThenPushGrows(cfg, w, f, b);
      DeliverGrows(cfg, w, f, b);
    }
  }

  /** After a quiet debounce window, whatever the health, an unpushed commit gets its push attempt at
      once: not before the window is over, and within `S` of its end. */
  lemma QuietQueuePushes(cfg: Config, w: Oracle, s: State, S: Duration, T: Duration)
    requires Attempts(cfg, s) && Bounded(w, S, T)
    ensures var t := LoopTurn(cfg, w, s, Quiet).git.trace;
            && s.git.trace < t
            && (t[|s.git.trace|].command.Fetch? || t[|s.git.trace|].command.CurrentBranch?)
            && s.git.now + cfg.debounce <= t[|s.git.trace|].issued <= s.git.now + cfg.debounce + S
  {
    hide PushOnce;
    AttemptBegins(cfg, w, Wait(s, cfg.debounce), S, T);
  }

  /** From a waiting commit on a worker that is not overdue: either a push cycle begins in time, or
      the run has not outlived the interval. */
  lemma {:induction false} WaitingIsBounded(cfg: Config, w: Oracle, s: State, turns: seq<Turn>, S: Duration, T: Duration)
    requires Bounded(w, S, T) && Timely(cfg, turns)
    requires Attempts(cfg, s) && !Overdue(cfg, s)
    ensures var t := Run(cfg, w, s, turns);
            var due := s.lastPush + cfg.maxInterval;
            && s.git.trace <= t.git.trace
            && (t.git.now < due || AttemptedBy(t.git.trace, |s.git.trace|, due + cfg.debounce + 4.0 * (S + T) + S))
    decreases |turns|
  {
    hide HandleEvent, PushOnce, RemoteExtends;
    RemoteIsNeverOverwritten(cfg, w, s, turns);
    if turns != [] {
      RunFromFirst(cfg, w, s, turns);
      assert turns[0] in turns;
      var u := LoopTurn(cfg, w, s, turns[0]);
      RemoteIsNeverOverwritten(cfg, w, u, turns[1..]);
      var t := Run(cfg, w, u, turns[1..]);
      match turns[0] {
        case Quiet =>
          AttemptBegins(cfg, w, Wait(s, cfg.debounce), S, T);
          assert t.git.trace[|s.git.trace|] == u.git.trace[|s.git.trace|];
        case Got(e, wait) =>
          var h := HandleEvent(w, Wait(s, wait), e);
          HandlingTakes(w, Wait(s, wait), e, S, T);
          HandleEventGrows(w, Wait(s, wait), e);
          if Overdue(cfg, h) {
            AttemptBegins(cfg, w, h, S, T);
            assert t.git.trace[|h.git.trace|] == u.git.trace[|h.git.trace|];
          } else {
            WaitingIsBounded(cfg, w, h, turns[1..], S, T);
          }
      }
    }
  }

  /** However the queue is fed: when handling an event leaves something unpushed at time `c`, with
      `L` the last successful push, a push cycle begins no later than
      `max(c, L + M) + D + 4(S + T) + S`, `T` being the timeout of a git command and `S` the longest
      other work before one; a run without a push cycle has not lasted that long. */
  lemma PushLatencyIsBounded(cfg: Config, w: Oracle, s: State, e: SyncEvent, wait: Duration, turns: seq<Turn>, S: Duration, T: Duration)
    requires Bounded(w, S, T) && Timely(cfg, turns)
    requires Attempts(cfg, HandleEvent(w, Wait(s, wait), e))
    ensures var h := HandleEvent(w, Wait(s, wait), e);
            var t := Run(cfg, w, s, [Got(e, wait)] + turns);
            var due := h.lastPush + cfg.maxInterval;
            var deadline := (if h.git.now <= due then due else h.git.now) + cfg.debounce + 4.0 * (S + T) + S;
            h.git.trace <= t.git.trace && (t.git.now <= deadline || AttemptedBy(t.git.trace, |h.git.trace|, deadline))
  {
    hide HandleEvent, PushOnce, RemoteExtends;
    var h := HandleEvent(w, Wait(s, wait), e);
    var all := [Got(e, wait)] + turns;
    assert all[0] == Got(e, wait) && all[1..] == turns;
    RunFromFirst(cfg, w, s, all);
    var u := LoopTurn(cfg, w, s, all[0]);
    if Overdue(cfg, h) {
      AttemptBegins(cfg, w, h, S, T);
      RemoteIsNeverOverwritten(cfg, w, u, turns);
      assert Run(cfg, w, u, turns).git.trace[|h.git.trace|] == u.git.trace[|h.git.trace|];
    } else {
      WaitingIsBounded(cfg, w, h, turns, S, T);
    }
  }
}
