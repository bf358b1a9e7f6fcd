/** Stale git locks: telling whether git runs, and the startup sweep. */
module Locks {
  import opened Options

  const STALE_AFTER := 240.0

  datatype Lock = Lock(name: string, age: real)

  /** A process as the scan sees it; its name is None when it cannot be read. */
  datatype Proc = Proc(pid: nat, comm: Option<string>)

  datatype Reason = CannotInspect | GitIsRunning | TooYoung

  /** One warning per lock. */
  datatype Notice = Left(lock: Lock, reason: Reason) | CouldNotRemove(lock: Lock) | Removed(lock: Lock)

  /** Modification times by path relative to the git directory. */
  type Files = map<string, real>

  predicate Distinct(names: seq<string>) {
    forall i, j | 0 <= i < j < |names| :: names[i] != names[j]
  }

  /** Names `*.lock` directly in the git directory or anywhere under `refs/`. */
  predicate IsLock(name: string) {
    && |name| >= 5 && name[|name| - 5..] == ".lock"
    && ('/' in name ==> |name| > 5 && name[..5] == "refs/")
  }

  /** A listing of the locks among the files seen, each once, in some order. */
  predicate Globbed(listed: seq<string>, seen: Files) {
    && Distinct(listed)
    && (forall n | n in listed :: n in seen && IsLock(n))
    && (forall n | n in seen && IsLock(n) :: n in listed)
  }

  /** The listed files still there, with their ages; one that vanished meanwhile is skipped. */
  function LocksIn(listed: seq<string>, files: Files, now: real): (locks: seq<Lock>)
    ensures forall l | l in locks :: l.name in listed && l.name in files && l.age == now - files[l.name]
    ensures forall n | n in listed && n in files :: Lock(n, now - files[n]) in locks
  {
    if listed == [] then []
    else
      var n := listed[|listed| - 1];
      var rest := LocksIn(listed[..|listed| - 1], files, now);
      if n in files then rest + [Lock(n, now - files[n])] else rest
  }

  /** None: processes cannot be inspected, so git must be presumed to run. */
  function GitSeen(table: Option<seq<Proc>>, own: nat): Option<bool> {
    if table.None? || (forall p | p in table.value :: p.pid == own) then None
    else Some(exists p | p in table.value :: p.pid != own && p.comm == Some("git"))
  }

  /** The scan of the process table; it stops at the first git and skips what it cannot read. */
  method GitRunning(table: Option<seq<Proc>>, own: nat) returns (running: Option<bool>)
    ensures running == GitSeen(table, own)
  {
    if table.None? { return None; }
    var procs, pids, i := table.value, [], 0;
    while i < |procs|
      invariant 0 <= i <= |procs|
      invariant forall p | p in pids :: p in procs && p.pid != own
      invariant forall j | 0 <= j < i && procs[j].pid != own :: procs[j] in pids
    {
      if procs[i].pid != own {
        pids := pids + [procs[i]];
      }
      i := i + 1;
    }
    if pids == [] { return None; }
    assert pids[0] in procs;
    i := 0;
    while i < |pids|
      invariant 0 <= i <= |pids|
      invariant forall j | 0 <= j < i :: pids[j].comm != Some("git")
    {
      if pids[i].comm == Some("git") {
        assert pids[i] in pids;
        return Some(true);
      }
      i := i + 1;
    }
    return Some(false);
  }

  function StaleReason(lock: Lock, running: Option<bool>): Option<Reason> {
    if running.None? then Some(CannotInspect)
    else if running.value then Some(GitIsRunning)
    else if lock.age < STALE_AFTER then Some(TooYoung)
    else None
  }

  function NoticeFor(lock: Lock, running: Option<bool>, stuck: set<string>): Notice {
    var reason := StaleReason(lock, running);
    if reason.Some? then Left(lock, reason.value)
    else if lock.name in stuck then CouldNotRemove(lock)
    else Removed(lock)
  }

  /** The names the sweep takes away. */
  function Doomed(locks: seq<Lock>, running: Option<bool>, stuck: set<string>): set<string> {
    set l | l in locks && NoticeFor(l, running, stuck).Removed? :: l.name
  }

  predicate DistinctLocks(locks: seq<Lock>) {
    forall i, j | 0 <= i < j < |locks| :: locks[i].name != locks[j].name
  }

  lemma {:induction false} LocksAreDistinct(listed: seq<string>, files: Files, now: real)
    requires Distinct(listed)
    ensures DistinctLocks(LocksIn(listed, files, now))
    decreases |listed|
  {
    if listed != [] {
      var init, last := listed[..|listed| - 1], listed[|listed| - 1];
      LocksAreDistinct(init, files, now);
      var rest := LocksIn(init, files, now);
      forall i | 0 <= i < |rest| ensures rest[i].name != last {
        assert rest[i] in rest;
        var j :| 0 <= j < |init| && init[j] == rest[i].name;
        assert listed[j] == init[j];
      }
    }
  }

  lemma NothingDoomedYet(locks: seq<Lock>, running: Option<bool>, stuck: set<string>)
    ensures Doomed(locks[..0], running, stuck) == {}
  {
  }

  /** What looking at one more lock adds to the names taken away. */
  lemma OneMoreLock(locks: seq<Lock>, i: nat, running: Option<bool>, stuck: set<string>)
    requires i < |locks| && DistinctLocks(locks)
    ensures locks[i].name !in Doomed(locks[..i], running, stuck)
    ensures Doomed(locks[..i + 1], running, stuck)
         == Doomed(locks[..i], running, stuck) + if NoticeFor(locks[i], running, stuck).Removed? then {locks[i].name} else {}
  {
    assert locks[..i + 1] == locks[..i] + [locks[i]];
  }

  /** The git directory; unlinking a `stuck` file fails. */
  class GitDir {
    var files: Files
    const stuck: set<string>

    constructor (files: Files, stuck: set<string>)
      ensures this.files == files && this.stuck == stuck
    {
      this.files := files;
      this.stuck := stuck;
    }

    method FindLocks(listed: seq<string>, now: real) returns (locks: seq<Lock>)
      ensures locks == LocksIn(listed, files, now)
    {
      locks := [];
      var i := 0;
      while i < |listed|
        invariant 0 <= i <= |listed|
        invariant locks == LocksIn(listed[..i], files, now)
      {
        assert listed[..i + 1][..i] == listed[..i];
        if listed[i] in files {
          locks := locks + [Lock(listed[i], now - files[listed[i]])];
        }
        i := i + 1;
      }
      assert listed[..i] == listed;
    }

    /** Removes each stale lock; every other file stays, and every lock found is warned about once. */
    method Sweep(listed: seq<string>, now: real, table: Option<seq<Proc>>, own: nat) returns (notices: seq<Notice>)
      requires Distinct(listed)
      modifies this
      ensures var locks := LocksIn(listed, old(files), now);
              var running := GitSeen(table, own);
              && files == old(files) - Doomed(locks, running, stuck)
              && |notices| == |locks|
              && forall i | 0 <= i < |locks| :: notices[i] == NoticeFor(locks[i], running, stuck)
    {
      hide GitSeen, Doomed;
      var locks := FindLocks(listed, now);
      LocksAreDistinct(listed, files, now);
      if locks == [] {
        NothingDoomedYet([], GitSeen(table, own), stuck);
        return [];
      }
      var running := GitRunning(table, own);
      assert forall l | l in locks :: l.name in files;
      notices := RemoveStale(locks, running);
    }

    method RemoveStale(locks: seq<Lock>, running: Option<bool>) returns (notices: seq<Notice>)
      requires DistinctLocks(locks) && forall l | l in locks :: l.name in files
      modifies this
      ensures files == old(files) - Doomed(locks, running, stuck)
      ensures |notices| == |locks|
      ensures forall i | 0 <= i < |locks| :: notices[i] == NoticeFor(locks[i], running, stuck)
    {
      hide Doomed, DistinctLocks;
      notices := [];
      var i := 0;
      NothingDoomedYet(locks, running, stuck);
      while i < |locks|
        invariant 0 <= i <= |locks|
        invariant files == old(files) - Doomed(locks[..i], running, stuck)
        invariant |notices| == i && forall j | 0 <= j < i :: notices[j] == NoticeFor(locks[j], running, stuck)
      {
        OneMoreLock(locks, i, running, stuck);
        var reason := StaleReason(locks[i], running);
        if reason.Some? {
          notices := notices + [Left(locks[i], reason.value)];
        } else if locks[i].name in stuck {
          notices := notices + [CouldNotRemove(locks[i])];
        } else {
          files := files - {locks[i].name};
          notices := notices + [Removed(locks[i])];
        }
        i := i + 1;
      }
      assert locks[..i] == locks;
    }
  }

  /** Exactly which files a sweep takes away, having listed the locks among the files `seen`; a file
      may vanish between the listing and the look at its age. */
  lemma SweepIsExact(
    seen: Files, listed: seq<string>, files: Files, now: real, table: Option<seq<Proc>>, own: nat, stuck: set<string>, n: string)
    requires Globbed(listed, seen)
    ensures n in Doomed(LocksIn(listed, files, now), GitSeen(table, own), stuck) <==>
            && IsLock(n) && n in seen && n in files && n !in stuck
            && now - files[n] >= STALE_AFTER
            && table.Some?
            && (exists p | p in table.value :: p.pid != own)
            && (forall p | p in table.value :: p.pid != own ==> p.comm != Some("git"))
  {
    var locks := LocksIn(listed, files, now);
    if n in listed && n in files {
      assert Lock(n, now - files[n]) in locks;
    }
  }

  /** Each lock found gets the notice that says what became of it and why. */
  lemma NoticesSayWhy(l: Lock, table: Option<seq<Proc>>, own: nat, stuck: set<string>)
    ensures var n := NoticeFor(l, GitSeen(table, own), stuck);
            var unknown := table.None? || forall p | p in table.value :: p.pid == own;
            var git := table.Some? && exists p | p in table.value :: p.pid != own && p.comm == Some("git");
            && (n == Left(l, CannotInspect) <==> unknown)
            && (n == Left(l, GitIsRunning) <==> git)
            && (n == Left(l, TooYoung) <==> !unknown && !git && l.age < 240.0)
            && (n == CouldNotRemove(l) <==> !unknown && !git && l.age >= 240.0 && l.name in stuck)
            && (n == Removed(l) <==> !unknown && !git && l.age >= 240.0 && l.name !in stuck)
  {
  }

  /** The locks found are in the order of the listing. */
  lemma {:induction false} FoundInOrder(listed: seq<string>, files: Files, now: real, i: nat, j: nat)
    requires i < j < |LocksIn(listed, files, now)|
    ensures var locks := LocksIn(listed, files, now);
            exists a, b | 0 <= a < b < |listed| :: listed[a] == locks[i].name && listed[b] == locks[j].name
    decreases |listed|
  {
    var init, last := listed[..|listed| - 1], listed[|listed| - 1];
    var rest := LocksIn(init, files, now);
    if j < |rest| {
      FoundInOrder(init, files, now, i, j);
      var a, b :| 0 <= a < b < |init| && init[a] == rest[i].name && init[b] == rest[j].name;
      assert listed[a] == init[a] && listed[b] == init[b];
    } else {
      assert rest[i] in rest;
      var a :| 0 <= a < |init| && init[a] == rest[i].name;
      assert listed[a] == init[a] && listed[|listed| - 1] == last;
    }
  }

  /** If any lock has a live owner that is another, readable `git` process, the sweep removes
      nothing at all: no removed lock has a live owner. */
  lemma LiveOwnersKeepTheirLocks(
    listed: seq<string>, files: Files, now: real, procs: seq<Proc>, own: nat, stuck: set<string>, owners: map<string, Proc>)
    requires forall n | n in owners :: owners[n].pid != own && owners[n].comm == Some("git")
    requires exists n | n in owners :: owners[n] in procs
    ensures Doomed(LocksIn(listed, files, now), GitSeen(Some(procs), own), stuck) == {}
  {
    var n :| n in owners && owners[n] in procs;
    assert GitSeen(Some(procs), own) == Some(true);
  }

  /** Readability is needed: a live git whose name cannot be read loses its lock. */
  lemma UnreadableOwnerLosesItsLock() returns (files: Files, procs: seq<Proc>, owner: Proc)
    ensures owner in procs && owner.comm.None?
    ensures "index.lock" in Doomed(LocksIn(["index.lock"], files, 1000.0), GitSeen(Some(procs), 1), {})
  {
    files, owner := map["index.lock" := 0.0], Proc(7, None);
    procs := [owner];
    SweepIsExact(files, ["index.lock"], files, 1000.0, Some(procs), 1, {}, "index.lock");
  }
}
