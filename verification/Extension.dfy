/** The event queue, and the extension's life: listeners, timer thread, worker thread, shutdown. */
module Extension {
  import opened Options
  import opened Machine
  import opened Locks

  /** Many producers, one consumer. The ghost fields remember everything that went through. */
  class EventQueue {
    var items: seq<SyncEvent>
    ghost var puts: seq<SyncEvent>
    ghost var gets: seq<SyncEvent>

    ghost predicate Valid()
      reads this
    {
      puts == gets + items
    }

    constructor ()
      ensures Valid() && items == []
    {
      items, puts, gets := [], [], [];
    }

    method Put(e: SyncEvent)
      requires Valid()
      modifies this
      ensures Valid() && items == old(items) + [e] && puts == old(puts) + [e] && gets == old(gets)
    {
      items, puts := items + [e], puts + [e];
    }

    /** None stands for `queue.Empty`. */
    method GetNowait() returns (e: Option<SyncEvent>)
      requires Valid()
      modifies this
      ensures Valid() && puts == old(puts)
      ensures old(items) == [] ==> e == None && items == [] && gets == old(gets)
      ensures old(items) != [] ==> e == Some(old(items)[0]) && items == old(items)[1..] && gets == old(gets) + [old(items)[0]]
    {
      if items == [] { return None; }
      e := Some(items[0]);
      gets := gets + [items[0]];
      items := items[1..];
    }

    /** Everything queued, in order, leaving nothing. */
    method Drain() returns (drained: seq<SyncEvent>)
      requires Valid()
      modifies this
      ensures Valid() && drained == old(items) && items == []
      ensures gets == old(gets) + drained && puts == old(puts)
    {
      drained := [];
      while true
        invariant Valid() && drained + items == old(items) && gets == old(gets) + drained && puts == old(puts)
        decreases |items|
      {
        var e := GetNowait();
        if e.None? { break; }
        drained := drained + [e.value];
      }
    }
  }

  // ---- Life of the extension -------------------------------------------------------------

  /** What the startup sweep looks at: the listing of lock files, the files with their times, the
      processes, and the files that cannot be unlinked. */
  datatype Scan = Scan(
    listed: seq<string>, files: Files, now: real, table: Option<seq<Proc>>, own: nat, stuck: set<string>)
  {
    function Found(): seq<Lock> { LocksIn(listed, files, now) }

    function Running(): Option<bool> { GitSeen(table, own) }

    predicate Removes(l: Lock) { NoticeFor(l, Running(), stuck).Removed? }

    /** The names removed once the first `n` locks have been looked at. */
    function DoomedBy(n: nat): set<string>
      requires n <= |Found()|
    {
      Doomed(Found()[..n], Running(), stuck)
    }
  }

  /** How far start-up has got; `next` is the lock the sweep looks at next, `cut` that it raised. */
  datatype Startup =
    | Built | Attached
    | Sweeping(scan: Scan, next: nat)
    | Swept(scan: Scan, next: nat, cut: bool)
    | Started(scan: Scan, next: nat, cut: bool)
    | Ticking(scan: Scan, next: nat, cut: bool)

  /** The timer thread: not begun, inside `wait`, past a `wait` that timed out, or returned. */
  datatype TimerPc = Unborn | Waiting | Putting | Done

  /** The worker thread: not begun, about to read the stop flag, inside `get`, past it, or returned. */
  datatype LoopPc = Unstarted | Checking | Getting | Working | Exited

  /** What happened to the repository and when its worker began. */
  datatype Act = RemovedLock(name: string) | WorkerBegan | Issued

  datatype Ext = Ext(
    enabled: bool, startup: Startup, timer: TimerPc, timerStop: bool, worker: LoopPc, workerStop: bool,
    items: seq<SyncEvent>, puts: seq<SyncEvent>, gets: seq<SyncEvent>,
    acts: seq<Act>, latePuts: nat, lateGets: nat)

  /** The hooks the server calls, statement by statement, and the steps of the threads; any may come
      between any others. */
  datatype Step =
    | BeforeIndexesStart | AfterIndexesStart(scan: Scan) | SweepsOne | SweepRaises | StartsWorker | StartsTimer
    | Shutdown | Flushes
    | Listener(event: SyncEvent) | Timer
    | WorkerChecks | WorkerGets | WorkerFindsNothing | WorkerCommands | WorkerReturns

  function New(enabled: bool): Ext {
    Ext(enabled, Built, Unborn, false, Unstarted, false, [], [], [], [], 0, 0)
  }

  function Put(x: Ext, e: SyncEvent): Ext {
    x.(items := x.items + [e], puts := x.puts + [e])
  }

  /** The sweep looks at one lock, or finds that there is none left. */
  function SweepOne(x: Ext): Ext
    requires x.startup.Sweeping?
  {
    var scan, next := x.startup.scan, x.startup.next;
    if next < |scan.Found()| then
      var l := scan.Found()[next];
      x.(startup := Sweeping(scan, next + 1), acts := if scan.Removes(l) then x.acts + [RemovedLock(l.name)] else x.acts)
    else x.(startup := Swept(scan, next, false))
  }

  /** One step of the hooks; one called out of turn does nothing. */
  function Hook(x: Ext, s: Step): Ext {
    match s
    case BeforeIndexesStart => if x.startup.Built? then x.(startup := Attached) else x
    case AfterIndexesStart(scan) => if x.startup.Attached? then x.(startup := Sweeping(scan, 0)) else x
    case SweepsOne => if x.startup.Sweeping? then SweepOne(x) else x
    case SweepRaises => if x.startup.Sweeping? then x.(startup := Swept(x.startup.scan, x.startup.next, true)) else x
    case StartsWorker =>
      if x.startup.Swept? then
        x.(startup := Started(x.startup.scan, x.startup.next, x.startup.cut), worker := Checking, acts := x.acts + [WorkerBegan])
      else x
    case StartsTimer =>
      if x.startup.Started? then
        x.(startup := Ticking(x.startup.scan, x.startup.next, x.startup.cut), timer := Waiting)
      else x
    case Shutdown => x.(timerStop := true, workerStop := x.workerStop || !(x.startup.Built? || x.startup.Attached?))
    case Flushes => if x.workerStop && Issued in x.acts then x.(acts := x.acts + [Issued]) else x
    case _ => x
  }

  /** One step of a listener, the timer or the worker. `latePuts` counts the timer events enqueued
      after the timer's stop flag was set, `lateGets` the events taken after the worker's was. */
  function ThreadStep(x: Ext, s: Step): Ext {
    match s
    case Listener(e) => if x.startup.Built? then x else Put(x, e)
    case Timer =>
      (match x.timer
       case Waiting => x.(timer := if x.timerStop then Done else Putting)
       case Putting =>
         Put(x, SyncSweep("timer")).(timer := Waiting, latePuts := if x.timerStop then x.latePuts + 1 else x.latePuts)
       case Unborn | Done => x)
    case WorkerChecks => if x.worker.Checking? then x.(worker := if x.workerStop then Exited else Getting) else x
    case WorkerGets =>
      if x.worker.Getting? && x.items != [] then
        x.(worker := Working, items := x.items[1..], gets := x.gets + [x.items[0]],
           lateGets := if x.workerStop then x.lateGets + 1 else x.lateGets)
      else x
    case WorkerFindsNothing => if x.worker.Getting? && x.items == [] then x.(worker := Working) else x
    case WorkerCommands => if x.worker.Working? then x.(acts := x.acts + [Issued]) else x
    case WorkerReturns => if x.worker.Working? then x.(worker := Checking) else x
    case _ => x
  }

  function Advance(x: Ext, s: Step): Ext {
    if !x.enabled then (if s.Shutdown? then x.(timerStop := true) else x)
    else ThreadStep(Hook(x, s), s)
  }

  function Play(x: Ext, steps: seq<Step>): Ext {
    if steps == [] then x else Advance(Play(x, steps[..|steps| - 1]), steps[|steps| - 1])
  }

  // ---- What every schedule keeps ---------------------------------------------------------

  /** No lock is removed once the worker has begun, and no command is issued before. */
  predicate SweptFirst(acts: seq<Act>) {
    && (forall i, j | 0 <= i < j < |acts| && acts[j].RemovedLock? :: acts[i].RemovedLock?)
    && (forall j | 0 <= j < |acts| && acts[j].Issued? :: exists i | 0 <= i < j :: acts[i].WorkerBegan?)
  }

  function Removed(acts: seq<Act>): set<string> {
    set a | a in acts && a.RemovedLock? :: a.name
  }

  /** The locks removed so far are exactly those the sweep dooms among the ones it has looked at; a
      sweep that did not raise has looked at them all before the worker begins. */
  predicate SweptExactly(x: Ext) {
    match x.startup
    case Built | Attached => x.acts == []
    case Sweeping(scan, next) => next <= |scan.Found()| && Removed(x.acts) == scan.DoomedBy(next)
    case Swept(scan, next, cut) =>
      next <= |scan.Found()| && Removed(x.acts) == scan.DoomedBy(next) && (!cut ==> next == |scan.Found()|)
    case Started(scan, next, cut) =>
      next <= |scan.Found()| && Removed(x.acts) == scan.DoomedBy(next) && (!cut ==> next == |scan.Found()|)
    case Ticking(scan, next, cut) =>
      next <= |scan.Found()| && Removed(x.acts) == scan.DoomedBy(next) && (!cut ==> next == |scan.Found()|)
  }

  /** The worker thread exists once it has begun, and not before the sweep is over. */
  predicate BegunInOrder(x: Ext) {
    && (x.worker.Unstarted? <==> WorkerBegan !in x.acts)
    && (x.worker.Unstarted? <==> !(x.startup.Started? || x.startup.Ticking?))
    && (x.worker.Unstarted? ==> forall a | a in x.acts :: a.RemovedLock?)
    && (x.timer.Unborn? <==> !x.startup.Ticking?)
  }

  predicate Sound(x: Ext) {
    && x.puts == x.gets + x.items
    && SweptFirst(x.acts) && SweptExactly(x) && BegunInOrder(x)
    && (!x.timerStop ==> x.latePuts == 0)
    && x.latePuts <= 1
    && (x.latePuts == 1 ==> !x.timer.Putting?)
    && (!x.workerStop ==> x.lateGets == 0)
    && x.lateGets <= 1
    && (x.lateGets == 1 ==> !x.worker.Getting?)
    && (!x.enabled ==> x.acts == [] && x.puts == [] && x.startup.Built?)
  }

  /** Appending a command after the worker began keeps the order of acts and removes nothing. */
  lemma IssuingKeepsOrder(acts: seq<Act>)
    requires SweptFirst(acts) && WorkerBegan in acts
    ensures SweptFirst(acts + [Issued]) && Removed(acts + [Issued]) == Removed(acts)
  {
    var longer := acts + [Issued];
    var i :| 0 <= i < |acts| && acts[i] == WorkerBegan;
    assert longer[i].WorkerBegan?;
    forall j | 0 <= j < |longer| && longer[j].Issued? ensures exists k | 0 <= k < j :: longer[k].WorkerBegan? {
      if j < |acts| {
        var k :| 0 <= k < j && acts[k].WorkerBegan?;
        assert longer[k].WorkerBegan?;
      }
    }
  }

  lemma RemovingKeepsOrder(acts: seq<Act>, name: string)
    requires forall a | a in acts :: a.RemovedLock?
    ensures SweptFirst(acts + [RemovedLock(name)])
    ensures Removed(acts + [RemovedLock(name)]) == Removed(acts) + {name}
  {
    assert RemovedLock(name) in acts + [RemovedLock(name)];
    forall n | n in Removed(acts) ensures n in Removed(acts + [RemovedLock(name)]) {
      assert RemovedLock(n) in acts + [RemovedLock(name)];
    }
  }

  lemma BeginningKeepsOrder(acts: seq<Act>)
    requires forall a | a in acts :: a.RemovedLock?
    ensures SweptFirst(acts + [WorkerBegan])
    ensures Removed(acts + [WorkerBegan]) == Removed(acts)
  {
  }

  /** Looking at one more lock dooms it or not. */
  lemma OneMoreDoomed(scan: Scan, n: nat)
    requires n < |scan.Found()|
    ensures var l := scan.Found()[n];
            scan.DoomedBy(n + 1) == scan.DoomedBy(n) + if scan.Removes(l) then {l.name} else {}
  {
    assert scan.Found()[..n + 1] == scan.Found()[..n] + [scan.Found()[n]];
  }

  lemma SweepKeepsSound(x: Ext)
    requires Sound(x) && x.enabled && x.startup.Sweeping?
    ensures Sound(SweepOne(x))
  {
    hide SweptFirst, Removed, LocksIn, GitSeen, NoticeFor, Doomed;
    var scan, next := x.startup.scan, x.startup.next;
    if next < |scan.Found()| {
      OneMoreDoomed(scan, next);
      RemovingKeepsOrder(x.acts, scan.Found()[next].name);
    }
  }

  lemma HookKeepsSound(x: Ext, s: Step)
    requires Sound(x) && x.enabled
    ensures Sound(Hook(x, s))
  {
    hide SweptFirst, Removed, SweepOne;
    match s {
      case AfterIndexesStart(scan) =>
        assert Removed([]) == {} by { NothingRemovedYet(); }
        NothingDoomedYet(scan.Found(), scan.Running(), scan.stuck);
      case SweepsOne => if x.startup.Sweeping? { SweepKeepsSound(x); }
      case StartsWorker => if x.startup.Swept? { BeginningKeepsOrder(x.acts); }
      case Flushes => if Issued in x.acts { IssuingMeansBegun(x.acts); IssuingKeepsOrder(x.acts); }
      case _ =>
    }
  }

  lemma NothingRemovedYet()
    ensures Removed([]) == {}
  {
  }

  lemma IssuingMeansBegun(acts: seq<Act>)
    requires SweptFirst(acts) && Issued in acts
    ensures WorkerBegan in acts
  {
  }

  lemma ThreadsKeepSound(x: Ext, s: Step)
    requires Sound(x) && x.enabled
    ensures Sound(ThreadStep(x, s))
  {
    hide SweptFirst, Removed;
    match s {
      case WorkerGets =>
        if x.items != [] {
          assert x.gets + x.items == (x.gets + [x.items[0]]) + x.items[1..];
        }
      case WorkerCommands => if x.worker.Working? { IssuingKeepsOrder(x.acts); }
      case _ =>
    }
  }

  /** Over every schedule of hooks, listeners, timer and worker, shut down at any point: the events
      got, followed by those still queued, are the events put, in order; the locks removed are
      those the sweep dooms, all removed before the worker begins, which issues no command earlier;
      at most one timer event is enqueued after the timer's stop flag is set, and at most one event
      taken after the worker's is; and a disabled extension does nothing. */
  lemma {:induction false} EveryScheduleIsSound(enabled: bool, steps: seq<Step>)
    ensures Sound(Play(New(enabled), steps))
    decreases |steps|
  {
    hide Sound, Hook, ThreadStep;
    if steps != [] {
      var x, s := Play(New(enabled), steps[..|steps| - 1]), steps[|steps| - 1];
      EveryScheduleIsSound(enabled, steps[..|steps| - 1]);
      if x.enabled {
        HookKeepsSound(x, s);
        HookKeepsEnabled(x, s);
        ThreadsKeepSound(Hook(x, s), s);
      } else {
        assert Sound(x.(timerStop := true)) by { StoppingDisabled(x); }
      }
    } else {
      assert Sound(New(enabled)) by { NewIsSound(enabled); }
    }
  }

  lemma HookKeepsEnabled(x: Ext, s: Step)
    ensures Hook(x, s).enabled == x.enabled
  {
  }

  lemma StoppingDisabled(x: Ext)
    requires Sound(x) && !x.enabled
    ensures Sound(x.(timerStop := true))
  {
  }

  lemma NewIsSound(enabled: bool)
    ensures Sound(New(enabled))
  {
  }

  /** So in every schedule the removals are those of `Locks.GitDir.Sweep` on the same scan once the
      worker has begun, a prefix of them if the sweep raised; and a live, readable git owning any of
      the locks keeps them all. */
  lemma RemovalsAreTheSweeps(enabled: bool, steps: seq<Step>, owners: map<string, Proc>)
    ensures var x := Play(New(enabled), steps);
            x.startup.Started? || x.startup.Ticking? ==>
              var scan := x.startup.scan;
              && Removed(x.acts) <= Doomed(scan.Found(), scan.Running(), scan.stuck)
              && (!x.startup.cut ==> Removed(x.acts) == Doomed(scan.Found(), scan.Running(), scan.stuck))
              && ((forall n | n in owners :: owners[n].pid != scan.own && owners[n].comm == Some("git"))
                  && scan.table.Some? && (exists n | n in owners :: owners[n] in scan.table.value)
                  ==> Removed(x.acts) == {})
  {
    hide Removed, Play, SweptFirst, BegunInOrder;
    EveryScheduleIsSound(enabled, steps);
    var x := Play(New(enabled), steps);
    if x.startup.Started? || x.startup.Ticking? {
      var scan := x.startup.scan;
      assert scan.Found()[..|scan.Found()|] == scan.Found();
      if (forall n | n in owners :: owners[n].pid != scan.own && owners[n].comm == Some("git"))
         && scan.table.Some? && (exists n | n in owners :: owners[n] in scan.table.value) {
        LiveOwnersKeepTheirLocks(scan.listed, scan.files, scan.now, scan.table.value, scan.own, scan.stuck, owners);
      }
    }
  }

  /** A plain start-up, with no locks to be found. */
  lemma StartUp() returns (steps: seq<Step>)
    ensures var x := Play(New(true), steps);
            x.enabled && x.startup.Ticking? && x.timer.Waiting? && !x.timerStop && x.latePuts == 0
  {
    hide ThreadStep;
    var x := New(true);
    var scan := Scan([], map[], 0.0, None, 1, {});
    assert forall y: Ext, s: Step | s.BeforeIndexesStart? || s.AfterIndexesStart? || s.SweepsOne? || s.StartsWorker? || s.StartsTimer? ::
      ThreadStep(y, s) == y by { HooksMoveNoThread(); }
    assert Play(x, []) == x;
    steps := OneMore(x, [], BeforeIndexesStart);
    steps := OneMore(x, steps, AfterIndexesStart(scan));
    steps := OneMore(x, steps, SweepsOne);
    steps := OneMore(x, steps, StartsWorker);
    steps := OneMore(x, steps, StartsTimer);
  }

  lemma HooksMoveNoThread()
    ensures forall y: Ext, s: Step | s.BeforeIndexesStart? || s.AfterIndexesStart? || s.SweepsOne? || s.StartsWorker? || s.StartsTimer? ::
      ThreadStep(y, s) == y
  {
  }

  /** One late timer event is possible: the flag is set between the wait and the put. */
  lemma OneLateTimerEvent() returns (steps: seq<Step>)
    ensures Play(New(true), steps).latePuts == 1
  {
    hide Play;
    var x := New(true);
    steps := StartUp();
    steps := OneMore(x, steps, Timer);
    steps := OneMore(x, steps, Shutdown);
    steps := OneMore(x, steps, Timer);
  }

  lemma OneMore(x: Ext, steps: seq<Step>, s: Step) returns (longer: seq<Step>)
    ensures Play(x, longer) == Advance(Play(x, steps), s)
  {
    longer := steps + [s];
    assert longer[..|steps|] == steps;
  }

  // ---- What the steps do -----------------------------------------------------------------

  /** Attached, a listener loses no event; a timer whose wait runs out enqueues a timer sweep and waits
      again. */
  lemma ProducersEnqueue(x: Ext, e: SyncEvent)
    requires x.enabled
    ensures !x.startup.Built? ==> Advance(x, Listener(e)).items == x.items + [e]
    ensures x.timer.Waiting? && !x.timerStop ==>
              var y := Advance(Advance(x, Timer), Timer);
              y.items == x.items + [SyncSweep("timer")] && y.timer.Waiting?
  {
  }

  /** After a shutdown the timer returns at its next wait and a worker that exists at its next look
      at the flag, unless they are past it: those first put, or finish with, one event more. */
  lemma {:induction false} ShutdownStops(x: Ext, steps: seq<Step>)
    requires Sound(x) && x.enabled
    ensures var y := Play(Advance(x, Shutdown), steps);
            && y.enabled && y.timerStop
            && (!(x.startup.Built? || x.startup.Attached?) ==> y.workerStop)
            && (y.timer.Waiting? ==> Advance(y, Timer).timer.Done?)
            && (y.workerStop && y.worker.Checking? ==> Advance(y, WorkerChecks).worker.Exited?)
    decreases |steps|
  {
    if steps != [] {
      var n := |steps| - 1;
      var z := Play(Advance(x, Shutdown), steps[..n]);
      ShutdownStops(x, steps[..n]);
      FlagsStaySet(z, steps[n]);
      ExitsOnceStopped(Advance(z, steps[n]));
    } else {
      ExitsOnceStopped(Advance(x, Shutdown));
    }
  }

  lemma FlagsStaySet(x: Ext, s: Step)
    ensures var y := Advance(x, s);
            y.enabled == x.enabled && (x.timerStop ==> y.timerStop) && (x.workerStop ==> y.workerStop)
  {
  }

  lemma ExitsOnceStopped(x: Ext)
    requires x.enabled && x.timerStop
    ensures x.timer.Waiting? ==> Advance(x, Timer).timer.Done?
    ensures x.workerStop && x.worker.Checking? ==> Advance(x, WorkerChecks).worker.Exited?
  {
  }

  /** The worker takes the oldest event, and with none queued its `get` comes back empty-handed. */
  lemma WorkerTakesTheOldest(x: Ext)
    requires x.enabled && x.worker.Getting?
    ensures x.items != [] ==>
              var y := Advance(x, WorkerGets);
              y.worker.Working? && y.gets == x.gets + [x.items[0]] && y.items == x.items[1..]
    ensures x.items == [] ==> Advance(x, WorkerFindsNothing) == x.(worker := Working)
  {
  }
}
