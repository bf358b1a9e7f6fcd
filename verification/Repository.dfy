/** A clone of a git repository, its remote, and the effect of each command the worker runs.
    Every command meets an arbitrary `Outcome`; git's own rules decide what may come of it. */
module Repository {
  import opened Options
  import opened Trees
  import opened Rebasing

  type Branch = string
  type Refs = map<Branch, History>
  type Duration = d: real | 0.0 <= d witness 0.0

  datatype Head = On(branch: Branch) | Detached(history: History)

  /** `stopped` is where HEAD was when a rebase still in progress began; `remoteHead` is the branch
      that the tracking name HEAD stands for, if it is set. */
  datatype Repo = Repo(
    work: Tree, index: Tree, unmerged: set<Path>,
    head: Head, branches: Refs, tracking: Refs, remote: Refs,
    stopped: Option<Head>, remoteHead: Option<Branch>)

  datatype Command =
    | Add(paths: seq<Path>) | AddAll | Diff | CommitIndex(tag: Tag)
    | CurrentBranch | Fetch | Rebase(branch: Branch) | Abort | Push(branch: Branch)

  /** An exit code, a kill by the timeout, or any other exception. */
  datatype Reply = Returned(rc: int) | TimedOut | Raised {
    predicate Ok() { this == Returned(0) }
  }

  /** How much of its work a command that did not exit 0 had done. */
  datatype Extent = Nothing | Partly(stop: nat, marks: set<Path>) | Wholly

  /** What the world does around one command: writes to the working tree and pushes by other clones
      just before it, how it ends, how long the worker was busy with other work before issuing it,
      and how long it takes. Outsiders write plain text only. */
  datatype Outcome = Outcome(
    edits: map<Path, Option<string>>, foreign: map<Branch, seq<map<Path, string>>>,
    reply: Reply, extent: Extent, before: Duration, took: Duration)

  // ---- Reading a repository --------------------------------------------------------------

  function Ref(refs: Refs, b: Branch): History {
    if b in refs then refs[b] else []
  }

  function HistoryAt(r: Repo, head: Head): History {
    match head
    case On(b) => Ref(r.branches, b)
    case Detached(h) => h
  }

  function HeadHistory(r: Repo): History { HistoryAt(r, r.head) }

  function HeadTree(r: Repo): Tree { Tip(HeadHistory(r)) }

  /** `rev-parse --abbrev-ref HEAD`: a detached HEAD prints "HEAD". */
  function HeadName(r: Repo): Branch {
    if r.head.On? then r.head.branch else "HEAD"
  }

  /** The local branch that `push <remote> <name>` sends, and updates under the same name. */
  function PushSource(r: Repo, name: Branch): Option<Branch> {
    if name != "HEAD" then Some(name)
    else if r.head.On? then Some(r.head.branch)
    else None
  }

  /** The remote branch whose tracking ref `<remote>/<name>` is. */
  function Upstream(r: Repo, name: Branch): Option<Branch> {
    if name == "HEAD" then r.remoteHead else Some(name)
  }

  function UpstreamHistory(r: Repo, name: Branch): History {
    var u := Upstream(r, name);
    if u.Some? then Ref(r.tracking, u.value) else []
  }

  // ---- The world around a command --------------------------------------------------------

  function Edited(work: Tree, edits: map<Path, Option<string>>): Tree {
    map p | p in work.Keys + edits.Keys && (p in edits ==> edits[p].Some?)
      :: if p in edits then Text(edits[p].value) else work[p]
  }

  function Snapshot(files: map<Path, string>): Tree {
    map p | p in files :: Text(files[p])
  }

  function Snapshots(pushes: seq<map<Path, string>>): History {
    seq(|pushes|, i requires 0 <= i < |pushes| => Commit(Foreign, Snapshot(pushes[i])))
  }

  function Grown(remote: Refs, foreign: map<Branch, seq<map<Path, string>>>): Refs {
    map b | b in remote.Keys + foreign.Keys
      :: Ref(remote, b) + if b in foreign then Snapshots(foreign[b]) else []
  }

  function Weathered(r: Repo, o: Outcome): Repo {
    r.(work := Edited(r.work, o.edits), remote := Grown(r.remote, o.foreign))
  }

  /** With nobody interfering, the weather changes nothing. */
  lemma CalmWeather(r: Repo, o: Outcome)
    requires o.edits == map[] && o.foreign == map[]
    ensures Weathered(r, o) == r
  {
    assert Edited(r.work, o.edits) == r.work;
    forall b | b in r.remote ensures Grown(r.remote, o.foreign)[b] == r.remote[b] {
      assert r.remote[b] + [] == r.remote[b];
    }
  }

  // ---- What git accepts ------------------------------------------------------------------

  predicate InStep(r: Repo) {
    r.index == HeadTree(r) && r.unmerged == {}
  }

  /** A rebase starts only from a clean state with the upstream branch known. */
  predicate Startable(r: Repo, name: Branch) {
    && r.stopped.None?
    && InStep(r)
    && Upstream(r, name).Some? && Upstream(r, name).value in r.tracking
    && forall p | p in r.index :: At(r.work, p) == At(r.index, p)
  }

  predicate Rebasable(r: Repo, name: Branch) {
    && Startable(r, name)
    && Rebased(UpstreamHistory(r, name), HeadHistory(r)).Done?
    && forall p | p in Tip(Rebased(UpstreamHistory(r, name), HeadHistory(r)).history) && p !in r.index :: p !in r.work
  }

  predicate FastForward(r: Repo, name: Branch) {
    var b := PushSource(r, name);
    b.Some? && b.value in r.branches && Ref(r.remote, b.value) <= r.branches[b.value]
  }

  /** Whether git can carry the command out in this state; if not, it cannot exit 0. */
  predicate Accepts(r: Repo, c: Command) {
    match c
    case Add(paths) => forall p | p in paths :: p in r.work || p in r.index
    case AddAll => true
    case Diff => InStep(r)
    case CommitIndex(_) => r.unmerged == {} && r.index != HeadTree(r)
    case CurrentBranch => r.head.On? ==> r.head.branch in r.branches
    case Fetch => true
    case Rebase(b) => Rebasable(r, b)
    case Abort => r.stopped.Some?
    case Push(name) => FastForward(r, name)
  }

  function Refusal(c: Command): int {
    match c
    case Diff | CommitIndex(_) | Rebase(_) | Push(_) => 1
    case _ => 128
  }

  function ReplyOf(r: Repo, c: Command, o: Outcome): Reply {
    if o.reply.Ok() && !Accepts(r, c) then Returned(Refusal(c)) else o.reply
  }

  /** Whether the command took full effect: always on exit 0, perhaps when it was killed, and for
      the two network commands perhaps on a failing exit as well (a lost acknowledgement). */
  predicate Lands(r: Repo, c: Command, o: Outcome) {
    Accepts(r, c) && (o.reply.Ok() || (o.extent.Wholly? && (!o.reply.Returned? || c.Fetch? || c.Push?)))
  }

  // ---- Effects ---------------------------------------------------------------------------

  function Staged(r: Repo, paths: seq<Path>): Repo {
    var index := map p | p in r.index.Keys + r.work.Keys && (if p in paths then p in r.work else p in r.index)
      :: if p in paths then r.work[p] else r.index[p];
    r.(index := index, unmerged := set p | p in r.unmerged && p !in paths)
  }

  function MoveHead(r: Repo, h: History): Repo {
    match r.head
    case On(b) => r.(branches := r.branches[b := h])
    case Detached(_) => r.(head := Detached(h))
  }

  function FinishRebase(r: Repo, name: Branch): Repo
    requires Rebasable(r, name)
  {
    var h := Rebased(UpstreamHistory(r, name), HeadHistory(r)).history;
    MoveHead(r, h).(index := Tip(h), work := Merge(r.work, r.index, Tip(h)))
  }

  /** A rebase that stopped or was killed after replaying some commits: HEAD is detached on what it
      had built, the branch has not moved, and some files may hold conflict markers. */
  function InterruptRebase(r: Repo, name: Branch, stop: nat, marks: set<Path>): Repo
    requires Startable(r, name)
  {
    var acc := Partway(UpstreamHistory(r, name), HeadHistory(r), stop);
    r.(work := Scarred(Merge(r.work, r.index, Tip(acc)), marks),
       index := Tip(acc), unmerged := marks, head := Detached(acc), stopped := Some(r.head))
  }

  /** A tree with conflict markers left in some files. */
  function Scarred(t: Tree, marks: set<Path>): (s: Tree)
    ensures forall p | p in s && p !in marks :: p in t && s[p] == t[p]
  {
    map p | p in t.Keys + marks :: if p in marks then Marked("") else t[p]
  }

  /** `rebase --abort`: HEAD goes back, and every tracked or conflicted file with it. */
  function AbortRebase(r: Repo): Repo
    requires r.stopped.Some?
  {
    var tree := Tip(HistoryAt(r, r.stopped.value));
    var restored := map p | p in r.work.Keys + tree.Keys && (p in r.index || p in r.unmerged ==> p in tree)
      :: if p in tree then tree[p] else r.work[p];
    r.(head := r.stopped.value, stopped := None, index := tree, unmerged := {}, work := restored)
  }

  function Pushed(r: Repo, name: Branch): Repo
    requires FastForward(r, name)
  {
    var b := PushSource(r, name).value;
    r.(remote := r.remote[b := r.branches[b]], tracking := r.tracking[b := r.branches[b]])
  }

  function Effect(r: Repo, c: Command): Repo
    requires Accepts(r, c)
  {
    match c
    case Add(paths) => Staged(r, paths)
    case AddAll => r.(index := r.work, unmerged := {})
    case CommitIndex(tag) => MoveHead(r, HeadHistory(r) + [Commit(tag, r.index)])
    case Fetch => r.(tracking := r.tracking + r.remote)
    case Rebase(b) => FinishRebase(r, b)
    case Abort => AbortRebase(r)
    case Push(name) => Pushed(r, name)
    case Diff | CurrentBranch => r
  }

  /** Upstream holds commits that HEAD does not; without any a rebase has nothing to do. */
  predicate Behind(r: Repo, name: Branch) {
    Fork(UpstreamHistory(r, name), HeadHistory(r)) < |UpstreamHistory(r, name)|
  }

  /** A rebase that began and did not complete is left in progress: whenever it had to stop, and
      when it failed or was killed part way. */
  predicate Strands(r: Repo, c: Command, o: Outcome) {
    && c.Rebase? && Startable(r, c.branch) && Behind(r, c.branch)
    && !Lands(r, c, o) && (o.reply.Ok() || o.extent.Partly?)
  }

  /** One command, from the world's writes before it to the state it leaves. */
  function Execute(r0: Repo, c: Command, o: Outcome): Repo {
    var r := Weathered(r0, o);
    if Lands(r, c, o) then Effect(r, c)
    else if Strands(r, c, o) then
      if o.extent.Partly? then InterruptRebase(r, c.branch, o.extent.stop, o.extent.marks)
      else InterruptRebase(r, c.branch, |HeadHistory(r)|, {})
    else r
  }

  function Answer(r0: Repo, c: Command, o: Outcome): Reply {
    ReplyOf(Weathered(r0, o), c, o)
  }

  // ---- Nothing on the remote is overwritten ----------------------------------------------

  ghost predicate RemoteExtends(r: Repo, r': Repo) {
    forall b: Branch :: Ref(r.remote, b) <= Ref(r'.remote, b)
  }

  lemma EffectGrowsRemote(r: Repo, c: Command)
    requires Accepts(r, c)
    ensures RemoteExtends(r, Effect(r, c))
  {
    hide Startable, FinishRebase, AbortRebase, Staged;
    if c.Rebase? {
      assert Effect(r, c).remote == r.remote by { RebaseSparesRemote(r, c.branch); }
    }
    if c.Abort? {
      assert Effect(r, c).remote == r.remote by { AbortSparesRemote(r); }
    }
    if c.Add? {
      assert Effect(r, c).remote == r.remote by { StagingSparesRemote(r, c.paths); }
    }
  }

  lemma RebaseSparesRemote(r: Repo, b: Branch)
    requires Rebasable(r, b)
    ensures FinishRebase(r, b).remote == r.remote
  {
  }

  lemma AbortSparesRemote(r: Repo)
    requires r.stopped.Some?
    ensures AbortRebase(r).remote == r.remote
  {
  }

  lemma StagingSparesRemote(r: Repo, paths: seq<Path>)
    ensures Staged(r, paths).remote == r.remote
  {
  }

  lemma RemoteOnlyGrows(r: Repo, c: Command, o: Outcome)
    ensures RemoteExtends(r, Execute(r, c, o))
  {
    hide Effect, Accepts, Startable, Edited;
    var w := Weathered(r, o);
    if Lands(w, c, o) {
      EffectGrowsRemote(w, c);
    }
    forall b: Branch ensures Ref(r.remote, b) <= Ref(Execute(r, c, o).remote, b) {
      assert Ref(r.remote, b) <= Ref(w.remote, b);
    }
  }

  // ---- Where the clone can be ------------------------------------------------------------

  predicate SpotlessRefs(refs: Refs) {
    forall b | b in refs :: UnmarkedHistory(refs[b])
  }

  /** No commit on any branch, tracking ref or remote branch holds conflict markers. */
  predicate Spotless(r: Repo) {
    SpotlessRefs(r.branches) && SpotlessRefs(r.tracking) && SpotlessRefs(r.remote)
  }

  /** On branch `b`, no rebase in progress, and no conflict markers anywhere. */
  predicate Settled(r: Repo, b: Branch) {
    && r.head == On(b)
    && r.stopped.None?
    && r.unmerged == {}
    && Unmarked(r.work)
    && Unmarked(r.index)
    && Spotless(r)
  }

  /** A rebase of `b` is in progress, and what markers there are, an abort will remove. */
  predicate Mid(r: Repo, b: Branch) {
    && r.stopped == Some(On(b))
    && r.head.Detached?
    && Spotless(r)
    && forall p | p in r.work && r.work[p].Marked? :: p in r.index || p in r.unmerged
  }

  predicate Placed(r: Repo, b: Branch) {
    Settled(r, b) || Mid(r, b)
  }

  lemma ForeignPushesAreClean(remote: Refs, foreign: map<Branch, seq<map<Path, string>>>)
    requires SpotlessRefs(remote)
    ensures SpotlessRefs(Grown(remote, foreign))
  {
    var grown := Grown(remote, foreign);
    forall b: Branch, c: Commit | b in grown && c in grown[b] ensures Unmarked(c.tree) {
      if b in remote && c in remote[b] {
      } else {
        assert c in Snapshots(foreign[b]);
      }
    }
  }

  lemma WeatherIsClean(r: Repo, o: Outcome, b: Branch)
    ensures Settled(r, b) ==> Settled(Weathered(r, o), b)
    ensures Mid(r, b) ==> Mid(Weathered(r, o), b)
    ensures Weathered(r, o).(work := r.work, remote := r.remote) == r
  {
    hide Grown, UnmarkedHistory;
    if SpotlessRefs(r.remote) {
      ForeignPushesAreClean(r.remote, o.foreign);
    }
  }

  lemma StagingStaysSettled(r: Repo, paths: seq<Path>, b: Branch)
    requires Settled(r, b)
    ensures Settled(Staged(r, paths), b)
  {
    hide SpotlessRefs;
    var s := Staged(r, paths);
    forall p | p in s.index ensures s.index[p].Text? {
      assert At(s.index, p) == At(r.work, p) || At(s.index, p) == At(r.index, p);
    }
  }

  lemma CommitStaysSettled(r: Repo, tag: Tag, b: Branch)
    requires Settled(r, b) && Accepts(r, CommitIndex(tag))
    ensures Settled(Effect(r, CommitIndex(tag)), b)
  {
  }

  lemma FetchStaysSpotless(r: Repo)
    requires Spotless(r)
    ensures Spotless(Effect(r, Fetch))
  {
    hide UnmarkedHistory;
  }

  lemma PushStaysSpotless(r: Repo, name: Branch)
    requires Spotless(r) && FastForward(r, name)
    ensures Spotless(Pushed(r, name))
  {
    hide UnmarkedHistory;
  }

  lemma UpstreamIsClean(r: Repo, name: Branch, b: Branch)
    requires Spotless(r)
    ensures UnmarkedHistory(UpstreamHistory(r, name)) && UnmarkedHistory(Ref(r.branches, b))
  {
  }

  lemma FinishedRebaseIsSettled(r: Repo, name: Branch, b: Branch)
    requires Settled(r, b) && Rebasable(r, name)
    ensures Settled(FinishRebase(r, name), b) && InStep(FinishRebase(r, name))
  {
    hide UpstreamHistory, Rebased;
    UpstreamIsClean(r, name, b);
    RebasedStaysUnmarked(UpstreamHistory(r, name), HeadHistory(r));
    var h := Rebased(UpstreamHistory(r, name), HeadHistory(r)).history;
    assert Unmarked(Tip(h));
    MergeStaysUnmarked(r.work, r.index, Tip(h));
  }

  lemma InterruptedRebaseIsMid(r: Repo, name: Branch, stop: nat, marks: set<Path>, b: Branch)
    requires Settled(r, b) && Startable(r, name)
    ensures Mid(InterruptRebase(r, name, stop, marks), b)
  {
    hide UpstreamHistory, SpotlessRefs;
    UpstreamIsClean(r, name, b);
    PartwayStaysUnmarked(UpstreamHistory(r, name), HeadHistory(r), stop);
    var acc := Partway(UpstreamHistory(r, name), HeadHistory(r), stop);
    assert Unmarked(Tip(acc));
    MergeStaysUnmarked(r.work, r.index, Tip(acc));
  }

  lemma AbortSettles(r: Repo, b: Branch)
    requires Mid(r, b)
    ensures Settled(AbortRebase(r), b) && InStep(AbortRebase(r))
  {
    UpstreamIsClean(r, b, b);
    assert Unmarked(Tip(Ref(r.branches, b)));
  }

  /** Aborting a rebase wherever it stopped gives back the very repository it began from, as long as
      the files git does not track were not in its way. */
  lemma AbortUndoesRebase(r: Repo, name: Branch, stop: nat, marks: set<Path>)
    requires Startable(r, name)
    requires forall p | p in r.work && p !in r.index ::
               p !in Tip(Partway(UpstreamHistory(r, name), HeadHistory(r), stop)) && p !in marks
    ensures AbortRebase(InterruptRebase(r, name, stop, marks)) == r
  {
    hide Partway, UpstreamHistory;
    var t := InterruptRebase(r, name, stop, marks);
    assert HistoryAt(t, t.stopped.value) == HeadHistory(r);
    var acc := Partway(UpstreamHistory(r, name), HeadHistory(r), stop);
    var work := AbortRebase(t).work;
    forall p ensures At(work, p) == At(r.work, p) {
      assert At(Merge(r.work, r.index, Tip(acc)), p)
          == if Differs(r.index, Tip(acc), p) then At(Tip(acc), p) else At(r.work, p);
    }
    TreesAgree(work, r.work);
  }

  /** Every command leaves a settled clone settled, except a rebase that does not exit 0: that one
      may leave itself in progress. */
  lemma SettledStep(r: Repo, c: Command, o: Outcome, b: Branch)
    requires Settled(r, b)
    ensures var r' := Execute(r, c, o);
            if r'.stopped.None? then Settled(r', b) else c.Rebase? && !Answer(r, c, o).Ok() && Mid(r', b)
  {
    hide SpotlessRefs, Rebased, Partway, Edited, Grown, Unmarked;
    WeatherIsClean(r, o, b);
    var w := Weathered(r, o);
    if Lands(w, c, o) {
      match c {
        case Add(paths) => StagingStaysSettled(w, paths, b);
        case CommitIndex(tag) => CommitStaysSettled(w, tag, b);
        case Rebase(name) => FinishedRebaseIsSettled(w, name, b);
        case Fetch => FetchStaysSpotless(w);
        case Push(name) => PushStaysSpotless(w, name);
        case _ =>
      }
    } else if Strands(w, c, o) {
      if o.extent.Partly? { InterruptedRebaseIsMid(w, c.branch, o.extent.stop, o.extent.marks, b); }
      else { InterruptedRebaseIsMid(w, c.branch, |HeadHistory(w)|, {}, b); }
    }
  }

  lemma StagingStaysMid(r: Repo, paths: seq<Path>, b: Branch)
    requires Mid(r, b)
    ensures Mid(Staged(r, paths), b)
  {
    hide SpotlessRefs;
  }

  /** In the middle of a rebase no command moves any branch; only an abort that takes effect ends
      it, and that settles the clone with the index in step with HEAD. */
  lemma MidStep(r: Repo, c: Command, o: Outcome, b: Branch)
    requires Mid(r, b)
    ensures var r' := Execute(r, c, o);
            && r'.branches == r.branches
            && (if r'.stopped.None? then c.Abort? && Settled(r', b) && InStep(r') else Mid(r', b))
            && (c.Abort? && Answer(r, c, o).Ok() ==> r'.stopped.None?)
  {
    hide SpotlessRefs, AbortRebase, Edited, Grown, Unmarked, InStep;
    WeatherIsClean(r, o, b);
    var w := Weathered(r, o);
    assert !Strands(w, c, o);
    if Lands(w, c, o) {
      match c {
        case Add(paths) => StagingStaysMid(w, paths, b);
        case Abort =>
          AbortSettles(w, b);
          assert AbortRebase(w).branches == w.branches by { AbortSparesBranches(w); }
        case Fetch => FetchStaysSpotless(w);
        case Push(name) => PushStaysSpotless(w, name);
        case _ =>
      }
    }
  }

  lemma AbortSparesBranches(r: Repo)
    requires r.stopped.Some?
    ensures AbortRebase(r).branches == r.branches
  {
  }

  /** The clone is settled on `b` or in the middle of a rebase of it, whatever is run. */
  lemma StaysPlaced(r: Repo, c: Command, o: Outcome, b: Branch)
    requires Placed(r, b)
    ensures Placed(Execute(r, c, o), b)
  {
    hide Execute, Answer, Settled, Mid;
    if Settled(r, b) { SettledStep(r, c, o, b); } else { MidStep(r, c, o, b); }
  }

  // ---- Versions survive ------------------------------------------------------------------

  /** No command takes a recorded version off the branch. */
  lemma BranchKeepsVersions(r: Repo, c: Command, o: Outcome, b: Branch, vs: set<Version>)
    requires Placed(r, b)
    requires RecordsAll(Ref(r.branches, b), vs)
    ensures RecordsAll(Ref(Execute(r, c, o).branches, b), vs)
  {
    if Settled(r, b) {
      SettledBranchKeepsVersions(r, c, o, b, vs);
    } else {
      hide Execute, Mid;
      MidStep(r, c, o, b);
    }
  }

  lemma SettledBranchKeepsVersions(r: Repo, c: Command, o: Outcome, b: Branch, vs: set<Version>)
    requires Settled(r, b)
    requires RecordsAll(Ref(r.branches, b), vs)
    ensures RecordsAll(Ref(Execute(r, c, o).branches, b), vs)
  {
    hide SpotlessRefs, Rebased, Edited, Grown, Unmarked, RecordsAll;
    WeatherIsClean(r, o, b);
    var w := Weathered(r, o);
    if Lands(w, c, o) {
      match c {
        case CommitIndex(tag) =>
          LongerRecordsAll(HeadHistory(w), HeadHistory(w) + [Commit(tag, w.index)], vs);
        case Rebase(name) => RebaseLosesNoVersion(UpstreamHistory(w, name), HeadHistory(w), vs);
        case _ =>
      }
    }
  }

  lemma RemoteKeepsVersions(r: Repo, c: Command, o: Outcome, b: Branch, vs: set<Version>)
    requires RecordsAll(Ref(r.remote, b), vs)
    ensures RecordsAll(Ref(Execute(r, c, o).remote, b), vs)
  {
    RemoteOnlyGrows(r, c, o);
    LongerRecordsAll(Ref(r.remote, b), Ref(Execute(r, c, o).remote, b), vs);
  }

  /** A push under the name of the branch, or under HEAD, that exits 0 leaves the remote branch
      equal to it; in the middle of a rebase too, when a push under HEAD cannot exit 0. */
  lemma PushDelivers(r: Repo, o: Outcome, name: Branch, b: Branch)
    requires r.head == On(b) || r.head.Detached?
    requires name == b || name == "HEAD"
    requires Answer(r, Push(name), o).Ok()
    ensures Ref(Execute(r, Push(name), o).remote, b) == Ref(r.branches, b)
         == Ref(Execute(r, Push(name), o).branches, b)
  {
  }

  /** A commit that exits 0 records exactly the versions by which the index differed from HEAD. */
  lemma CommitRecords(r: Repo, tag: Tag, o: Outcome, b: Branch)
    requires r.head == On(b) && Answer(r, CommitIndex(tag), o).Ok()
    ensures var r' := Execute(r, CommitIndex(tag), o);
            && r'.head == On(b)
            && Ref(r'.branches, b) == Ref(r.branches, b) + [Commit(tag, r.index)]
            && RecordsAll(Ref(r'.branches, b), Delta(HeadTree(r), HeadTree(r')))
            && HeadTree(r') != HeadTree(r)
            && InStep(r')
  {
    CommitRecordsItsDelta(Ref(r.branches, b), Commit(tag, r.index));
  }

  // ---- Index and HEAD --------------------------------------------------------------------

  /** Commands that neither stage, inspect nor commit. */
  predicate Pushes(c: Command) {
    c.CurrentBranch? || c.Fetch? || c.Rebase? || c.Push? || c.Abort?
  }

  /** A push-cycle command keeps the index in step with HEAD unless it leaves a rebase in progress;
      one that ends a rebase in progress puts it in step. */
  lemma PushCommandsKeepStep(r: Repo, c: Command, o: Outcome, b: Branch)
    requires Placed(r, b) && (r.stopped.None? ==> InStep(r))
    requires Pushes(c)
    requires Execute(r, c, o).stopped.None?
    ensures InStep(Execute(r, c, o))
  {
    if Settled(r, b) {
      SettledKeepsStep(r, c, o, b);
    } else {
      hide Execute, Mid, InStep;
      MidStep(r, c, o, b);
    }
  }

  lemma SettledKeepsStep(r: Repo, c: Command, o: Outcome, b: Branch)
    requires Settled(r, b) && InStep(r) && Pushes(c)
    requires Execute(r, c, o).stopped.None?
    ensures InStep(Execute(r, c, o))
  {
    hide SpotlessRefs, Rebased, Edited, Grown, Unmarked;
    WeatherIsClean(r, o, b);
    var w := Weathered(r, o);
    if c.Rebase? && Lands(w, c, o) {
      FinishedRebaseIsSettled(w, c.branch, b);
    }
  }

  /** `diff --cached --quiet` exits 0 only when index and HEAD agree, and then they do after it. */
  lemma CleanDiffMeansInStep(r: Repo, o: Outcome)
    requires Answer(r, Diff, o).Ok()
    ensures InStep(Execute(r, Diff, o))
  {
  }

  /** A commit that exits 0 leaves index and HEAD in agreement, on a branch or on a detached HEAD,
      and moves HEAD to a different tree. */
  lemma CommitMeansInStep(r: Repo, tag: Tag, o: Outcome)
    requires Answer(r, CommitIndex(tag), o).Ok()
    ensures InStep(Execute(r, CommitIndex(tag), o))
    ensures HeadTree(Execute(r, CommitIndex(tag), o)) != HeadTree(r)
    ensures Execute(r, CommitIndex(tag), o).stopped == r.stopped
  {
    hide Edited, Grown, Startable;
    var w := Weathered(r, o);
    assert HeadHistory(w) == HeadHistory(r);
    var t := MoveHead(w, HeadHistory(w) + [Commit(tag, w.index)]);
    assert HeadHistory(t) == HeadHistory(w) + [Commit(tag, w.index)];
  }
}
