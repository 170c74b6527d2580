/** One invocation of the tool, from creating the target directory to releasing sessions at
    the command boundary. */
module Invocation {
  import opened Wrappers
  import opened Models
  import opened DiskTree
  import opened DiskWriter
  import opened CreatedDir
  import opened Layerer
  import opened SharedState
  import opened Composition
  import opened Operator
  import opened Sessions
  import opened Batch

  datatype RunResult =
    | Completed(sessions: seq<string>, needInput: Option<Question>)
    | RunFailed

  // ------------------------------------------------- how a run leaves things

  /** A batch that did not finish ends like this on the tree `t` of the target. */
  ghost predicate UnfinishedAt(env: Env, t: Tree, upgraded: seq<TemplateSpec>, answers: map<string, Answers>, m: Merged,
                               at: DiskStage, inner: Tree) {
    && LeftBy(env, t, upgraded, answers, m, at, inner) && !Finished(upgraded, at)
    && (!at.Unchanged? ==> m == MergedFrom(env, t, m.prev, m.curr))
    && (at.Recording? ==> RecordingStops(env, inner, at.saved))
  }

  ghost predicate LeftUnfinished(env: Env, t: Tree, inner: Tree) {
    exists upgraded, answers, m, at :: UnfinishedAt(env, t, upgraded, answers, m, at, inner)
  }

  /** What the commit leaves of the tree that the batch left. */
  ghost predicate CommitLeaves(env: Env, nodes: Tree, conflicts: seq<ConflictEntry>, commands: seq<string>,
                               inner: Tree) {
    var content := env.stateFile(nodes, conflicts);
    if env.fails(SaveState) || IsDir(nodes, STATE_FILE) then PartlySaved(nodes, content, inner)
    else
      var saved := nodes[STATE_FILE := File(content)];
      inner == if commands == [] then saved else BelowTarget(env.runCommands(saved, commands))
  }

  /** The target directory itself is not among the files below it. */
  function BelowTarget(t: Tree): Tree { t - {[]} }

  predicate CommitSucceeds(env: Env, nodes: Tree, commands: seq<string>) {
    !env.fails(SaveState) && !IsDir(nodes, STATE_FILE) && (commands != [] ==> !env.fails(RunCommands))
  }

  /** How the run goes on after its batch. */
  ghost predicate GoesOn(env: Env, batch: BatchResult, nodes: Tree, r: RunResult, committed: bool, inner: Tree) {
    match batch
    case BatchFailed => r == RunFailed && !committed && inner == nodes
    case BatchAsked(ids, question) => r == Completed(ids, Some(question)) && !committed && inner == nodes
    case BatchDone(ids, conflicts, commands) =>
      && committed && CommitLeaves(env, nodes, conflicts, commands, inner)
      && r == if CommitSucceeds(env, nodes, commands) then Completed(ids, None) else RunFailed
  }

  /** Whatever the plan, the key materials its runs get to are known. */
  ghost predicate RunForeseen(env: Env, w: World, cacheOn: bool) {
    forall t :: env.plan(t).Some? ==> PlanForeseen(env, w, cacheOn, env.plan(t).value)
  }

  ghost predicate RunsBatch(env: Env, w: World, trusted: bool, plan: Plan, t: Tree, r: RunResult, committed: bool,
                            inner: Tree,
                            batch: BatchResult, prev: Executed, curr: Executed, m: Merged, at: DiskStage, nodes: Tree) {
    && BatchEnds(env, w, trusted, plan, t, batch, prev, curr, m, at, nodes)
    && GoesOn(env, batch, nodes, r, committed, inner)
  }

  /** How a run ends whose target's tree is `t` when it starts. */
  ghost predicate RunEnds(env: Env, w: World, cacheOn: bool, trusted: bool, t: Tree, r: RunResult, committed: bool,
                          inner: Tree) {
    if env.fails(CheckHistory) || env.plan(t).None? then r == RunFailed && !committed && inner == t
    else
      var plan := env.plan(t).value;
      var sure := trusted && PlanSettled(env, w, cacheOn, plan);
      exists batch, prev, curr, m, at, nodes ::
        RunsBatch(env, w, sure, plan, t, r, committed, inner, batch, prev, curr, m, at, nodes)
  }

  /** A headless run that has created its target but has not committed ends like this. */
  ghost predicate EndsWith(env: Env, w: World, cacheOn: bool, trusted: bool, before: Tree, target: Path, r: RunResult,
                           inner: Tree, after: Tree)
    requires WithDirs(before, target).Some?
  {
    var made := WithDirs(before, target).value;
    && RunEnds(env, w, cacheOn, trusted, View(made, target), r, false, inner) && [] !in inner
    && DropsTo(before, target, made, inner, env.fails(RemoveCreated), after)
  }

  /** Some headless run that has not committed leaves the file system like this.  A run that fails
      to create its target has no guard yet. */
  ghost predicate UncommittedEnding(env: Env, before: Tree, target: Path, after: Tree) {
    || CreationStops(before, target, env.fails(CreateTarget), after)
    || (WithDirs(before, target).Some? && exists w, cacheOn, trusted, r, inner ::
          EndsWith(env, w, cacheOn, trusted, before, target, r, inner, after))
  }

  lemma RunOfBatch(env: Env, w: World, cacheOn: bool, trusted: bool, t: Tree, r: RunResult, committed: bool,
                   inner: Tree, batch: BatchResult, prev: Executed, curr: Executed, m: Merged, at: DiskStage,
                   nodes: Tree)
    requires !env.fails(CheckHistory) && env.plan(t).Some?
    requires var plan := env.plan(t).value;
             RunsBatch(env, w, trusted && PlanSettled(env, w, cacheOn, plan), plan, t, r, committed, inner, batch,
                       prev, curr, m, at, nodes)
    ensures RunEnds(env, w, cacheOn, trusted, t, r, committed, inner)
  {
    hide RunsBatch, PlanSettled;
  }

  // ------------------------------------------------------------ the methods

  /** Runs a batch against the target's tree and commits, or stops before.  The guard of the
      created directory stays armed exactly while the run has not committed. */
  method RunInTarget(env: Env, op: CompositionOperator, inner: Disk, guard: CreatedDirGuard)
      returns (r: RunResult, ghost gained: seq<string>, ghost committed: bool)
    requires Ready(op) && WellFormed(inner.nodes) && guard.armed
    modifies op`generated, op`fileConflicts, op.cache, op.cache.store, op.coordinator, inner, guard
    ensures op.coordinator.handed == old(op.coordinator.handed) + gained
    ensures r.Completed? ==> r.sessions == gained && op.coordinator.released == old(op.coordinator.released)
    ensures r.RunFailed? ==>
              multiset(op.coordinator.released) == multiset(old(op.coordinator.released)) + multiset(gained)
    ensures guard.armed <==> !committed
    ensures [] !in inner.nodes
    ensures old(Trusted(op)) && RunForeseen(env, op.w, op.cache.enabled) ==> Trusted(op)
    ensures RunEnds(env, op.w, op.cache.enabled, old(Trusted(op)), old(inner.nodes), r, committed, inner.nodes)
  {
    hide RunEnds, RunsBatch, BatchEnds, GoesOn, Trusted, ResultsFit, PlanSettled, RunForeseen;
    ghost var t := inner.nodes;
    gained, committed := [], false;
    var plan := env.plan(inner.nodes);
    RunStarts(env, op.w, op.cache.enabled, old(Trusted(op)), t);
    if env.fails(CheckHistory) || plan.None? {
      return RunFailed, gained, committed;
    }
    var batch;
    ghost var prev, curr, m, at;
    batch, gained, prev, curr, m, at := BatchProcess(env, op, inner, plan.value);
    ghost var nodes := inner.nodes;
    r, committed := GoOn(env, op.coordinator, inner, guard, batch);
    BatchGoesOn(env, op.w, old(Trusted(op)) && PlanSettled(env, op.w, op.cache.enabled, plan.value), plan.value, t, r,
                committed, inner.nodes, batch, prev, curr, m, at, nodes);
    RunOfBatch(env, op.w, op.cache.enabled, old(Trusted(op)), t, r, committed, inner.nodes, batch, prev, curr, m, at,
               nodes);
  }

  /** Past its batch a run commits and completes, or stops. */
  method GoOn(env: Env, coordinator: Coordinator, inner: Disk, guard: CreatedDirGuard, batch: BatchResult)
      returns (r: RunResult, ghost committed: bool)
    requires WellFormed(inner.nodes) && guard.armed
    modifies coordinator`released, inner, guard
    ensures GoesOn(env, batch, old(inner.nodes), r, committed, inner.nodes)
    ensures coordinator.released == old(coordinator.released)
                                    + (if batch.BatchDone? && r.RunFailed? then batch.sessions else [])
    ensures r.Completed? ==> !batch.BatchFailed? && r.sessions == batch.sessions
    ensures batch.BatchAsked? ==> r.Completed?
    ensures guard.armed <==> !committed
    ensures [] !in inner.nodes
  {
    hide CommitLeaves, CommitSucceeds;
    committed := false;
    match batch {
      case BatchFailed =>
        r := RunFailed;
      case BatchAsked(ids, question) =>
        r := Completed(ids, Some(question));
      case BatchDone(ids, conflicts, commands) =>
        guard.Disarm();
        committed := true;
        r := Commit(env, coordinator, inner, ids, conflicts, commands);
    }
  }

  lemma RunStarts(env: Env, w: World, cacheOn: bool, trusted: bool, t: Tree)
    ensures env.fails(CheckHistory) || env.plan(t).None? ==> RunEnds(env, w, cacheOn, trusted, t, RunFailed, false, t)
    ensures env.plan(t).Some? && RunForeseen(env, w, cacheOn) ==>
              PlanForeseen(env, w, cacheOn, env.plan(t).value)
  {
    hide PlanForeseen;
  }

  lemma BatchGoesOn(env: Env, w: World, trusted: bool, plan: Plan, t: Tree, r: RunResult, committed: bool,
                    inner: Tree, batch: BatchResult, prev: Executed, curr: Executed, m: Merged, at: DiskStage,
                    nodes: Tree)
    requires BatchEnds(env, w, trusted, plan, t, batch, prev, curr, m, at, nodes)
    requires GoesOn(env, batch, nodes, r, committed, inner)
    ensures RunsBatch(env, w, trusted, plan, t, r, committed, inner, batch, prev, curr, m, at, nodes)
  {
    hide BatchEnds, GoesOn;
  }

  /** A run that does not commit leaves the target as an unfinished batch does, and unchanged
      when it asks. */
  lemma UncommittedIsUnfinished(env: Env, w: World, cacheOn: bool, trusted: bool, t: Tree, r: RunResult, inner: Tree)
    requires RunEnds(env, w, cacheOn, trusted, t, r, false, inner)
    ensures LeftUnfinished(env, t, inner)
    ensures r.Completed? ==> r.needInput.Some? && inner == t
  {
    hide RunsBatch, PlanSettled;
    assert UnfinishedAt(env, t, [], map[], Merged(map[], map[], map[], map[]), Unchanged, t);
    if !env.fails(CheckHistory) && env.plan(t).Some? {
      var plan := env.plan(t).value;
      var sure := trusted && PlanSettled(env, w, cacheOn, plan);
      var batch, prev, curr, m, at, nodes :| RunsBatch(env, w, sure, plan, t, r, false, inner, batch, prev, curr, m,
                                                       at, nodes);
      BatchIsUnfinished(env, w, sure, plan, t, r, inner, batch, prev, curr, m, at, nodes);
    }
  }

  lemma BatchIsUnfinished(env: Env, w: World, trusted: bool, plan: Plan, t: Tree, r: RunResult, inner: Tree,
                          batch: BatchResult, prev: Executed, curr: Executed, m: Merged, at: DiskStage, nodes: Tree)
    requires RunsBatch(env, w, trusted, plan, t, r, false, inner, batch, prev, curr, m, at, nodes)
    ensures LeftUnfinished(env, t, inner)
    ensures r.Completed? ==> r.needInput.Some? && inner == t
  {
    hide RanPlan, SomeTemplateFails, AskedBy, Horizontal, MergedFrom, CommitLeaves, CommitSucceeds, RecordsReached,
         RecordedUpTo, RecordingStops, TornAfter, WriteMustFail, PartlyCleaned, WrittenAll, Survivors;
    assert UnfinishedAt(env, t, [], map[], Merged(map[], map[], map[], map[]), Unchanged, t);
    if batch.BatchFailed? && (!at.Unchanged? || nodes != t) {
      assert UnfinishedAt(env, t, plan.upgraded, curr.answers, m, at, nodes);
    }
  }

  /** After the commit: save the state file, run the commands, hand the sessions over. */
  method Commit(env: Env, coordinator: Coordinator, inner: Disk, ids: seq<string>, conflicts: seq<ConflictEntry>,
                commands: seq<string>)
      returns (r: RunResult)
    requires WellFormed(inner.nodes)
    modifies inner, coordinator`released
    ensures r == if CommitSucceeds(env, old(inner.nodes), commands) then Completed(ids, None) else RunFailed
    ensures coordinator.released == old(coordinator.released) + (if r.RunFailed? then ids else [])
    ensures CommitLeaves(env, old(inner.nodes), conflicts, commands, inner.nodes)
    ensures [] !in inner.nodes
  {
    var guard := new SessionCleanupGuard(coordinator, ids);
    var saved := SaveStateFile(inner, env.stateFile(inner.nodes, conflicts), env.fails(SaveState));
    if !saved {
      guard.Drop();
      return RunFailed;
    }
    if commands != [] {
      inner.nodes := BelowTarget(env.runCommands(inner.nodes, commands));
      if env.fails(RunCommands) {
        guard.Drop();
        return RunFailed;
      }
    }
    var taken := guard.Take();
    r := Completed(taken, None);
  }

  /** How the run ends once it has created its target, whose tree ends as `inner`. */
  ghost predicate CreatedRunEnds(env: Env, w: World, cacheOn: bool, trusted: bool, before: Tree, target: Path,
                                 headless: bool, r: RunResult, committed: bool, inner: Tree, after: Tree) {
    WithDirs(before, target).Some?
    && var made := WithDirs(before, target).value;
       && RunEnds(env, w, cacheOn, trusted, View(made, target), r, committed, inner) && [] !in inner
       && if headless && !committed then DropsTo(before, target, made, inner, env.fails(RemoveCreated), after)
          else after == Mounted(made, target, inner)
  }

  /** The whole run, whose target's tree ends as `inner` if it was created.  Sessions are handed
      to the caller or released, never both and never neither.  A headless run that has not
      committed drops to the ending that its guard leaves, which is no change when it stops on
      a question and the removal works. */
  method CyanRun(env: Env, op: CompositionOperator, disk: Disk, target: Path, headless: bool)
      returns (r: RunResult, ghost gained: seq<string>, ghost created: bool, ghost committed: bool, ghost inner: Tree)
    requires Ready(op) && WellFormed(disk.nodes)
    modifies op`generated, op`fileConflicts, op.cache, op.cache.store, op.coordinator, disk
    ensures op.coordinator.handed == old(op.coordinator.handed) + gained
    ensures r.Completed? ==> r.sessions == gained && op.coordinator.released == old(op.coordinator.released)
    ensures r.RunFailed? ==>
              multiset(op.coordinator.released) == multiset(old(op.coordinator.released)) + multiset(gained)
    ensures r.Completed? ==> (r.needInput.None? <==> committed)
    ensures old(Trusted(op)) && RunForeseen(env, op.w, op.cache.enabled) ==> Trusted(op)
    ensures !created ==>
              && r == RunFailed && !committed
              && CreationStops(old(disk.nodes), target, env.fails(CreateTarget), disk.nodes)
    ensures created ==>
              CreatedRunEnds(env, op.w, op.cache.enabled, old(Trusted(op)), old(disk.nodes), target, headless, r,
                             committed, inner, disk.nodes)
    ensures headless && !committed ==> UncommittedEnding(env, old(disk.nodes), target, disk.nodes)
    ensures headless && !env.fails(RemoveCreated) && r.Completed? && r.needInput.Some? ==> disk.nodes == old(disk.nodes)
    ensures OnlyTargetChanges(old(disk.nodes), disk.nodes, target)
  {
    hide WithDirs, OnlyTargetChanges, ResultsFit, Trusted, RunForeseen, CreationStops, CreatedRunEnds,
         EndsWith, WellFormed, IsFirstUncreated;
    gained, created, committed, inner := [], false, false, map[];
    ghost var t := disk.nodes;
    var first := ShallowestUncreatedAncestor(disk.nodes, target);
    var made := disk.CreateDirAll(target, env.fails(CreateTarget));
    if !made {
      StoppedCreationStaysInside(t, target, env.fails(CreateTarget), disk.nodes);
      return RunFailed, gained, created, committed, inner;
    }
    created := true;
    r, gained, committed, inner := RunCreated(env, op, disk, target, headless, first, t);
    CreatedRunStays(env, op.w, op.cache.enabled, old(Trusted(op)), t, target, headless, r, committed, inner,
                    disk.nodes);
  }

  /** The run from the creation of the target on; `t` is the file system before it, in which
      `first` is the first component that was missing. */
  method RunCreated(env: Env, op: CompositionOperator, disk: Disk, target: Path, headless: bool, first: Option<Path>,
                    ghost t: Tree)
      returns (r: RunResult, ghost gained: seq<string>, ghost committed: bool, ghost inner: Tree)
    requires Ready(op) && WellFormed(t) && WithDirs(t, target) == Some(disk.nodes)
    requires (first.None? <==> Exists(t, target)) && (first.Some? ==> IsFirstUncreated(t, target, first.value))
    modifies op`generated, op`fileConflicts, op.cache, op.cache.store, op.coordinator, disk
    ensures op.coordinator.handed == old(op.coordinator.handed) + gained
    ensures r.Completed? ==> r.sessions == gained && op.coordinator.released == old(op.coordinator.released)
    ensures r.RunFailed? ==>
              multiset(op.coordinator.released) == multiset(old(op.coordinator.released)) + multiset(gained)
    ensures r.Completed? ==> (r.needInput.None? <==> committed)
    ensures old(Trusted(op)) && RunForeseen(env, op.w, op.cache.enabled) ==> Trusted(op)
    ensures CreatedRunEnds(env, op.w, op.cache.enabled, old(Trusted(op)), t, target, headless, r, committed, inner,
                           disk.nodes)
    ensures r.Completed? && r.needInput.Some? ==> inner == View(WithDirs(t, target).value, target)
  {
    hide WithDirs, Mounted, View, WithoutTree, DropsTo, BetweenTrees, ResultsFit, RunEnds, Trusted, RunForeseen,
         CreatedRunEnds, WellFormed, IsFirstUncreated, Exists;
    ghost var made := disk.nodes;
    WithDirsIsWellFormed(t, target);
    var guard := new CreatedDirGuard(first, headless);
    ViewIsWellFormed(made, target);
    var below := new Disk(View(disk.nodes, target));
    r, gained, committed := RunInTarget(env, op, below, guard);
    inner := below.nodes;
    RunResultFits(env, op.w, op.cache.enabled, old(Trusted(op)), View(made, target), r, committed, inner);
    disk.nodes := Mounted(disk.nodes, target, below.nodes);
    guard.Drop(disk, env.fails(RemoveCreated));
    GuardDropped(t, target, made, inner, first, headless && !committed, env.fails(RemoveCreated), disk.nodes);
    CreatedEnds(env, op.w, op.cache.enabled, old(Trusted(op)), t, target, headless, r, committed, inner, disk.nodes);
  }

  lemma CreatedEnds(env: Env, w: World, cacheOn: bool, trusted: bool, t: Tree, target: Path, headless: bool,
                    r: RunResult, committed: bool, inner: Tree, after: Tree)
    requires WithDirs(t, target).Some? && [] !in inner
    requires var made := WithDirs(t, target).value;
             && RunEnds(env, w, cacheOn, trusted, View(made, target), r, committed, inner)
             && if headless && !committed then DropsTo(t, target, made, inner, env.fails(RemoveCreated), after)
                else after == Mounted(made, target, inner)
    ensures CreatedRunEnds(env, w, cacheOn, trusted, t, target, headless, r, committed, inner, after)
  {
    hide WithDirs, RunEnds, View, Mounted, DropsTo;
  }

  /** A run that asks has changed nothing in its target, and has not committed. */
  lemma RunResultFits(env: Env, w: World, cacheOn: bool, trusted: bool, t: Tree, r: RunResult, committed: bool,
                      inner: Tree)
    requires RunEnds(env, w, cacheOn, trusted, t, r, committed, inner)
    ensures r.Completed? ==> (r.needInput.None? <==> committed)
    ensures !committed && r.Completed? ==> inner == t
  {
    hide BatchEnds, PlanSettled, CommitLeaves, CommitSucceeds, LeftUnfinished;
    if !committed {
      UncommittedIsUnfinished(env, w, cacheOn, trusted, t, r, inner);
    }
  }

  /** What a run promises that has created its target. */
  lemma CreatedRunStays(env: Env, w: World, cacheOn: bool, trusted: bool, t: Tree, target: Path, headless: bool,
                        r: RunResult, committed: bool, inner: Tree, after: Tree)
    requires WellFormed(t)
    requires CreatedRunEnds(env, w, cacheOn, trusted, t, target, headless, r, committed, inner, after)
    ensures OnlyTargetChanges(t, after, target)
    ensures headless && !committed ==> UncommittedEnding(env, t, target, after)
    ensures headless && !committed && !env.fails(RemoveCreated) && inner == View(WithDirs(t, target).value, target) ==>
              after == t
  {
    hide WithDirs, Mounted, View, RunEnds, DropsTo, OnlyTargetChanges, WellFormed, CreationStops;
    var made := WithDirs(t, target).value;
    MountChangesOnlyTarget(t, target, inner);
    if headless && !committed {
      DropRestores(t, target, made, inner, env.fails(RemoveCreated), after);
      assert EndsWith(env, w, cacheOn, trusted, t, target, r, inner, after);
    }
  }

  /** The command boundary: sessions of a completed run are released, a failed run has none. */
  method Finish(coordinator: Coordinator, r: RunResult)
    modifies coordinator`released
    ensures coordinator.released == old(coordinator.released) + (if r.Completed? then r.sessions else [])
  {
    if r.Completed? {
      for i := 0 to |r.sessions|
        invariant coordinator.released == old(coordinator.released) + r.sessions[..i]
      {
        coordinator.Clean(r.sessions[i]);
      }
      assert r.sessions[..|r.sessions|] == r.sessions;
    }
  }

  /** On every exit of an invocation, each session that an execution handed over has been
      released exactly once, and no other. */
  method Invoke(env: Env, op: CompositionOperator, disk: Disk, target: Path, headless: bool)
      returns (r: RunResult, ghost gained: seq<string>)
    requires Ready(op) && WellFormed(disk.nodes)
    modifies op`generated, op`fileConflicts, op.cache, op.cache.store, op.coordinator, disk
    ensures old(Trusted(op)) && RunForeseen(env, op.w, op.cache.enabled) ==> Trusted(op)
    ensures op.coordinator.handed == old(op.coordinator.handed) + gained
    ensures multiset(op.coordinator.released) == multiset(old(op.coordinator.released)) + multiset(gained)
    ensures headless && !env.fails(RemoveCreated) && r.Completed? && r.needInput.Some? ==> disk.nodes == old(disk.nodes)
    ensures OnlyTargetChanges(old(disk.nodes), disk.nodes, target)
  {
    hide RunEnds, DropsTo, UncommittedEnding, OnlyTargetChanges, ResultsFit, Trusted, RunForeseen, WithDirs,
         Mounted, View;
    ghost var created, committed, inner;
    r, gained, created, committed, inner := CyanRun(env, op, disk, target, headless);
    Finish(op.coordinator, r);
  }
}
