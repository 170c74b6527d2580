/** When a headless run that stops before it commits leaves the file system as it found it. */
module HeadlessPromise {
  import opened Wrappers
  import opened Models
  import opened DiskTree
  import opened DiskWriter
  import opened Reconcile
  import opened CreatedDir
  import opened Layerer
  import opened SharedState
  import opened Composition
  import opened Sessions
  import opened OneTemplate
  import opened Batch
  import opened Invocation

  // ---------------------------------------------------- what always survives

  /** Neither tracked nor produced by any merge, and not the state file. */
  ghost predicate Foreign(env: Env, t: Tree, f: Path) {
    f !in env.load(t) && f != STATE_FILE && forall prev, curr :: f !in env.merge(prev, env.load(t), curr)
  }

  /** A run that has not committed never loses or changes a file of the target that it has
      nothing to do with, headless or not, whatever failed. */
  lemma ForeignFilesSurvive(env: Env, w: World, cacheOn: bool, trusted: bool, t: Tree, r: RunResult, inner: Tree,
                            f: Path)
    requires RunEnds(env, w, cacheOn, trusted, t, r, false, inner)
    requires IsFile(t, f) && Foreign(env, t, f)
    ensures f in inner && inner[f] == t[f]
  {
    hide RunEnds, PartlyCleaned, TornAfter, WriteMustFail, WrittenAll, Survivors, RecordedUpTo, RecordingStops;
    UncommittedIsUnfinished(env, w, cacheOn, trusted, t, r, inner);
    var upgraded, answers, m, at :| UnfinishedAt(env, t, upgraded, answers, m, at, inner);
    UntrackedSurvive(env, t, upgraded, answers, m, at, inner);
    assert at.Unchanged? ==> inner == t;
  }

  // --------------------------------------------------- runs of one template

  /** A run that adds one template, with no call failing up to the write. */
  ghost predicate AddsOneTemplate(env: Env, t: Tree) {
    && env.DepsOf(SPEC) == DEPS && env.fetch(SPEC) == TEMPLATE && env.commandsOf(TEMPLATE) == []
    && env.plan(t) == Some(Plan([], [SPEC], [SPEC]))
    && !env.fails(CheckHistory) && Reached(env, Current, 0) && !env.fails(LoadLocal) && !env.fails(MergeFiles)
    && !env.fails(CleanUp) && !env.fails(WriteFiles)
  }

  /** Its batch executes the template and goes on to the disk, in every run. */
  lemma PlanRuns(env: Env, t: Tree, prev: Executed, curr: Executed)
    requires AddsOneTemplate(env, t)
    ensures RanPlan(env, OneFileWorld(), true, env.plan(t).value, prev, curr) <==> prev == NOTHING && curr == EXECUTED
    ensures !SomeTemplateFails(env, OneFileWorld(), true, env.plan(t).value)
  {
    hide Uncached, OneFileWorld;
    var w, specs := OneFileWorld(), [SPEC];
    assert specs[..0] == [];
    NoCommands(env);
    forall vfs, shared ensures IsRunOf(env, w, SPEC, vfs, shared) <==> vfs == OUTPUT && shared == AFTER_RUN {
      OnlyRun(env, vfs, shared);
    }
    NeverBreaks(env);
    OneExecution(env, curr);
  }

  /** Every run of this kind gets to the disk; it commits exactly when its batch finishes. */
  lemma RunReachesDisk(env: Env, t: Tree, r: RunResult, committed: bool, inner: Tree)
      returns (at: DiskStage, nodes: Tree)
    requires AddsOneTemplate(env, t) && RunEnds(env, OneFileWorld(), false, true, t, r, committed, inner)
    ensures AtDisk(env, t, r, committed, inner, at, nodes)
  {
    hide RunsBatch, OneFileWorld, AtDisk;
    assert PlanSettled(env, OneFileWorld(), false, env.plan(t).value);
    var batch, prev, curr, m, at', nodes' :| RunsBatch(env, OneFileWorld(), true, env.plan(t).value, t, r, committed,
                                                       inner, batch, prev, curr, m, at', nodes');
    at, nodes := at', nodes';
    BatchReachesDisk(env, t, r, committed, inner, batch, prev, curr, m, at, nodes);
  }

  ghost predicate AtDisk(env: Env, t: Tree, r: RunResult, committed: bool, inner: Tree, at: DiskStage, nodes: Tree) {
    && LeftBy(env, t, [SPEC], EXECUTED.answers, MergedFrom(env, t, map[], OUTPUT), at, nodes)
    && (at.Writing? || at.Recording?) && (committed <==> Finished([SPEC], at))
    && (at.Recording? && at.saved == 0 ==> RecordingStops(env, nodes, 0))
    && (!committed ==> inner == nodes && r == RunFailed)
    && (committed && env.fails(SaveState) ==>
          r == RunFailed && exists conflicts :: PartlySaved(nodes, env.stateFile(nodes, conflicts), inner))
  }

  lemma BatchReachesDisk(env: Env, t: Tree, r: RunResult, committed: bool, inner: Tree, batch: BatchResult,
                         prev: Executed, curr: Executed, m: Merged, at: DiskStage, nodes: Tree)
    requires AddsOneTemplate(env, t)
    requires RunsBatch(env, OneFileWorld(), true, env.plan(t).value, t, r, committed, inner, batch, prev, curr, m,
                       at, nodes)
    ensures AtDisk(env, t, r, committed, inner, at, nodes)
  {
    hide LeftBy, RanPlan, SomeTemplateFails, OneFileWorld, PartlySaved, Horizontal, AskedBy, RecordingStops;
    PlanRuns(env, t, prev, curr);
    NeverAsks(env, t);
    OneOutput(NOTHING);
    OneOutput(EXECUTED);
    NotCleaning(env, t, [SPEC], EXECUTED.answers, m, at, nodes);
    assert !batch.BatchAsked?;
  }

  lemma NotCleaning(env: Env, t: Tree, upgraded: seq<TemplateSpec>, answers: map<string, Answers>, m: Merged,
                    at: DiskStage, nodes: Tree)
    requires !env.fails(CleanUp)
    ensures LeftBy(env, t, upgraded, answers, m, at, nodes) ==>
              !at.Cleaning? && (at.Recording? ==> at.saved <= |upgraded|)
  {
    hide PartlyCleaned, TornAfter, WriteMustFail, Recorded, Survivors, WrittenAll;
  }

  lemma NeverAsks(env: Env, t: Tree)
    requires AddsOneTemplate(env, t)
    ensures forall question ::
              !AskedBy(env, OneFileWorld(), true, [], question) && !AskedBy(env, OneFileWorld(), true, [SPEC], question)
  {
    hide OneFileWorld, IsRunOf;
    forall vfs, shared ensures IsRunOf(env, OneFileWorld(), SPEC, vfs, shared) ==> shared == AFTER_RUN {
      OnlyRun(env, vfs, shared);
    }
  }

  // ------------------------------------------------------------- witnesses

  /** The merge gives one new file; the template's record and the state file of the commit are
      given, and one call fails. */
  function OneNameEnv(failing: Call, name: string, record: Bytes, state: Bytes): Env {
    OneTemplateEnv(c => c == failing, map[], map[[name] := []]).(metadata := (_, _, _) => record,
                                                                 stateFile := (_, _) => state)
  }

  /** The disk work of a run that only adds a file. */
  lemma OnlyAddsFile(env: Env, t: Tree, name: string, m: Merged, at: DiskStage, nodes: Tree)
    requires WellFormed(t) && [name] !in t && m.local == map[] && m.files == map[[name] := []] && !env.fails(WriteFiles)
    requires LeftBy(env, t, [SPEC], EXECUTED.answers, m, at, nodes) && (at.Writing? || at.Recording?)
    ensures at.Recording? && at.saved <= 1 && RecordsReached(env, at.saved)
    ensures RecordedUpTo(env, Named(t, name), [SPEC], EXECUTED.answers, at.saved, nodes)
  {
    hide WellFormed, WrittenAll, Survivors, RecordedUpTo;
    CleanedNothing(t, m.files);
    if at.Writing? {
      var order :| BlocksWrite(t, m.files, at.written, order);
      WritesOneName(t, name, order);
    } else {
      WritesOneName(t, name, at.order);
    }
  }

  /** How every such run ends, up to the commit. */
  lemma OneNameRun(failing: Call, name: string, record: Bytes, state: Bytes, t: Tree, r: RunResult, committed: bool,
                   inner: Tree)
      returns (nodes: Tree)
    requires WellFormed(t) && [name] !in t && failing in {FetchMetadata(0), Call.SaveMetadata(0), SaveState}
    requires RunEnds(OneNameEnv(failing, name, record, state), OneFileWorld(), false, true, t, r, committed, inner)
    ensures var env := OneNameEnv(failing, name, record, state);
            if committed then
              failing == SaveState && nodes == Named(t, name)[STATE_FILE := File(record)]
                && r == RunFailed && PartlySaved(nodes, state, inner)
            else
              && r == RunFailed && inner == nodes && RecordingStops(env, nodes, 0)
              && if failing == FetchMetadata(0) then nodes == Named(t, name)
                 else PartlySaved(Named(t, name), record, nodes)
  {
    hide RunEnds, LeftBy, OneFileWorld, PartlySaved, OneNameEnv, RecordingStops, AddsOneTemplate, WellFormed;
    var env := OneNameEnv(failing, name, record, state);
    OneNameWrites(failing, name, record, state);
    var at;
    at, nodes := RunReachesDisk(env, t, r, committed, inner);
    OnlyAddsFile(env, t, name, MergedFrom(env, t, map[], OUTPUT), at, nodes);
    OneNameRecorded(failing, name, record, state, Named(t, name), at.saved, nodes);
  }

  lemma OneNameWrites(failing: Call, name: string, record: Bytes, state: Bytes)
    requires failing in {FetchMetadata(0), Call.SaveMetadata(0), SaveState}
    ensures var env := OneNameEnv(failing, name, record, state);
            && (forall t :: AddsOneTemplate(env, t)
                            && MergedFrom(env, t, map[], OUTPUT) == Merged(map[], OUTPUT, map[], map[[name] := []]))
            && env.fails(failing) && !env.fails(WriteFiles) && (env.fails(SaveState) <==> failing == SaveState)
            && (env.fails(FetchMetadata(0)) <==> failing == FetchMetadata(0))
            && (env.fails(Call.SaveMetadata(0)) <==> failing == Call.SaveMetadata(0))
            && (forall nodes, conflicts :: env.stateFile(nodes, conflicts) == state)
            && (forall t, spec, answers :: env.metadata(t, spec, answers) == record)
  {
  }

  lemma OneNameRecorded(failing: Call, name: string, record: Bytes, state: Bytes, t: Tree, saved: nat, nodes: Tree)
    requires saved <= 1 && failing in {FetchMetadata(0), Call.SaveMetadata(0), SaveState}
    ensures RecordsReached(OneNameEnv(failing, name, record, state), saved) <==> saved == 0 || failing == SaveState
    ensures RecordedUpTo(OneNameEnv(failing, name, record, state), t, [SPEC], EXECUTED.answers, saved, nodes) <==>
              if saved == 1 then nodes == t[STATE_FILE := File(record)]
              else if failing == FetchMetadata(0) then nodes == t
              else PartlySaved(t, record, nodes)
  {
    hide PartlySaved, Recorded, OneNameEnv, FinalAnswers;
    var env := OneNameEnv(failing, name, record, state);
    OneNameWrites(failing, name, record, state);
    NothingRecorded(env, t, [SPEC], EXECUTED.answers);
    NextRecorded(env, t, [SPEC], EXECUTED.answers, 0);
  }

  /** Such runs exist. */
  lemma OneNameRunExists(failing: Call, name: string, record: Bytes, state: Bytes, t: Tree, saved: nat, nodes: Tree,
                         inner: Tree)
    requires WellFormed(t) && [name] !in t && failing in {FetchMetadata(0), Call.SaveMetadata(0), SaveState}
    requires var env := OneNameEnv(failing, name, record, state);
             && saved <= 1 && RecordsReached(env, saved)
             && RecordedUpTo(env, Named(t, name), [SPEC], EXECUTED.answers, saved, nodes)
             && if saved == 0 then RecordingStops(env, nodes, 0) && inner == nodes
                else env.fails(SaveState) && CommitLeaves(env, nodes, [], [], inner)
    ensures RunEnds(OneNameEnv(failing, name, record, state), OneFileWorld(), false, true, t, RunFailed, saved == 1,
                    inner)
  {
    hide OneFileWorld, RanPlan, Horizontal, LeftBy, SomeTemplateFails, AskedBy, CommitLeaves, PartlySaved, WellFormed,
         LastReports, RecordedUpTo, RecordingStops, RecordsReached, OneNameEnv;
    var env, w := OneNameEnv(failing, name, record, state), OneFileWorld();
    OneNameWrites(failing, name, record, state);
    var m, at := MergedFrom(env, t, map[], OUTPUT), Recording([[name]], saved);
    PlanRuns(env, t, NOTHING, EXECUTED);
    OneOutput(NOTHING);
    OneOutput(EXECUTED);
    NameLeft(env, t, name, m, saved, nodes);
    var plan := env.plan(t).value;
    assert Executes(env, w, true, plan, t, NOTHING, EXECUTED, m, at, nodes);
    var batch := if saved == 0 then BatchFailed else BatchDone([], [], []);
    NoConflicts(env);
    assert LayeredLast(w, NOTHING, EXECUTED, [], []) && RanLast(env, w, true, plan, NOTHING, EXECUTED, []);
    assert GoesOn(env, batch, nodes, RunFailed, saved == 1, inner);
    assert PlanSettled(env, w, false, plan);
    RunOfBatch(env, w, false, true, t, RunFailed, saved == 1, inner, batch, NOTHING, EXECUTED, m, at, nodes);
  }

  lemma NameLeft(env: Env, t: Tree, name: string, m: Merged, saved: nat, nodes: Tree)
    requires WellFormed(t) && [name] !in t && m.local == map[] && m.files == map[[name] := []]
    requires saved <= 1 && RecordsReached(env, saved)
    requires RecordedUpTo(env, Named(t, name), [SPEC], EXECUTED.answers, saved, nodes)
    ensures LeftBy(env, t, [SPEC], EXECUTED.answers, m, Recording([[name]], saved), nodes)
  {
    hide WellFormed, WrittenAll, Survivors, RecordedUpTo, RecordsReached;
    CleanedNothing(t, m.files);
    WritesOneName(t, name, [[name]]);
  }

  /** Writes succeed, then fetching the template for its record fails: such runs fail
      uncommitted, with their file left in the target. */
  lemma FailedMetadataLeavesFile(t: Tree, name: string, record: Bytes, state: Bytes, r: RunResult, committed: bool,
                                 inner: Tree)
    requires WellFormed(t) && [name] !in t
    ensures RunEnds(OneNameEnv(FetchMetadata(0), name, record, state), OneFileWorld(), false, true, t, r, committed,
                    inner)
            <==> r == RunFailed && !committed && inner == Named(t, name)
  {
    hide RunEnds, OneFileWorld, OneNameEnv, RecordedUpTo, PartlySaved, WellFormed;
    var env := OneNameEnv(FetchMetadata(0), name, record, state);
    if RunEnds(env, OneFileWorld(), false, true, t, r, committed, inner) {
      var nodes := OneNameRun(FetchMetadata(0), name, record, state, t, r, committed, inner);
    }
    OneNameRecorded(FetchMetadata(0), name, record, state, Named(t, name), 0, Named(t, name));
    OneNameWrites(FetchMetadata(0), name, record, state);
    OneNameRunExists(FetchMetadata(0), name, record, state, t, 0, Named(t, name), Named(t, name));
  }

  /** Writes succeed, then saving the template's record fails: such runs fail uncommitted, with
      their file left, and with the state file as it was or cut off anywhere. */
  lemma FailedRecordCutsState(t: Tree, name: string, record: Bytes, state: Bytes, r: RunResult, committed: bool,
                              inner: Tree)
    requires WellFormed(t) && [name] !in t
    ensures RunEnds(OneNameEnv(Call.SaveMetadata(0), name, record, state), OneFileWorld(), false, true, t, r,
                    committed, inner)
            <==> r == RunFailed && !committed && PartlySaved(Named(t, name), record, inner)
  {
    hide RunEnds, OneFileWorld, OneNameEnv, RecordedUpTo, PartlySaved, WellFormed;
    var env := OneNameEnv(Call.SaveMetadata(0), name, record, state);
    if RunEnds(env, OneFileWorld(), false, true, t, r, committed, inner) {
      var nodes := OneNameRun(Call.SaveMetadata(0), name, record, state, t, r, committed, inner);
    }
    if PartlySaved(Named(t, name), record, inner) {
      OneNameRecorded(Call.SaveMetadata(0), name, record, state, Named(t, name), 0, inner);
      OneNameWrites(Call.SaveMetadata(0), name, record, state);
      OneNameRunExists(Call.SaveMetadata(0), name, record, state, t, 0, inner, inner);
    }
  }

  /** So a run that fails can lose the recorded history: the state file of the target ends empty,
      whatever was in it. */
  lemma FailedSaveLosesHistory(t: Tree, name: string, history: Bytes, record: Bytes, state: Bytes)
    requires WellFormed(t) && [name] !in t && STATE_FILE in t && t[STATE_FILE] == File(history)
    ensures RunEnds(OneNameEnv(Call.SaveMetadata(0), name, record, state), OneFileWorld(), false, true, t, RunFailed,
                    false, Named(t, name)[STATE_FILE := File([])])
  {
    hide RunEnds, OneFileWorld, OneNameEnv, WellFormed;
    var inner := Named(t, name)[STATE_FILE := File([])];
    assert record[..0] == [];
    assert TornState(Named(t, name), record, 0, inner);
    FailedRecordCutsState(t, name, record, state, RunFailed, false, inner);
  }

  /** Everything works but saving the state file after the commit: such runs fail committed, with
      the template recorded or the state file cut off anywhere. */
  lemma FailedStateSaveIsCommitted(t: Tree, name: string, record: Bytes, state: Bytes, r: RunResult, committed: bool,
                                   inner: Tree)
    requires WellFormed(t) && [name] !in t && !IsDir(t, STATE_FILE)
    ensures RunEnds(OneNameEnv(SaveState, name, record, state), OneFileWorld(), false, true, t, r, committed, inner)
            <==> r == RunFailed && committed && PartlySaved(Named(t, name)[STATE_FILE := File(record)], state, inner)
  {
    hide RunEnds, OneFileWorld, OneNameEnv, RecordedUpTo, PartlySaved, WellFormed;
    var env, nodes := OneNameEnv(SaveState, name, record, state), Named(t, name)[STATE_FILE := File(record)];
    OneNameWrites(SaveState, name, record, state);
    if RunEnds(env, OneFileWorld(), false, true, t, r, committed, inner) {
      var reached := OneNameRun(SaveState, name, record, state, t, r, committed, inner);
      if !committed { PartlySavedKeepsFiles(Named(t, name), record, reached); }
    }
    if PartlySaved(nodes, state, inner) {
      OneNameRecorded(SaveState, name, record, state, Named(t, name), 1, nodes);
      OneNameRunExists(SaveState, name, record, state, t, 1, nodes, inner);
    }
  }

  /** No call fails, but an untracked file is in the way of the one file to write: every such run
      fails uncommitted, after it has deleted the file that the merge dropped. */
  lemma FailedWriteDeletesFile(x: Bytes, y: Bytes, r: RunResult, committed: bool, inner: Tree)
    requires RunEnds(OneTemplateEnv(_ => false, map[TRACKED := y], map[["a", "b"] := []]), OneFileWorld(), false, true,
                     TwoFiles(x, y), r, committed, inner)
    ensures r == RunFailed && !committed && inner == map[UNTRACKED := File(x)] != TwoFiles(x, y)
  {
    hide RunEnds, OneFileWorld, Survivors, WellFormed, Blocked, WrittenAll, Recorded;
    var merged: map<Path, Bytes> := map[["a", "b"] := []];
    var env, t := OneTemplateEnv(_ => false, map[TRACKED := y], merged), TwoFiles(x, y);
    var at, nodes := RunReachesDisk(env, t, r, committed, inner);
    TwoFilesCleaned(x, y);
    var left: Tree := map[UNTRACKED := File(x)];
    if at.Recording? {
      assert ["a", "b"] in at.order;
      BlockedFails(left, merged, at.order, ["a", "b"]);
    } else if at.written != [] {
      assert at.written[0] in at.written && ["a", "b"] in at.written;
      BlockedFails(left, merged, at.written, ["a", "b"]);
    } else {
      NothingWritten(left, merged);
    }
    assert TRACKED in t && TRACKED !in left;
  }

  // ------------------------------------------------------------ the promise

  /** Where removing the created directory works, all headless runs that end before they commit
      restore the file system, if and only if a file is in the way of the target or its last
      component is all that is missing. */
  lemma RestoredIffOnlyTargetIsMissing(before: Tree, target: Path)
    requires WellFormed(before)
    ensures (forall env: Env, after: Tree ::
               !env.fails(RemoveCreated) && UncommittedEnding(env, before, target, after) ==> after == before)
            <==> LeavesNoTrace(before, target)
  {
    hide RunEnds, Mounted, View, WithDirs, WithoutTree, WellFormed, DropsTo, CreationStops;
    if LeavesNoTrace(before, target) {
      forall env: Env, after: Tree | !env.fails(RemoveCreated) && UncommittedEnding(env, before, target, after)
        ensures after == before
      {
        if CreationStops(before, target, env.fails(CreateTarget), after) {
          StoppedAtParent(before, target, env.fails(CreateTarget), after);
        } else {
          var w, cacheOn, trusted, r, inner :| EndsWith(env, w, cacheOn, trusted, before, target, r, inner, after);
          DropRestores(before, target, WithDirs(before, target).value, inner, false, after);
        }
      }
    } else if Exists(before, target) {
      var env, after := ExistingTargetChanges(before, target);
    } else {
      var env, after := ParentLeft(before, target);
    }
  }

  /** Where that removal may fail, only if a file is in the way of the target. */
  lemma RestoredDespiteRemovalIff(before: Tree, target: Path)
    requires WellFormed(before)
    ensures (forall env: Env, after: Tree :: UncommittedEnding(env, before, target, after) ==> after == before)
            <==> WithDirs(before, target).None?
  {
    hide EndsWith, WithDirs, WellFormed, DropsTo;
    if WithDirs(before, target).Some? {
      if Exists(before, target) {
        var env, after := ExistingTargetChanges(before, target);
      } else {
        var env, after := TargetLeft(before, target);
      }
    }
  }

  /** A nested new target whose last component cannot be created leaves its parent behind. */
  lemma ParentLeft(before: Tree, target: Path) returns (env: Env, after: Tree)
    requires WithDirs(before, target).Some? && !Exists(before, target) && !Exists(before, Parent(target))
    ensures !env.fails(RemoveCreated) && UncommittedEnding(env, before, target, after)
    ensures after != before && Parent(target) in after && target !in after
  {
    hide MadeDirs, FileOnTheWay, EndsWith;
    var parent := Parent(target);
    env := OneTemplateEnv(c => c == CreateTarget, map[], map[]);
    ParentCreated(before, target);
    after := WithDirs(before, parent).value;
    MadeDirsAt(before, parent, |parent|, parent);
    MadeDirsAt(before, parent, |parent|, target);
    assert Above(parent, target) && target[..|parent| + 1] == target;
    assert StopsBelow(before, target, parent, after);
    assert CreationStops(before, target, true, after);
  }

  /** A run whose plan fails and whose removal fails too leaves the new target. */
  lemma TargetLeft(before: Tree, target: Path) returns (env: Env, after: Tree)
    requires WellFormed(before) && WithDirs(before, target).Some? && !Exists(before, target)
    ensures UncommittedEnding(env, before, target, after) && after != before
  {
    hide Mounted, View, WithDirs, OneFileWorld, WellFormed, IsFirstUncreated, RunsBatch;
    env := OneTemplateEnv(c => c == CheckHistory || c == RemoveCreated, map[], map[]);
    var made := WithDirs(before, target).value;
    var t := View(made, target);
    after := made;
    MountedView(made, target);
    assert target[..|target|] == target;
    var first := FirstMissing(before, target, |target|);
    assert RemovesFrom(before, target, first, made, true, after);
    assert EndsWith(env, OneFileWorld(), false, true, before, target, RunFailed, t, after);
    CommittedNeverRestores(before, target, t);
  }

  /** In every target that exists, a run that cannot record its template leaves its file. */
  lemma ExistingTargetChanges(before: Tree, target: Path) returns (env: Env, after: Tree)
    requires WellFormed(before) && WithDirs(before, target).Some? && Exists(before, target)
    ensures !env.fails(RemoveCreated) && UncommittedEnding(env, before, target, after) && after != before
  {
    hide RunEnds, Mounted, View, WithDirs, OneFileWorld;
    NothingToCreate(before, target);
    ViewIsWellFormed(before, target);
    var t := View(before, target);
    var name := FreshName(t);
    var inner := Named(t, name);
    env, after := OneNameEnv(FetchMetadata(0), name, [], []), Mounted(before, target, inner);
    FailedMetadataLeavesFile(t, name, [], [], RunFailed, false, inner);
    assert EndsWith(env, OneFileWorld(), false, true, before, target, RunFailed, inner, after);
    MountChanges(before, target, inner);
  }

}
