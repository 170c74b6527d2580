/** One batch: execute all templates, layer, merge with the local files, clean up, write, and
    record.  Every way it can end is characterised. */
module Batch {
  import opened Wrappers
  import opened Models
  import opened DiskTree
  import opened DiskWriter
  import opened Reconcile
  import opened Layerer
  import opened SharedState
  import opened Composition
  import opened Operator
  import opened Sessions

  const STATE_FILE: Path := [".cyan_state.yaml"]

  // ---------------------------------------------------- recording templates

  /** What a failing save of the state file leaves: no change, or the beginning of the new
      content in place of the old one. */
  ghost predicate PartlySaved(t: Tree, content: Bytes, nodes: Tree) {
    nodes == t || (!IsDir(t, STATE_FILE) && exists k: nat :: TornState(t, content, k, nodes))
  }

  ghost predicate TornState(t: Tree, content: Bytes, k: nat, nodes: Tree) {
    k <= |content| && nodes == t[STATE_FILE := File(content[..k])]
  }

  /** Writes the state file, which is truncated first; fails when a directory has its name. */
  method SaveStateFile(disk: Disk, content: Bytes, fails: bool) returns (ok: bool)
    requires WellFormed(disk.nodes)
    modifies disk
    ensures WellFormed(disk.nodes)
    ensures ok <==> !fails && !IsDir(old(disk.nodes), STATE_FILE)
    ensures if ok then disk.nodes == old(disk.nodes)[STATE_FILE := File(content)]
            else PartlySaved(old(disk.nodes), content, disk.nodes)
  {
    if IsDir(disk.nodes, STATE_FILE) {
      return false;
    }
    if fails {
      var truncated: bool, k: nat := *, *;
      if truncated && k <= |content| {
        ghost var t := disk.nodes;
        disk.nodes := disk.nodes[STATE_FILE := File(content[..k])];
        assert TornState(t, content, k, disk.nodes);
      }
      return false;
    }
    disk.nodes := disk.nodes[STATE_FILE := File(content)];
    ok := true;
  }

  lemma PartlySavedKeepsFiles(t: Tree, content: Bytes, nodes: Tree)
    requires PartlySaved(t, content, nodes)
    ensures KeepsFiles(t, nodes, {STATE_FILE}) && SameButStateFile(FilesOf(nodes), FilesOf(t))
    ensures IsDir(nodes, STATE_FILE) <==> IsDir(t, STATE_FILE)
  {
  }

  /** The same files but for the state file. */
  ghost predicate SameButStateFile(a: map<Path, Bytes>, b: map<Path, Bytes>) {
    a - {STATE_FILE} == b - {STATE_FILE}
  }

  function FinalAnswers(spec: TemplateSpec, answers: map<string, Answers>): Answers {
    if spec.key in answers then answers[spec.key] else spec.answers
  }

  /** The tree after recording each template with the answers its execution ended with. */
  function Recorded(env: Env, t: Tree, upgraded: seq<TemplateSpec>, answers: map<string, Answers>): Tree {
    if upgraded == [] then t
    else
      var n := |upgraded| - 1;
      var before := Recorded(env, t, upgraded[..n], answers);
      before[STATE_FILE := File(RecordOf(env, before, upgraded[n], answers))]
  }

  /** The state file that records one more template in this tree. */
  function RecordOf(env: Env, t: Tree, spec: TemplateSpec, answers: map<string, Answers>): Bytes {
    env.metadata(t, spec, FinalAnswers(spec, answers))
  }

  /** The tree when recording has come this far: where it stopped, the fetch of the next template
      failed, or the save of its record. */
  ghost predicate RecordedUpTo(env: Env, t: Tree, upgraded: seq<TemplateSpec>, answers: map<string, Answers>,
                               saved: nat, nodes: Tree)
    requires saved <= |upgraded|
  {
    var before := Recorded(env, t, upgraded[..saved], answers);
    if saved == |upgraded| || env.fails(FetchMetadata(saved)) then nodes == before
    else PartlySaved(before, RecordOf(env, before, upgraded[saved], answers), nodes)
  }

  lemma {:induction false} RecordingKeepsFiles(env: Env, t: Tree, upgraded: seq<TemplateSpec>,
                                               answers: map<string, Answers>)
    ensures KeepsFiles(t, Recorded(env, t, upgraded, answers), {STATE_FILE})
    ensures SameButStateFile(FilesOf(Recorded(env, t, upgraded, answers)), FilesOf(t))
  {
    if upgraded != [] {
      var n := |upgraded| - 1;
      RecordingKeepsFiles(env, t, upgraded[..n], answers);
      var before := Recorded(env, t, upgraded[..n], answers);
      var content := RecordOf(env, before, upgraded[n], answers);
      assert FilesOf(before[STATE_FILE := File(content)]) == FilesOf(before)[STATE_FILE := content];
    }
  }

  /** Why recording stopped at a template. */
  ghost predicate RecordingStops(env: Env, nodes: Tree, saved: nat) {
    env.fails(FetchMetadata(saved)) || env.fails(Call.SaveMetadata(saved)) || IsDir(nodes, STATE_FILE)
  }

  /** No call for the first `saved` templates failed. */
  ghost predicate RecordsReached(env: Env, saved: nat) {
    forall i: nat :: i < saved ==> !env.fails(FetchMetadata(i)) && !env.fails(Call.SaveMetadata(i))
  }

  lemma {:induction false} NothingRecorded(env: Env, t: Tree, upgraded: seq<TemplateSpec>,
                                           answers: map<string, Answers>)
    ensures Recorded(env, t, upgraded[..0], answers) == t
  {
  }

  lemma {:induction false} NextRecorded(env: Env, t: Tree, upgraded: seq<TemplateSpec>,
                                        answers: map<string, Answers>, i: nat)
    requires i < |upgraded|
    ensures var before := Recorded(env, t, upgraded[..i], answers);
            Recorded(env, t, upgraded[..i + 1], answers) ==
            before[STATE_FILE := File(RecordOf(env, before, upgraded[i], answers))]
  {
    hide RecordOf;
    assert upgraded[..i + 1][..i] == upgraded[..i];
  }

  method SaveMetadata(env: Env, disk: Disk, upgraded: seq<TemplateSpec>, answers: map<string, Answers>)
      returns (ok: bool, ghost saved: nat)
    requires WellFormed(disk.nodes)
    modifies disk
    ensures WellFormed(disk.nodes) && saved <= |upgraded| && (ok <==> saved == |upgraded|)
    ensures RecordedUpTo(env, old(disk.nodes), upgraded, answers, saved, disk.nodes)
    ensures !ok ==> RecordingStops(env, disk.nodes, saved)
    ensures RecordsReached(env, saved)
  {
    hide WellFormed, PartlySaved, KeepsFiles, SameButStateFile, RecordOf, Recorded;
    ghost var t := disk.nodes;
    saved := 0;
    NothingRecorded(env, t, upgraded, answers);
    for i := 0 to |upgraded|
      invariant WellFormed(disk.nodes) && saved == i
      invariant disk.nodes == Recorded(env, t, upgraded[..i], answers)
      invariant RecordsReached(env, saved)
    {
      var spec := upgraded[i];
      if env.fails(FetchMetadata(i)) {
        return false, saved;
      }
      ghost var before := disk.nodes;
      var record := RecordOf(env, disk.nodes, spec, answers);
      ok := SaveStateFile(disk, record, env.fails(Call.SaveMetadata(i)));
      if !ok {
        PartlySavedKeepsFiles(before, record, disk.nodes);
        return false, saved;
      }
      NextRecorded(env, t, upgraded, answers, i);
      saved := saved + 1;
    }
    assert upgraded[..|upgraded|] == upgraded;
    ok := true;
  }

  // ------------------------------------------------------ what is on disk

  /** What a batch computes before it touches the disk. */
  datatype Merged = Merged(prev: Vfs, curr: Vfs, local: map<Path, Bytes>, files: map<Path, Bytes>)

  ghost function MergedFrom(env: Env, t: Tree, prev: Vfs, curr: Vfs): Merged {
    Merged(prev, curr, env.load(t), env.merge(prev, env.load(t), curr))
  }

  ghost function Dropped(t: Tree, m: Merged): set<Path> { Doomed(t, m.local.Keys - m.files.Keys) }

  /** How far a batch came with the disk. */
  datatype DiskStage =
    | Unchanged
    | Cleaning                                      // stopped while deleting
    | Writing(written: seq<Path>)                   // stopped after writing these
    | Recording(order: seq<Path>, saved: nat)       // wrote everything, recorded so many templates

  /** Writing on from `written`, in some order, meets a file where a directory is needed. */
  ghost predicate WriteMustFail(t: Tree, files: map<Path, Bytes>, written: seq<Path>) {
    exists order :: BlocksWrite(t, files, written, order)
  }

  ghost predicate BlocksWrite(t: Tree, files: map<Path, Bytes>, written: seq<Path>, order: seq<Path>) {
    Covers(order, files) && written <= order && WrittenAll(t, files, order).None?
  }

  /** An I/O error stopped one write part-way. */
  ghost predicate TornAfter(t: Tree, files: map<Path, Bytes>, written: seq<Path>, nodes: Tree)
    requires forall p :: p in written ==> p in files
  {
    WrittenAll(t, files, written).Some?
    && exists p :: p in files && PartlyWritten(WrittenAll(t, files, written).value, p, files[p], nodes)
  }

  /** `nodes` is what a batch leaves of the tree `t` when it ends at this stage. */
  ghost predicate LeftBy(env: Env, t: Tree, upgraded: seq<TemplateSpec>, answers: map<string, Answers>, m: Merged,
                         at: DiskStage, nodes: Tree) {
    match at
    case Unchanged => nodes == t
    case Cleaning => env.fails(CleanUp) && PartlyCleaned(t, Dropped(t, m), nodes)
    case Writing(written) =>
      && (forall p :: p in written ==> p in m.files)
      && if env.fails(WriteFiles) then TornAfter(CleanedUp(t, m.local, m.files), m.files, written, nodes)
         else WrittenAll(CleanedUp(t, m.local, m.files), m.files, written) == Some(nodes)
              && WriteMustFail(CleanedUp(t, m.local, m.files), m.files, written)
    case Recording(order, saved) =>
      && Covers(order, m.files) && saved <= |upgraded| && RecordsReached(env, saved)
      && WrittenAll(CleanedUp(t, m.local, m.files), m.files, order).Some?
      && RecordedUpTo(env, WrittenAll(CleanedUp(t, m.local, m.files), m.files, order).value, upgraded, answers, saved,
                      nodes)
  }

  /** Recorded every template. */
  predicate Finished(upgraded: seq<TemplateSpec>, at: DiskStage) { at.Recording? && at.saved == |upgraded| }

  /** What stopped the batch where it stopped, once its templates have run; past that point it
      has met no failure before. */
  ghost predicate StoppedBy(env: Env, w: World, prev: Executed, curr: Executed, upgraded: seq<TemplateSpec>,
                            at: DiskStage, nodes: Tree) {
    && (Merges(env) && Horizontal(w, prev).Some? && Horizontal(w, curr).Some? <==> !at.Unchanged?)
    && (at.Recording? && at.saved < |upgraded| ==> RecordingStops(env, nodes, at.saved))
  }

  /** Loading the local files and merging both work. */
  predicate Merges(env: Env) { !env.fails(LoadLocal) && !env.fails(MergeFiles) }

  /** Every file that is neither local nor merged, but for the state file, survives every way a
      batch can end, with its contents. */
  lemma UntrackedSurvive(env: Env, t: Tree, upgraded: seq<TemplateSpec>, answers: map<string, Answers>, m: Merged,
                         at: DiskStage, nodes: Tree)
    requires LeftBy(env, t, upgraded, answers, m, at, nodes)
    ensures KeepsFiles(t, nodes, m.local.Keys + m.files.Keys + {STATE_FILE})
  {
    hide Survivors, Dead, WellFormed, RecordedUpTo, PartlyWritten, PartlyCleaned, WrittenAll;
    var named := m.local.Keys + m.files.Keys + {STATE_FILE};
    var s := CleanedUp(t, m.local, m.files);
    SurvivorsKeepFiles(t, Dropped(t, m));
    assert Dropped(t, m) <= m.local.Keys;
    match at
    case Unchanged =>
    case Cleaning =>
      PartlyCleanedKeepsFiles(t, Dropped(t, m), nodes);
    case Writing(written) =>
      WrittenAllKeepsFiles(s, m.files, written);
      var before := WrittenAll(s, m.files, written).value;
      if env.fails(WriteFiles) {
        var p :| p in m.files && PartlyWritten(before, p, m.files[p], nodes);
        PartlyWrittenKeepsFiles(before, p, m.files[p], nodes);
        KeepsFilesChain(s, before, nodes, m.files.Keys, {p});
        KeepsFilesChain(t, s, nodes, Dropped(t, m), m.files.Keys + {p});
      } else {
        KeepsFilesChain(t, s, nodes, Dropped(t, m), m.files.Keys);
      }
    case Recording(order, saved) =>
      WrittenAllKeepsFiles(s, m.files, order);
      var before := WrittenAll(s, m.files, order).value;
      RecordedUpToKeepsFiles(env, before, upgraded, answers, saved, nodes);
      KeepsFilesChain(s, before, nodes, m.files.Keys, {STATE_FILE});
      KeepsFilesChain(t, s, nodes, Dropped(t, m), m.files.Keys + {STATE_FILE});
  }

  /** Without clashes, a batch that has written everything leaves exactly the intended files
      beside the state file. */
  lemma WrittenIsIntended(env: Env, t: Tree, upgraded: seq<TemplateSpec>, answers: map<string, Answers>, m: Merged,
                          at: DiskStage, nodes: Tree)
    requires LeftBy(env, t, upgraded, answers, m, at, nodes) && at.Recording?
    requires Tight(t) && ClashFree(t, m.local, m.files)
    ensures SameButStateFile(FilesOf(nodes), Intended(t, m.local, m.files))
  {
    hide Tight, ClashFree, Intended, WrittenAll, Survivors, Recorded, PartlySaved;
    ReconcileExact(t, m.local, m.files, at.order);
    var written := WrittenAll(CleanedUp(t, m.local, m.files), m.files, at.order).value;
    var before := Recorded(env, written, upgraded[..at.saved], answers);
    RecordingKeepsFiles(env, written, upgraded[..at.saved], answers);
    if nodes != before {
      PartlySavedKeepsFiles(before, RecordOf(env, before, upgraded[at.saved], answers), nodes);
    }
  }

  lemma RecordedUpToKeepsFiles(env: Env, t: Tree, upgraded: seq<TemplateSpec>, answers: map<string, Answers>,
                               saved: nat, nodes: Tree)
    requires saved <= |upgraded| && RecordedUpTo(env, t, upgraded, answers, saved, nodes)
    ensures KeepsFiles(t, nodes, {STATE_FILE})
  {
    hide Recorded, PartlySaved;
    var before := Recorded(env, t, upgraded[..saved], answers);
    RecordingKeepsFiles(env, t, upgraded[..saved], answers);
    if nodes != before {
      PartlySavedKeepsFiles(before, RecordOf(env, before, upgraded[saved], answers), nodes);
      KeepsFilesChain(t, before, nodes, {STATE_FILE}, {STATE_FILE});
    }
  }

  // ----------------------------------------------------------- the methods

  /** Loads, merges, cleans up and writes. */
  method MergeAndWrite(env: Env, disk: Disk, prev: Vfs, curr: Vfs)
      returns (ok: bool, ghost at: DiskStage)
    requires WellFormed(disk.nodes)
    modifies disk
    ensures WellFormed(disk.nodes)
    ensures LeftBy(env, old(disk.nodes), [], map[], MergedFrom(env, old(disk.nodes), prev, curr), at, disk.nodes)
    ensures ok <==> at.Recording?
    ensures Merges(env) <==> !at.Unchanged?
  {
    hide WellFormed, Survivors, PartlyCleaned, PartlyWritten, WrittenAll;
    ghost var t, m := disk.nodes, MergedFrom(env, disk.nodes, prev, curr);
    at := Unchanged;
    if env.fails(LoadLocal) {
      return false, at;
    }
    var local := env.load(disk.nodes);
    if env.fails(MergeFiles) {
      return false, at;
    }
    var merged := env.merge(prev, local, curr);
    var deleted;
    ok, deleted := disk.CleanupDeletedFiles(local, merged, env.fails(CleanUp));
    if !ok {
      return false, Cleaning;
    }
    ghost var order, written, s := [], [], disk.nodes;
    ok, order, written := disk.Write(merged, env.fails(WriteFiles));
    if ok {
      at := Recording(order, 0);
    } else {
      at := Writing(written);
      assert forall p :: p in written ==> p in order;
      if !env.fails(WriteFiles) {
        assert BlocksWrite(s, merged, written, order);
      }
    }
  }

  /** Layers both lists, then loads, merges, writes and records. */
  method LayerAndWrite(env: Env, op: CompositionOperator, disk: Disk, upgraded: seq<TemplateSpec>, prev: Executed,
                       curr: Executed)
      returns (ok: bool, ghost m: Merged, ghost at: DiskStage)
    requires WellFormed(disk.nodes)
    modifies op`fileConflicts, disk
    ensures WellFormed(disk.nodes)
    ensures LeftBy(env, old(disk.nodes), upgraded, curr.answers, m, at, disk.nodes)
    ensures ok <==> Finished(upgraded, at)
    ensures StoppedBy(env, op.w, prev, curr, upgraded, at, disk.nodes)
    ensures !at.Unchanged? ==>
              && m == MergedFrom(env, old(disk.nodes), m.prev, m.curr)
              && Some(m.prev) == Horizontal(op.w, prev) && Some(m.curr) == Horizontal(op.w, curr)
    ensures ok ==> LayeredLast(op.w, prev, curr, old(op.fileConflicts), op.fileConflicts)
  {
    hide WellFormed, Horizontal, Survivors, PartlyCleaned, TornAfter, WriteMustFail, WrittenAll;
    m, at := Merged(map[], map[], map[], map[]), Unchanged;
    var prevVfs := LayerHorizontally(op, prev);
    if prevVfs.None? {
      return false, m, at;
    }
    var currVfs := LayerHorizontally(op, curr);
    if currVfs.None? {
      return false, m, at;
    }
    m := MergedFrom(env, disk.nodes, prevVfs.value, currVfs.value);
    ok, at := MergeAndWrite(env, disk, prevVfs.value, currVfs.value);
    if !ok {
      return;
    }
    ghost var saved;
    ok, saved := SaveMetadata(env, disk, upgraded, curr.answers);
    at := Recording(at.order, saved);
  }

  /** The conflicts after both lists were layered: those of the last list with several outputs,
      or those from before. */
  ghost predicate LayeredLast(w: World, prev: Executed, curr: Executed, before: seq<ConflictEntry>,
                              after: seq<ConflictEntry>) {
    if |curr.outputs| > 1 then Lists(after, LayeringOf(w, Roots(curr.roots)).Conflicts(curr.outputs))
    else if |prev.outputs| > 1 then Lists(after, LayeringOf(w, Roots(prev.roots)).Conflicts(prev.outputs))
    else after == before
  }

  /** Which conflicts a batch reports. */
  ghost predicate Reported(env: Env, w: World, trusted: bool, plan: Plan, prev: Executed, curr: Executed,
                           conflicts: seq<ConflictEntry>) {
    exists before :: LayeredLast(w, prev, curr, before, conflicts) && RanLast(env, w, trusted, plan, prev, curr, before)
  }

  /** The conflicts before layering: those of the run that came last. */
  ghost predicate RanLast(env: Env, w: World, trusted: bool, plan: Plan, prev: Executed, curr: Executed,
                          conflicts: seq<ConflictEntry>) {
    trusted ==>
      if plan.curr != [] then LastReports(env, w, plan.curr, curr.outputs, conflicts)
      else plan.prev != [] ==> LastReports(env, w, plan.prev, prev.outputs, conflicts)
  }

  datatype BatchResult =
    | BatchDone(sessions: seq<string>, conflicts: seq<ConflictEntry>, commands: seq<string>)
    | BatchAsked(sessions: seq<string>, question: Question)
    | BatchFailed

  /** The two executions a batch is made of, as uncached runs where the cache is trusted. */
  ghost predicate RanPlan(env: Env, w: World, trusted: bool, plan: Plan, prev: Executed, curr: Executed) {
    && ExecutionOf(env, w, Previous, trusted, plan.prev, prev)
    && ExecutionOf(env, w, Current, trusted, plan.curr, curr)
  }

  ghost predicate SomeTemplateFails(env: Env, w: World, trusted: bool, plan: Plan) {
    SomeSpecFails(env, w, Previous, trusted, plan.prev) || SomeSpecFails(env, w, Current, trusted, plan.curr)
  }

  /** How a batch ended on a tree `t`: on a question or a failing template with the tree as it
      was; otherwise with both lists executed, and the tree as its stage leaves it. */
  ghost predicate BatchEnds(env: Env, w: World, trusted: bool, plan: Plan, t: Tree, r: BatchResult, prev: Executed,
                            curr: Executed,
                            m: Merged, at: DiskStage, nodes: Tree) {
    match r
    case BatchAsked(_, question) =>
      && at.Unchanged? && nodes == t
      && (AskedBy(env, w, trusted, plan.prev, question) || AskedBy(env, w, trusted, plan.curr, question))
    case BatchFailed =>
      || (at.Unchanged? && nodes == t && SomeTemplateFails(env, w, trusted, plan))
      || (Executes(env, w, trusted, plan, t, prev, curr, m, at, nodes) && !Finished(plan.upgraded, at))
    case BatchDone(_, conflicts, commands) =>
      && Executes(env, w, trusted, plan, t, prev, curr, m, at, nodes) && Finished(plan.upgraded, at)
      && commands == curr.commands && Reported(env, w, trusted, plan, prev, curr, conflicts)
  }

  /** All templates ran, and the tree is as this stage leaves it. */
  ghost predicate Executes(env: Env, w: World, trusted: bool, plan: Plan, t: Tree, prev: Executed, curr: Executed,
                           m: Merged, at: DiskStage, nodes: Tree) {
    && RanPlan(env, w, trusted, plan, prev, curr)
    && LeftBy(env, t, plan.upgraded, curr.answers, m, at, nodes)
      && StoppedBy(env, w, prev, curr, plan.upgraded, at, nodes)
    && (!at.Unchanged? ==>
          && m == MergedFrom(env, t, m.prev, m.curr)
          && Some(m.prev) == Horizontal(w, prev) && Some(m.curr) == Horizontal(w, curr))
  }

  ghost predicate PlanForeseen(env: Env, w: World, cacheOn: bool, plan: Plan) {
    AllForeseen(env, w, cacheOn, plan.prev) && AllForeseen(env, w, cacheOn, plan.curr)
  }

  ghost predicate PlanSettled(env: Env, w: World, cacheOn: bool, plan: Plan) {
    AllSettled(env, w, cacheOn, plan.prev) && AllSettled(env, w, cacheOn, plan.curr)
  }

  /** A whole batch.  On success and on a question the caller gets exactly the sessions handed
      over; on failure all of them are released.  A trusted cache stays trusted, and then all
      templates give what uncached runs give. */
  method BatchProcess(env: Env, op: CompositionOperator, disk: Disk, plan: Plan)
      returns (r: BatchResult, ghost gained: seq<string>, ghost prev: Executed, ghost curr: Executed,
               ghost m: Merged, ghost at: DiskStage)
    requires Ready(op) && WellFormed(disk.nodes)
    modifies op`generated, op`fileConflicts, op.cache, op.cache.store, op.coordinator, disk
    ensures op.coordinator.handed == old(op.coordinator.handed) + gained
    ensures !r.BatchFailed? ==> r.sessions == gained && op.coordinator.released == old(op.coordinator.released)
    ensures r.BatchFailed? ==>
              multiset(op.coordinator.released) == multiset(old(op.coordinator.released)) + multiset(gained)
    ensures WellFormed(disk.nodes)
    ensures old(Trusted(op)) && PlanForeseen(env, op.w, op.cache.enabled, plan) ==> Trusted(op)
    ensures BatchEnds(env, op.w, old(Trusted(op))
                      && PlanSettled(env, op.w, op.cache.enabled, plan), plan, old(disk.nodes),
                      r, prev, curr, m, at, disk.nodes)
  {
    hide BatchEnds, WellFormed, Trusted, ResultsFit, PlanSettled, PlanForeseen;
    var guard := new SessionCleanupGuard(op.coordinator, []);
    r, gained, prev, curr, m, at := BatchBody(env, op, disk, plan, guard);
    guard.Drop();
  }

  datatype PlanOutcome = PlanRan(prev: Executed, curr: Executed) | PlanAsked(question: Question) | PlanFailed

  ghost predicate PlanShows(env: Env, w: World, trusted: bool, plan: Plan, outcome: PlanOutcome) {
    match outcome
    case PlanRan(prev, curr) => RanPlan(env, w, trusted, plan, prev, curr)
    case PlanAsked(question) => AskedBy(env, w, trusted, plan.prev, question)
      || AskedBy(env, w, trusted, plan.curr, question)
    case PlanFailed => SomeTemplateFails(env, w, trusted, plan)
  }

  /** Executes the installed templates, then the wanted ones. */
  method RunPlan(env: Env, op: CompositionOperator, plan: Plan, guard: SessionCleanupGuard)
      returns (outcome: PlanOutcome, ghost gained: seq<string>)
    requires Ready(op) && guard.coordinator == op.coordinator && guard.sessionIds == []
    modifies op`generated, op`fileConflicts, op.cache, op.cache.store, op.coordinator, guard`sessionIds
    ensures op.coordinator.handed == old(op.coordinator.handed) + gained
    ensures multiset(op.coordinator.released) + multiset(guard.sessionIds) == multiset(old(op.coordinator.released))
            + multiset(gained)
    ensures !outcome.PlanFailed? ==>
              op.coordinator.released == old(op.coordinator.released) && guard.sessionIds == gained
    ensures old(Trusted(op)) && PlanForeseen(env, op.w, op.cache.enabled, plan) ==> Trusted(op)
    ensures PlanShows(env, op.w, old(Trusted(op)) && PlanSettled(env, op.w, op.cache.enabled, plan), plan, outcome)
    ensures outcome.PlanRan? ==>
              RanLast(env, op.w, old(Trusted(op)) && PlanSettled(env, op.w, op.cache.enabled, plan), plan,
                      outcome.prev, outcome.curr, op.fileConflicts)
  {
    hide Reports, ResultsFit, Trusted, AllSettled, AllForeseen, ExecutionOf, AskedBy, SomeSpecFails;
    SettledIsForeseen(env, op.w, op.cache.enabled, plan.prev);
    SettledIsForeseen(env, op.w, op.cache.enabled, plan.curr);
    ghost var trusted := Trusted(op) && PlanSettled(env, op.w, op.cache.enabled, plan);
    var first, second;
    ghost var more := [];
    first, gained := ExecuteSpecs(env, op, guard, plan.prev, Previous, trusted);
    match first {
      case SpecFailed =>
        outcome := PlanFailed;
      case SpecAsked(question) =>
        outcome := PlanAsked(question);
      case AllRun(prev) =>
        second, more := ExecuteSpecs(env, op, guard, plan.curr, Current, trusted);
        gained := gained + more;
        outcome := match second
                   case SpecFailed => PlanFailed
                   case SpecAsked(question) => PlanAsked(question)
                   case AllRun(curr) => PlanRan(prev, curr);
    }
  }

  /** The body of a batch; its guard is still armed exactly when it fails. */
  method BatchBody(env: Env, op: CompositionOperator, disk: Disk, plan: Plan, guard: SessionCleanupGuard)
      returns (r: BatchResult, ghost gained: seq<string>, ghost prev: Executed, ghost curr: Executed,
               ghost m: Merged, ghost at: DiskStage)
    requires Ready(op) && WellFormed(disk.nodes)
    requires guard.armed && guard.sessionIds == [] && guard.coordinator == op.coordinator
    modifies op`generated, op`fileConflicts, op.cache, op.cache.store, op.coordinator, disk, guard
    ensures op.coordinator.handed == old(op.coordinator.handed) + gained
    ensures !r.BatchFailed? ==>
              r.sessions == gained && guard.sessionIds == [] && !guard.armed
                && op.coordinator.released == old(op.coordinator.released)
    ensures r.BatchFailed? ==>
              guard.armed
              && multiset(op.coordinator.released) + multiset(guard.sessionIds) ==
                multiset(old(op.coordinator.released)) + multiset(gained)
    ensures WellFormed(disk.nodes)
    ensures old(Trusted(op)) && PlanForeseen(env, op.w, op.cache.enabled, plan) ==> Trusted(op)
    ensures BatchEnds(env, op.w, old(Trusted(op))
                      && PlanSettled(env, op.w, op.cache.enabled, plan), plan, old(disk.nodes),
                      r, prev, curr, m, at, disk.nodes)
  {
    hide WellFormed, ResultsFit, Trusted, PlanSettled, PlanForeseen, LeftBy, StoppedBy, Horizontal,
         AskedBy, SomeTemplateFails, RanPlan, MergedFrom, LayeredLast, RanLast;
    ghost var nothing := Executed([], [], map[], []);
    prev, curr, m, at := nothing, nothing, Merged(map[], map[], map[], map[]), Unchanged;
    var outcome;
    outcome, gained := RunPlan(env, op, plan, guard);
    match outcome {
      case PlanFailed =>
        r := BatchFailed;
      case PlanAsked(question) =>
        var ids := guard.Take();
        r := BatchAsked(ids, question);
      case PlanRan(first, second) =>
        prev, curr := first, second;
        var ok;
        ok, m, at := LayerAndWrite(env, op, disk, plan.upgraded, first, second);
        if ok {
          var ids := guard.Take();
          r := BatchDone(ids, op.fileConflicts, second.commands);
        } else {
          r := BatchFailed;
        }
    }
  }

}
