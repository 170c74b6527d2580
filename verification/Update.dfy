/** What a finished run means for the user's files: templates that changed take over, and what
    their users changed stays.  Nothing here speaks of how the merge is called. */
module Update {
  import opened Wrappers
  import opened Models
  import opened DiskTree
  import opened Reconcile
  import opened Layerer
  import opened Namespace
  import opened SharedState
  import opened Composition
  import opened AnswerSurvival
  import opened RunLaws
  import opened Attribution
  import opened Sessions
  import opened Batch
  import opened Invocation

  /** The three-way merge takes over a change made on one side only: what is incoming, where the
      local files are those of the base; the local files, where nothing new is incoming. */
  ghost predicate MergesOneSide(env: Env) {
    && (forall base, incoming {:trigger env.merge(base, env.asFiles(base), incoming)} ::
          env.merge(base, env.asFiles(base), incoming) == env.asFiles(incoming))
    && (forall base, local {:trigger env.merge(base, local, base)} :: env.merge(base, local, base) == local)
  }

  // ------------------------------------------------------ layered outputs

  /** However many templates there are, their outputs are layered by the resolvers of the roots. */
  lemma HorizontalIsMerge(w: World, e: Executed)
    ensures Horizontal(w, e) == LayeringOf(w, Roots(e.roots)).Merge(e.outputs)
  {
    hide Variations, ContentFor;
    if |e.outputs| <= 1 { SingleLayer(LayeringOf(w, Roots(e.roots)), e.outputs); }
  }

  /** Without resolvers at the roots, a later template's file replaces an earlier one's. */
  lemma HorizontalIsOverwrite(w: World, e: Executed)
    requires forall t :: t in e.roots ==> t.resolvers == []
    ensures Horizontal(w, e) == Some(Overwrite(e.outputs))
  {
    HorizontalIsMerge(w, e);
    NoRootResolvers(e.roots);
    EmptyRegistryIsOverwrite(LayeringOf(w, Roots(e.roots)), e.outputs);
  }

  lemma {:induction false} NoRootResolvers(roots: seq<Template>)
    requires forall t :: t in roots ==> t.resolvers == []
    ensures RegistryOf(Roots(roots)) == map[]
  {
    if roots != [] {
      var n := |roots| - 1;
      NoRootResolvers(roots[..n]);
      assert Roots(roots)[..n] == Roots(roots[..n]);
      assert roots[n] in roots;
    }
  }

  // ------------------------------------------------------ what was executed

  /** The dependencies of all specs, in order. */
  function AllDeps(env: Env, specs: seq<TemplateSpec>): seq<ResolvedDependency> {
    if specs == [] then [] else AllDeps(env, specs[..|specs| - 1]) + env.DepsOf(specs[|specs| - 1])
  }

  /** Commands are those of the dependencies, one after the other. */
  lemma {:induction false} CommandsConcatenate(env: Env, a: seq<ResolvedDependency>, b: seq<ResolvedDependency>)
    ensures CommandsOf(env, a + b) == CommandsOf(env, a) + CommandsOf(env, b)
    ensures |a| == 1 ==> CommandsOf(env, a) == env.commandsOf(a[0].template)
    decreases |a|
  {
    if a == [] {
      assert a + b == b;
    } else {
      CommandsConcatenate(env, a[1..], b);
      assert (a + b)[1..] == a[1..] + b;
      assert CommandsOf(env, []) == [];
    }
  }

  lemma {:induction false} NoCommands(env: Env)
    ensures CommandsOf(env, []) == []
  {
  }

  /** Some uncached run of the spec gives these files and ends with these answers. */
  ghost predicate RunAnswers(env: Env, w: World, spec: TemplateSpec, vfs: Vfs, answers: Answers) {
    exists shared :: IsRunOf(env, w, spec, vfs, shared) && shared.answers == answers
  }

  ghost predicate RunOutput(env: Env, w: World, spec: TemplateSpec, vfs: Vfs) {
    exists answers :: RunAnswers(env, w, spec, vfs, answers)
  }

  predicate LastWithKey(specs: seq<TemplateSpec>, i: nat) {
    i < |specs| && forall j :: i < j < |specs| ==> specs[j].key != specs[i].key
  }

  /** What an execution holds: for each spec, in order, the template and the files of a run, and
      all commands in order. */
  lemma {:induction false} ExecutionMeans(env: Env, w: World, phase: Phase, specs: seq<TemplateSpec>, e: Executed)
    requires ExecutionOf(env, w, phase, true, specs, e)
    ensures |e.roots| == |e.outputs| == |specs|
    ensures forall i: nat :: i < |specs| ==>
              e.roots[i] == env.fetch(specs[i]) && RunOutput(env, w, specs[i], e.outputs[i])
    ensures e.commands == CommandsOf(env, AllDeps(env, specs))
    decreases |specs|
  {
    hide ExecutionOf, RunAnswers, RunOutput, CommandsOf;
    var before, vfs, shared := LastRun(env, w, phase, specs, e);
    if specs == [] {
      NoCommands(env);
    } else {
      var n := |specs| - 1;
      ExecutionMeans(env, w, phase, specs[..n], before);
      CommandsConcatenate(env, AllDeps(env, specs[..n]), env.DepsOf(specs[n]));
      forall i: nat | i < |specs|
        ensures e.roots[i] == env.fetch(specs[i]) && RunOutput(env, w, specs[i], e.outputs[i])
      {
        if i < n { assert specs[..n][i] == specs[i]; }
      }
    }
  }

  lemma LastRun(env: Env, w: World, phase: Phase, specs: seq<TemplateSpec>, e: Executed)
      returns (before: Executed, vfs: Vfs, shared: Shared)
    requires ExecutionOf(env, w, phase, true, specs, e)
    ensures specs == [] ==> e == Executed([], [], map[], [])
    ensures specs != [] ==>
              var n := |specs| - 1;
              && ExecutionOf(env, w, phase, true, specs[..n], before)
              && e.roots == before.roots + [env.fetch(specs[n])] && e.outputs == before.outputs + [vfs]
              && e.answers == before.answers[specs[n].key := shared.answers]
              && e.commands == before.commands + CommandsOf(env, env.DepsOf(specs[n]))
              && RunAnswers(env, w, specs[n], vfs, shared.answers) && RunOutput(env, w, specs[n], vfs)
  {
    hide IsRunOf, Reached;
    before, vfs, shared := e, map[], Shared(map[], map[], [], None);
    if specs != [] {
      var n := |specs| - 1;
      before, vfs, shared :|
        && ExecutionOf(env, w, phase, true, specs[..n], before)
        && IsRunOf(env, w, specs[n], vfs, shared)
        && e == Extended(env, before, specs[n], vfs, shared);
    }
  }

  /** Under each key it holds the answers that the last run of that key ended with. */
  lemma {:induction false} ExecutionAnswers(env: Env, w: World, phase: Phase, specs: seq<TemplateSpec>, e: Executed,
                                            key: string)
    requires ExecutionOf(env, w, phase, true, specs, e)
    ensures |e.outputs| == |specs|
    ensures key in e.answers <==> exists i :: 0 <= i < |specs| && specs[i].key == key
    ensures forall i: nat :: LastWithKey(specs, i) && specs[i].key == key ==>
              key in e.answers && RunAnswers(env, w, specs[i], e.outputs[i], e.answers[key])
    decreases |specs|
  {
    hide ExecutionOf, RunAnswers, CommandsOf, AllDeps;
    var before, vfs, shared := LastRun(env, w, phase, specs, e);
    if specs != [] {
      var n := |specs| - 1;
      ExecutionAnswers(env, w, phase, specs[..n], before, key);
      if key in before.answers {
        var i :| 0 <= i < n && specs[..n][i].key == key;
        assert specs[i].key == key;
      }
      forall i: nat | LastWithKey(specs, i) && specs[i].key == key
        ensures key in e.answers && RunAnswers(env, w, specs[i], e.outputs[i], e.answers[key])
      {
        if i < n {
          assert LastWithKey(specs[..n], i) && specs[..n][i] == specs[i];
          assert specs[n].key != key;
        }
      }
      if i :| 0 <= i < n && specs[i].key == key {
        assert specs[..n][i].key == key;
      }
    }
  }

  /** What is recorded for a template: the answers its last run ended with, or those of its spec
      when no run has its key. */
  lemma {:induction false} RecordedAnswers(env: Env, w: World, phase: Phase, specs: seq<TemplateSpec>, e: Executed,
                                           spec: TemplateSpec)
    requires ExecutionOf(env, w, phase, true, specs, e)
    ensures |e.outputs| == |specs|
    ensures forall i: nat :: LastWithKey(specs, i) && specs[i].key == spec.key ==>
              RunAnswers(env, w, specs[i], e.outputs[i], FinalAnswers(spec, e.answers))
    ensures (forall i :: 0 <= i < |specs| ==> specs[i].key != spec.key) ==>
              FinalAnswers(spec, e.answers) == spec.answers
  {
    hide ExecutionOf, RunAnswers;
    ExecutionAnswers(env, w, phase, specs, e, spec.key);
  }

  /** Templates are recorded one after the other, each in the tree that the one before left. */
  lemma {:induction false} RecordedInOrder(env: Env, t: Tree, a: seq<TemplateSpec>, b: seq<TemplateSpec>,
                                           answers: map<string, Answers>)
    ensures Recorded(env, t, a + b, answers) == Recorded(env, Recorded(env, t, a, answers), b, answers)
    ensures |a| == 1 ==>
              Recorded(env, t, a, answers)
              == t[STATE_FILE := File(env.metadata(t, a[0], FinalAnswers(a[0], answers)))]
    decreases |b|
  {
    if |a| == 1 { assert a[..0] == []; }
    if b == [] {
      assert a + b == a;
    } else {
      assert (a + b)[..|a + b| - 1] == a + b[..|b| - 1];
      RecordedInOrder(env, t, a, b[..|b| - 1], answers);
    }
  }

  /** A run starts from its spec: it leaves the spec's states alone, and keeps its answers where
      executors only add to what they are given. */
  lemma SpecAnswersSurvive(env: Env, w: World, spec: TemplateSpec, vfs: Vfs, shared: Shared)
    requires IsRunOf(env, w, spec, vfs, shared)
    ensures shared.states == spec.states
    ensures WellBehaved(w, env.DepsOf(spec), Setting(NamespacesOf(env.DepsOf(spec)), spec.answers, false)) ==>
              Kept(spec.answers, shared.answers)
  {
    hide RunSteps, WellBehaved;
    var generated: nat, ios: seq<Io> :| RunGives(env, w, spec, generated, ios, vfs, shared);
    var deps, b := env.DepsOf(spec), Begin(spec.Input(), map[], 0, 0, generated);
    StatesStay(w, SettingOf(deps, b.initial, false), StartAcc(b), deps, ios);
    if WellBehaved(w, deps, Setting(NamespacesOf(deps), spec.answers, false)) {
      UncachedAnswersSurvive(w, deps, b, ios);
    }
  }

  // ------------------------------------------------------ a finished batch

  /** The files that two layered outputs make of the user's tree when the merge has one side to
      take over. */
  ghost predicate TakesOver(env: Env, t: Tree, before: Vfs, after: Vfs, nodes: Tree) {
    && (env.load(t) == env.asFiles(before) && ClashFree(t, env.load(t), env.asFiles(after)) ==>
          SameButStateFile(FilesOf(nodes), (FilesOf(t) - env.load(t).Keys) + env.asFiles(after)))
    && (before == after && env.load(t).Items <= FilesOf(t).Items && ClashFree(t, env.load(t), env.load(t)) ==>
          SameButStateFile(FilesOf(nodes), FilesOf(t)))
  }

  lemma MergeTakesOver(env: Env, t: Tree, upgraded: seq<TemplateSpec>, answers: map<string, Answers>, before: Vfs,
                       after: Vfs, at: DiskStage, nodes: Tree)
    requires MergesOneSide(env) && Tight(t) && at.Recording?
    requires LeftBy(env, t, upgraded, answers, MergedFrom(env, t, before, after), at, nodes)
    ensures TakesOver(env, t, before, after, nodes)
  {
    hide Tight, ClashFree, LeftBy, SameButStateFile;
    var local, m := env.load(t), MergedFrom(env, t, before, after);
    if ClashFree(t, local, m.files) {
      WrittenIsIntended(env, t, upgraded, answers, m, at, nodes);
    }
    if local == env.asFiles(before) {
      assert m.files == env.asFiles(after);
      assert Intended(t, local, m.files) == (FilesOf(t) - local.Keys) + m.files;
    }
    if before == after && local.Items <= FilesOf(t).Items {
      assert m.files == local;
      SubmapAddsNothing(FilesOf(t), local);
    }
  }

  /** Every finished batch has executed the installed templates and the wanted ones.  Where the
      local files are what the installed templates gave, and nothing clashes, the tree then holds
      exactly what the wanted templates give, beside untracked files and the state file; where
      both give the same, the files stay as the user left them. */
  lemma {:induction false} FinishedBatch(env: Env, w: World, plan: Plan, t: Tree, r: BatchResult, prev: Executed,
                                         curr: Executed, m: Merged, at: DiskStage, nodes: Tree)
    requires BatchEnds(env, w, true, plan, t, r, prev, curr, m, at, nodes) && r.BatchDone?
    requires MergesOneSide(env) && Tight(t)
    ensures ExecutionOf(env, w, Previous, true, plan.prev, prev) && ExecutionOf(env, w, Current, true, plan.curr, curr)
    ensures Horizontal(w, prev).Some? && Horizontal(w, curr).Some? && r.commands == curr.commands
    ensures TakesOver(env, t, Horizontal(w, prev).value, Horizontal(w, curr).value, nodes)
  {
    hide ExecutionOf, Horizontal, Tight, LeftBy, StoppedBy, MergesOneSide, MergedFrom, TakesOver;
    MergeTakesOver(env, t, plan.upgraded, curr.answers, m.prev, m.curr, at, nodes);
  }

  // ------------------------------------------------------- what success means

  /** No call for any of these templates failed. */
  ghost predicate AllReached(env: Env, phase: Phase, n: nat) {
    forall i: nat :: i < n ==> !env.fails(Fetch(phase, i)) && !env.fails(Resolve(phase, i))
  }

  lemma {:induction false} ExecutionReached(env: Env, w: World, phase: Phase, specs: seq<TemplateSpec>, e: Executed)
    requires ExecutionOf(env, w, phase, true, specs, e)
    ensures AllReached(env, phase, |specs|)
    decreases |specs|
  {
    hide IsRunOf;
    if specs != [] {
      var before, vfs, shared := LastRun(env, w, phase, specs, e);
      ExecutionReached(env, w, phase, specs[..|specs| - 1], before);
    }
  }

  /** A batch that finishes has swallowed no failure: none of its fetches, resolutions, loads,
      merges and saves failed. */
  lemma {:induction false} FinishedMeansNoFailure(env: Env, w: World, plan: Plan, t: Tree, r: BatchResult,
                                                  prev: Executed, curr: Executed, m: Merged, at: DiskStage, nodes: Tree)
    requires BatchEnds(env, w, true, plan, t, r, prev, curr, m, at, nodes) && r.BatchDone?
    ensures AllReached(env, Previous, |plan.prev|) && AllReached(env, Current, |plan.curr|)
    ensures !env.fails(LoadLocal) && !env.fails(MergeFiles)
    ensures forall i: nat :: i < |plan.upgraded| ==>
              !env.fails(FetchMetadata(i)) && !env.fails(Call.SaveMetadata(i))
  {
    hide ExecutionOf, Horizontal, MergedFrom, AllReached, RecordedUpTo;
    ExecutionReached(env, w, Previous, plan.prev, prev);
    ExecutionReached(env, w, Current, plan.curr, curr);
  }

  // ------------------------------------------------------------ conflicts

  ghost predicate Listed(conflicts: seq<ConflictEntry>, p: FilePath) {
    exists k :: 0 <= k < |conflicts| && conflicts[k].path == p
  }

  ghost predicate SeveralHold(outputs: seq<Vfs>, p: FilePath) {
    exists i, j :: 0 <= i < j < |outputs| && p in outputs[i] && p in outputs[j]
  }

  /** One conflict for each path that several of these outputs hold; a winner is the template
      whose output holds it last. */
  ghost predicate ConflictsAmong(roots: seq<Template>, outputs: seq<Vfs>, conflicts: seq<ConflictEntry>)
    requires |roots| == |outputs|
  {
    && (forall p :: Listed(conflicts, p) <==> SeveralHold(outputs, p))
    && (forall k, i: nat :: 0 <= k < |conflicts| && IsLastProducer(outputs, conflicts[k].path, i) ==>
          if conflicts[k].resolution == ByResolver then conflicts[k].winner == None
          else conflicts[k].winner == Some(roots[i].id))
  }

  lemma ConflictsListed(w: World, roots: seq<Template>, outputs: seq<Vfs>, conflicts: seq<ConflictEntry>)
    requires |roots| == |outputs| && Lists(conflicts, LayeringOf(w, Roots(roots)).Conflicts(outputs))
    ensures ConflictsAmong(roots, outputs, conflicts)
  {
    hide Variations, RegistryOf, EntryFor;
    var l := LayeringOf(w, Roots(roots));
    var ledger := l.Conflicts(outputs);
    forall p ensures Listed(conflicts, p) <==> SeveralHold(outputs, p) {
      ListedExactly(conflicts, ledger, p);
      PathsProduced(l, outputs, p);
      if p in AllPaths(outputs) {
        OverwriteIsLastProducer(outputs, p);
        var i: nat :| IsLastProducer(outputs, p, i);
        LedgerNamesLastProducer(l, outputs, p, i);
      }
    }
    forall k, i: nat | 0 <= k < |conflicts| && IsLastProducer(outputs, conflicts[k].path, i)
      ensures if conflicts[k].resolution == ByResolver then conflicts[k].winner == None
              else conflicts[k].winner == Some(roots[i].id)
    {
      LedgerNamesLastProducer(l, outputs, conflicts[k].path, i);
    }
  }

  lemma ListedExactly(conflicts: seq<ConflictEntry>, ledger: map<FilePath, ConflictEntry>, p: FilePath)
    requires Lists(conflicts, ledger)
    ensures Listed(conflicts, p) <==> p in ledger
  {
    var paths := set k | 0 <= k < |conflicts| :: conflicts[k].path;
    EachPathOnce(conflicts, paths);
    assert paths <= ledger.Keys;
    SameSize(paths, ledger.Keys);
  }

  lemma {:induction false} EachPathOnce(conflicts: seq<ConflictEntry>, paths: set<FilePath>)
    requires forall i, j :: 0 <= i < j < |conflicts| ==> conflicts[i].path != conflicts[j].path
    requires paths == set k | 0 <= k < |conflicts| :: conflicts[k].path
    ensures |paths| == |conflicts|
    decreases |conflicts|
  {
    if conflicts != [] {
      var n := |conflicts| - 1;
      EachPathOnce(conflicts[..n], set k | 0 <= k < n :: conflicts[..n][k].path);
      assert paths == (set k | 0 <= k < n :: conflicts[..n][k].path) + {conflicts[n].path};
    }
  }

  lemma SameSize(part: set<FilePath>, whole: set<FilePath>)
    requires part <= whole && |part| == |whole|
    ensures part == whole
  {
    assert |whole - part| == |whole| - |part|;
  }

  /** With several wanted templates a finished batch reports the conflicts among their outputs.
      With at most one, those among the installed templates' outputs, when these are several; else
      those of the wanted template's own run. */
  lemma {:induction false} BatchConflicts(env: Env, w: World, plan: Plan, t: Tree, r: BatchResult, prev: Executed,
                                          curr: Executed, m: Merged, at: DiskStage, nodes: Tree)
    requires BatchEnds(env, w, true, plan, t, r, prev, curr, m, at, nodes) && r.BatchDone?
    ensures |prev.roots| == |prev.outputs| == |plan.prev| && |curr.roots| == |curr.outputs| == |plan.curr|
    ensures |plan.curr| > 1 ==> ConflictsAmong(curr.roots, curr.outputs, r.conflicts)
    ensures |plan.curr| <= 1 < |plan.prev| ==> ConflictsAmong(prev.roots, prev.outputs, r.conflicts)
    ensures |plan.prev| <= 1 && |plan.curr| == 1 ==> Reports(env, w, plan.curr[0], curr.outputs[0], r.conflicts)
  {
    hide ExecutionOf, Horizontal, LeftBy, StoppedBy, MergedFrom, Lists, ConflictsAmong, Reports;
    ExecutionMeans(env, w, Previous, plan.prev, prev);
    ExecutionMeans(env, w, Current, plan.curr, curr);
    if |plan.curr| > 1 {
      ConflictsListed(w, curr.roots, curr.outputs, r.conflicts);
    } else if |plan.prev| > 1 {
      ConflictsListed(w, prev.roots, prev.outputs, r.conflicts);
    }
  }

  /** `a` are the answers of the last wanted run with this spec's key, where there is one. */
  ghost predicate EndedWith(env: Env, w: World, plan: Plan, curr: Executed, spec: TemplateSpec, a: Answers)
    requires |curr.outputs| == |plan.curr|
  {
    forall i: nat :: LastWithKey(plan.curr, i) && plan.curr[i].key == spec.key ==>
      RunAnswers(env, w, plan.curr[i], curr.outputs[i], a)
  }

  /** The state file that a finished batch leaves records each upgraded template, in order, with
      the answers that its wanted run ended with. */
  lemma {:induction false} RecordedByBatch(env: Env, w: World, plan: Plan, t: Tree, r: BatchResult, prev: Executed,
                                           curr: Executed, m: Merged, at: DiskStage, nodes: Tree)
    requires BatchEnds(env, w, true, plan, t, r, prev, curr, m, at, nodes) && r.BatchDone?
    ensures |curr.outputs| == |plan.curr|
    ensures var n := |plan.upgraded| - 1;
            n < 0 || exists before, a ::
              && nodes == before[STATE_FILE := File(env.metadata(before, plan.upgraded[n], a))]
              && EndedWith(env, w, plan, curr, plan.upgraded[n], a)
    ensures exists written :: nodes == Recorded(env, written, plan.upgraded, curr.answers)
                              && SameButStateFile(FilesOf(nodes), FilesOf(written))
  {
    hide ExecutionOf, Horizontal, StoppedBy, MergedFrom, RunAnswers, SameButStateFile;
    ExecutionMeans(env, w, Current, plan.curr, curr);
    var written := WrittenAll(CleanedUp(t, m.local, m.files), m.files, at.order).value;
    assert plan.upgraded[..|plan.upgraded|] == plan.upgraded;
    RecordingKeepsFiles(env, written, plan.upgraded, curr.answers);
    var n := |plan.upgraded| - 1;
    if n >= 0 {
      RecordedAnswers(env, w, Current, plan.curr, curr, plan.upgraded[n]);
      var before := Recorded(env, written, plan.upgraded[..n], curr.answers);
      var a := FinalAnswers(plan.upgraded[n], curr.answers);
      assert EndedWith(env, w, plan, curr, plan.upgraded[n], a);
      assert nodes == before[STATE_FILE := File(env.metadata(before, plan.upgraded[n], a))];
    }
  }

  lemma SubmapAddsNothing(m: map<Path, Bytes>, part: map<Path, Bytes>)
    requires part.Items <= m.Items
    ensures m - (part.Keys - part.Keys) + part == m
  {
    forall p | p in part ensures p in m && m[p] == part[p] {
      assert (p, part[p]) in part.Items;
    }
  }

  // ------------------------------------------------------ a committed run

  /** The commit changes no file but the state file, unless commands run; and commands run only
      once the state file has been saved, on the tree that holds it. */
  lemma CommitMeans(env: Env, nodes: Tree, conflicts: seq<ConflictEntry>, commands: seq<string>, inner: Tree)
    requires CommitLeaves(env, nodes, conflicts, commands, inner)
    ensures var saved := nodes[STATE_FILE := File(env.stateFile(nodes, conflicts))];
            if env.fails(SaveState) || IsDir(nodes, STATE_FILE) || commands == []
            then SameButStateFile(FilesOf(inner), FilesOf(nodes))
                 && (CommitSucceeds(env, nodes, commands) ==> inner == saved)
            else SameButStateFile(FilesOf(saved), FilesOf(nodes)) && inner == env.runCommands(saved, commands) - {[]}
  {
    var content := env.stateFile(nodes, conflicts);
    assert FilesOf(nodes[STATE_FILE := File(content)]) == FilesOf(nodes)[STATE_FILE := content];
    if env.fails(SaveState) || IsDir(nodes, STATE_FILE) {
      PartlySavedKeepsFiles(nodes, content, inner);
    }
  }

  ghost predicate Executions(env: Env, w: World, plan: Plan, prev: Executed, curr: Executed) {
    && ExecutionOf(env, w, Previous, true, plan.prev, prev) && ExecutionOf(env, w, Current, true, plan.curr, curr)
    && Horizontal(w, prev).Some? && Horizontal(w, curr).Some?
  }

  lemma CommittedBatch(env: Env, w: World, cacheOn: bool, t: Tree, r: RunResult, inner: Tree)
      returns (batch: BatchResult, prev: Executed, curr: Executed, m: Merged, at: DiskStage, nodes: Tree)
    requires RunEnds(env, w, cacheOn, true, t, r, true, inner) && r.Completed?
    requires env.plan(t).Some? ==> PlanSettled(env, w, cacheOn, env.plan(t).value)
    ensures env.plan(t).Some? && batch.BatchDone?
    ensures BatchEnds(env, w, true, env.plan(t).value, t, batch, prev, curr, m, at, nodes)
    ensures CommitLeaves(env, nodes, batch.conflicts, batch.commands, inner)
  {
    hide BatchEnds, PlanSettled, CommitLeaves;
    var plan := env.plan(t).value;
    batch, prev, curr, m, at, nodes :| RunsBatch(env, w, true, plan, t, r, true, inner, batch, prev, curr, m, at,
                                                 nodes);
  }

  /** Nor has a run that completes: its history was read, and when it asks nothing its state was
      saved and its commands, if any, succeeded. */
  lemma {:induction false} CompletedMeansNoFailure(env: Env, w: World, cacheOn: bool, trusted: bool, t: Tree,
                                                   r: RunResult, committed: bool, inner: Tree)
    requires RunEnds(env, w, cacheOn, trusted, t, r, committed, inner) && r.Completed?
    ensures !env.fails(CheckHistory) && env.plan(t).Some? && (committed <==> r.needInput.None?)
    ensures committed ==>
              && !env.fails(SaveState)
              && exists nodes, conflicts, commands ::
                   CommitLeaves(env, nodes, conflicts, commands, inner) && !IsDir(nodes, STATE_FILE)
                   && (commands == [] || !env.fails(RunCommands))
  {
    hide BatchEnds, PlanSettled, CommitLeaves;
  }

  /** What a finished batch leaves, a whole run that completes leaves too, when the wanted templates
      bring no commands. */
  lemma CompletedRun(env: Env, w: World, cacheOn: bool, t: Tree, r: RunResult, inner: Tree)
      returns (prev: Executed, curr: Executed)
    requires RunEnds(env, w, cacheOn, true, t, r, true, inner) && r.Completed?
    requires MergesOneSide(env) && Tight(t)
    requires env.plan(t).Some? ==> PlanSettled(env, w, cacheOn, env.plan(t).value)
    ensures env.plan(t).Some? && Executions(env, w, env.plan(t).value, prev, curr)
    ensures CommandsOf(env, AllDeps(env, env.plan(t).value.curr)) == [] ==>
              TakesOver(env, t, Horizontal(w, prev).value, Horizontal(w, curr).value, inner)
  {
    hide RunEnds, BatchEnds, PlanSettled, MergesOneSide, ExecutionOf, Horizontal, CommitLeaves, TakesOver, Tight;
    var batch, m, at, nodes;
    batch, prev, curr, m, at, nodes := CommittedBatch(env, w, cacheOn, t, r, inner);
    var plan := env.plan(t).value;
    FinishedBatch(env, w, plan, t, batch, prev, curr, m, at, nodes);
    ExecutionMeans(env, w, Current, plan.curr, curr);
    CommitMeans(env, nodes, batch.conflicts, batch.commands, inner);
    if batch.commands == [] {
      SameFilesTakeOver(env, t, Horizontal(w, prev).value, Horizontal(w, curr).value, nodes, inner);
    }
  }

  lemma SameFilesTakeOver(env: Env, t: Tree, before: Vfs, after: Vfs, nodes: Tree, inner: Tree)
    requires TakesOver(env, t, before, after, nodes) && SameButStateFile(FilesOf(inner), FilesOf(nodes))
    ensures TakesOver(env, t, before, after, inner)
  {
    hide ClashFree;
  }
}
