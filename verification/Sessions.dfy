/** Executing the templates of a batch: every coordinator session that an execution hands over
    is released exactly once, and with a trusted cache every template gives what an uncached
    run gives. */
module Sessions {
  import opened Wrappers
  import opened Models
  import opened DiskTree
  import opened Layerer
  import opened Namespace
  import opened SharedState
  import opened Composition
  import opened Transparency
  import opened AnswerSurvival
  import opened HashOrder
  import opened Operator

  datatype TemplateSpec = TemplateSpec(key: string, version: int, answers: Answers, states: States) {
    /** The state a run of this template starts from. */
    function Input(): Shared { Shared(answers, states, [], None) }
  }

  /** The templates a run executes: as installed, as wanted, and those to record. */
  datatype Plan = Plan(prev: seq<TemplateSpec>, curr: seq<TemplateSpec>, upgraded: seq<TemplateSpec>)

  datatype Phase = Previous | Current

  /** The calls to the outside that may fail. */
  datatype Call =
    | CreateTarget            // some component cannot be created, as when its name is too long
    | CheckHistory
    | Fetch(phase: Phase, i: nat)
    | Resolve(phase: Phase, i: nat)
    | LoadLocal
    | MergeFiles
    | CleanUp                 // some removal during cleanup
    | WriteFiles              // some creation or write other than a structural clash
    | FetchMetadata(i: nat)
    | SaveMetadata(i: nat)
    | SaveState
    | RunCommands
    | RemoveCreated           // some removal of the created directory

  /** What a run asks of the outside, and which of those calls fail.  `asFiles` are the files that
      an output stands for on disk. */
  datatype Env = Env(
    fails: Call -> bool,
    fetch: TemplateSpec -> Template,
    resolve: Template -> seq<ResolvedDependency>,
    commandsOf: Template -> seq<string>,
    load: Tree -> map<Path, Bytes>,
    asFiles: Vfs -> map<Path, Bytes>,
    merge: (Vfs, map<Path, Bytes>, Vfs) -> map<Path, Bytes>,
    metadata: (Tree, TemplateSpec, Answers) -> Bytes,
    plan: Tree -> Option<Plan>,
    stateFile: (Tree, seq<ConflictEntry>) -> Bytes,
    runCommands: (Tree, seq<string>) -> Tree)
  {
    function DepsOf(spec: TemplateSpec): seq<ResolvedDependency> { resolve(fetch(spec)) }
  }

  /** Owns the sessions of a batch and releases them when dropped while armed. */
  class SessionCleanupGuard {
    const coordinator: Coordinator
    var sessionIds: seq<string>
    var armed: bool

    constructor (coordinator: Coordinator, sessionIds: seq<string>)
      ensures this.coordinator == coordinator && this.sessionIds == sessionIds && armed
    {
      this.coordinator, this.sessionIds, armed := coordinator, sessionIds, true;
    }

    method Extend(ids: seq<string>)
      modifies this`sessionIds
      ensures sessionIds == old(sessionIds) + ids
    {
      sessionIds := sessionIds + ids;
    }

    /** The caller owns the sessions from here on. */
    method Take() returns (ids: seq<string>)
      modifies this
      ensures ids == old(sessionIds) && sessionIds == [] && !armed
    {
      ids := sessionIds;
      sessionIds, armed := [], false;
    }

    method Drop()
      modifies coordinator`released
      ensures coordinator.released == old(coordinator.released) + (if armed then sessionIds else [])
    {
      if armed {
        for i := 0 to |sessionIds|
          invariant coordinator.released == old(coordinator.released) + sessionIds[..i]
        {
          coordinator.Clean(sessionIds[i]);
        }
        assert sessionIds[..|sessionIds|] == sessionIds;
      }
    }
  }

  ghost predicate Ready(op: CompositionOperator)
    reads op.cache, op.cache.store
  {
    op.cache.store.codec.Valid() && ResultsFit(op.w, op.cache.store.codec) && op.w.hasClient
  }

  // ------------------------------------------- what a template's run gives

  /** An enabled cache is faithful, its counters honest, and executions are deterministic. */
  ghost predicate Trusted(op: CompositionOperator)
    reads op.cache, op.cache.store
  {
    op.cache.enabled ==>
      && NoDigestCollisions(op.w) && Deterministic(op.w)
      && Faithful(op.w, op.cache.store.View()) && op.cache.hits <= op.cache.total
  }

  /** With the cache on, the key materials that this template's runs get to are known. */
  ghost predicate Foreseen(env: Env, w: World, cacheOn: bool, spec: TemplateSpec) {
    cacheOn ==> Covered(w, env.DepsOf(spec), spec.Input())
  }

  ghost predicate AllForeseen(env: Env, w: World, cacheOn: bool, specs: seq<TemplateSpec>) {
    forall i :: 0 <= i < |specs| ==> Foreseen(env, w, cacheOn, specs[i])
  }

  /** Moreover hash order cannot matter to them. */
  ghost predicate Settled(env: Env, w: World, cacheOn: bool, spec: TemplateSpec) {
    Foreseen(env, w, cacheOn, spec) && (cacheOn ==>
      || WellBehaved(w, env.DepsOf(spec), SettingOf(env.DepsOf(spec), spec.Input(), false))
      || NoScopedSupply(env.DepsOf(spec), spec.answers))
  }

  ghost predicate AllSettled(env: Env, w: World, cacheOn: bool, specs: seq<TemplateSpec>) {
    forall i :: 0 <= i < |specs| ==> Settled(env, w, cacheOn, specs[i])
  }

  /** An uncached run from the spec's own answers and states. */
  ghost function Uncached(env: Env, w: World, spec: TemplateSpec, generated: nat, ios: seq<Io>): Visible
    requires |ios| == |env.DepsOf(spec)|
  {
    Run(w, env.DepsOf(spec), Begin(spec.Input(), map[], 0, 0, generated), false, ios).visible
  }

  ghost predicate RunGives(env: Env, w: World, spec: TemplateSpec, generated: nat, ios: seq<Io>, vfs: Vfs,
                           shared: Shared) {
    && |ios| == |env.DepsOf(spec)|
    && var visible := Uncached(env, w, spec, generated, ios);
       visible.Output? && visible.vfs == vfs && visible.shared == shared
  }

  /** An uncached run of the template gives these files and this state. */
  ghost predicate IsRunOf(env: Env, w: World, spec: TemplateSpec, vfs: Vfs, shared: Shared) {
    exists generated: nat, ios: seq<Io> :: RunGives(env, w, spec, generated, ios, vfs, shared)
  }

  ghost predicate RunReports(env: Env, w: World, spec: TemplateSpec, generated: nat, ios: seq<Io>, vfs: Vfs,
                             conflicts: seq<ConflictEntry>) {
    && |ios| == |env.DepsOf(spec)|
    && var visible := Uncached(env, w, spec, generated, ios);
       visible.Output? && visible.vfs == vfs && Lists(conflicts, visible.conflicts)
  }

  /** An uncached run of the template gives these files and reports these conflicts. */
  ghost predicate Reports(env: Env, w: World, spec: TemplateSpec, vfs: Vfs, conflicts: seq<ConflictEntry>) {
    exists generated: nat, ios: seq<Io> :: RunReports(env, w, spec, generated, ios, vfs, conflicts)
  }

  /** The last of these specs reports these conflicts. */
  ghost predicate LastReports(env: Env, w: World, specs: seq<TemplateSpec>, outputs: seq<Vfs>,
                              conflicts: seq<ConflictEntry>) {
    |outputs| == |specs| > 0 && Reports(env, w, specs[|specs| - 1], outputs[|specs| - 1], conflicts)
  }

  ghost predicate RunBreaks(env: Env, w: World, spec: TemplateSpec, generated: nat, ios: seq<Io>) {
    |ios| == |env.DepsOf(spec)| && Uncached(env, w, spec, generated, ios).Error?
  }

  /** An uncached run of the template fails. */
  ghost predicate MayBreak(env: Env, w: World, spec: TemplateSpec) {
    exists generated: nat, ios: seq<Io> :: RunBreaks(env, w, spec, generated, ios)
  }

  /** An uncached run ignores cache and counters. */
  ghost predicate SameButCache(a: Acc, b: Acc) {
    a == b.(cache := a.cache, hits := a.hits, total := a.total)
  }

  ghost predicate SameEnd(p: Progress, q: Progress) {
    && (p.Running? <==> q.Running?) && (p.Asked? <==> q.Asked?)
    && (p.Stopped? ==> p.failure == q.failure)
    && SameButCache(p.acc, q.acc)
  }

  lemma ContributeIgnoresCache(setting: Setting, a: Acc, b: Acc, t: Template, state: TemplateState, order: seq<string>)
    requires SameButCache(a, b)
    ensures SameEnd(Contribute(setting, a, t, state, order), Contribute(setting, b, t, state, order))
  {
    hide NamespaceState, OrderFree, TypeConflict;
  }

  lemma ExecuteIgnoresCache(w: World, setting: Setting, a: Acc, b: Acc, t: Template, sid: string, answers: Answers,
                            io: Io)
    requires SameButCache(a, b)
    ensures SameEnd(Execute(w, setting, a, t, sid, answers, None, io),
                    Execute(w, setting, b, t, sid, answers, None, io))
  {
    hide Contribute;
    match w.execute(t, sid, answers, a.shared.states)
    case ExecErr =>
    case ExecOk(archive, state, session) =>
      var x, y := HandOver(a, session), HandOver(b, session);
      ContributeIgnoresCache(setting, x, y, t, state, io.order);
      if w.unpack(archive).Some? {
        var vfs := w.unpack(archive).value;
        ContributeIgnoresCache(setting, Deliver(x, archive, vfs, state, None, io),
                               Deliver(y, archive, vfs, state, None, io),
                               t, state, io.order);
      }
  }

  lemma StepIgnoresCache(w: World, setting: Setting, a: Acc, b: Acc, dep: ResolvedDependency, io: Io)
    requires !setting.cacheOn && SameButCache(a, b)
    ensures SameEnd(StepDep(w, setting, a, dep, io), StepDep(w, setting, b, dep, io))
  {
    hide Execute, StepCached, TemplateAnswers;
    ExecuteIgnoresCache(w, setting, a.(generated := a.generated + 1), b.(generated := b.generated + 1), dep.template,
                        w.sessionId(a.generated), AnswersFor(setting, a, dep), io);
  }

  lemma {:induction false} StepsIgnoreCache(w: World, setting: Setting, a: Acc, b: Acc,
                                            deps: seq<ResolvedDependency>, ios: seq<Io>)
    requires |ios| == |deps| && !setting.cacheOn && SameButCache(a, b)
    ensures SameEnd(RunSteps(w, setting, a, deps, ios), RunSteps(w, setting, b, deps, ios))
    decreases |deps|
  {
    hide StepDep;
    if deps != [] {
      var n := |deps| - 1;
      StepsIgnoreCache(w, setting, a, b, deps[..n], ios[..n]);
      var p, q := RunSteps(w, setting, a, deps[..n], ios[..n]), RunSteps(w, setting, b, deps[..n], ios[..n]);
      if p.Running? {
        StepIgnoresCache(w, setting, p.acc, q.acc, deps[n], ios[n]);
      }
    }
  }

  /** Cached or not, and whatever is in the cache: what the caller of a run sees is what an
      uncached run shows. */
  lemma RunIsUncached(env: Env, w: World, spec: TemplateSpec, b: Begin, cacheOn: bool, ios: seq<Io>)
    requires |ios| == |env.DepsOf(spec)| && b.initial == spec.Input()
    requires cacheOn ==> NoDigestCollisions(w) && Deterministic(w) && Faithful(w, b.cache) && b.hits <= b.total
    requires Settled(env, w, cacheOn, spec)
    ensures Run(w, env.DepsOf(spec), b, cacheOn, ios).visible == Uncached(env, w, spec, b.generated, ios)
  {
    hide RunSteps, Faithful, WellBehaved, NoScopedSupply, Covered;
    var deps := env.DepsOf(spec);
    var off := Begin(spec.Input(), map[], 0, 0, b.generated);
    if cacheOn {
      if WellBehaved(w, deps, SettingOf(deps, spec.Input(), false)) {
        UncachedAnswersSurvive(w, deps, off, ios);
      } else {
        RunOrderFree(w, deps, off, false, ios);
      }
      CacheIsTransparent(w, deps, b, off, ios, ios);
    } else {
      StepsIgnoreCache(w, SettingOf(deps, spec.Input(), false), StartAcc(b), StartAcc(off), deps, ios);
    }
  }

  // ------------------------------------------------------- what specs give

  /** What one list of specs left behind. */
  datatype Executed = Executed(roots: seq<Template>, outputs: seq<Vfs>, answers: map<string, Answers>,
                               commands: seq<string>)

  /** The commands of a dependency list, in order. */
  function CommandsOf(env: Env, deps: seq<ResolvedDependency>): seq<string> {
    if deps == [] then [] else env.commandsOf(deps[0].template) + CommandsOf(env, deps[1..])
  }

  function Extended(env: Env, before: Executed, spec: TemplateSpec, vfs: Vfs, shared: Shared): Executed {
    var t := env.fetch(spec);
    Executed(before.roots + [t], before.outputs + [vfs], before.answers[spec.key := shared.answers],
             before.commands + CommandsOf(env, env.resolve(t)))
  }

  ghost predicate Reached(env: Env, phase: Phase, i: nat) {
    !env.fails(Fetch(phase, i)) && !env.fails(Resolve(phase, i))
  }

  /** `e` is what one uncached run of each of the specs, in order, leaves behind; without trust
      in the cache the outputs and answers are left open. */
  ghost predicate ExecutionOf(env: Env, w: World, phase: Phase, trusted: bool, specs: seq<TemplateSpec>, e: Executed)
    decreases |specs|
  {
    if specs == [] then e == Executed([], [], map[], [])
    else
      var n := |specs| - 1;
      Reached(env, phase, n)
      && exists before: Executed, vfs: Vfs, shared: Shared ::
           && ExecutionOf(env, w, phase, trusted, specs[..n], before)
           && (trusted ==> IsRunOf(env, w, specs[n], vfs, shared))
           && e == Extended(env, before, specs[n], vfs, shared)
  }

  ghost predicate Asks(env: Env, w: World, trusted: bool, spec: TemplateSpec, vfs: Vfs, shared: Shared,
                       question: Question) {
    (trusted ==> IsRunOf(env, w, spec, vfs, shared)) && shared.needInput == Some(question)
  }

  /** An uncached run of one of the specs stops on this question. */
  ghost predicate AskedBy(env: Env, w: World, trusted: bool, specs: seq<TemplateSpec>, question: Question) {
    exists i: nat, vfs, shared :: i < |specs| && Asks(env, w, trusted, specs[i], vfs, shared, question)
  }

  ghost predicate SpecMayFail(env: Env, w: World, phase: Phase, trusted: bool, spec: TemplateSpec, i: nat) {
    !Reached(env, phase, i) || (trusted ==> MayBreak(env, w, spec))
  }

  /** One of the specs cannot be fetched or resolved, or an uncached run of it fails. */
  ghost predicate SomeSpecFails(env: Env, w: World, phase: Phase, trusted: bool, specs: seq<TemplateSpec>) {
    exists i: nat :: i < |specs| && SpecMayFail(env, w, phase, trusted, specs[i], i)
  }

  lemma {:induction false} ExecutionExtends(env: Env, w: World, phase: Phase, trusted: bool,
                                            specs: seq<TemplateSpec>, i: nat, before: Executed, one: SpecOutcome)
    requires i < |specs| && ExecutionOf(env, w, phase, trusted, specs[..i], before)
    requires one.SpecRan? && SpecShows(env, w, phase, trusted, specs[i], i, one)
    ensures ExecutionOf(env, w, phase, trusted, specs[..i + 1],
                        Executed(before.roots + [one.template], before.outputs + [one.vfs],
                                 before.answers[specs[i].key := one.shared.answers], before.commands + one.commands))
  {
    hide IsRunOf, Reached;
    assert specs[..i + 1][..i] == specs[..i];
    assert Extended(env, before, specs[i], one.vfs, one.shared).commands == before.commands + one.commands;
  }

  // ------------------------------------------------------------ the methods

  /** Resolves one template's dependencies and runs the composition. */
  method ExecuteTemplate(env: Env, op: CompositionOperator, spec: TemplateSpec, resolvable: bool)
      returns (r: Option<CompositionResult>, commands: seq<string>, ghost gained: seq<string>)
    requires Ready(op)
    modifies op`generated, op`fileConflicts, op.cache, op.cache.store, op.coordinator
    ensures op.coordinator.handed == old(op.coordinator.handed) + gained
    ensures r.Some? && r.value.Composed? ==>
              && r.value.sessions == gained && op.coordinator.released == old(op.coordinator.released)
              && commands == CommandsOf(env, env.DepsOf(spec))
    ensures !(r.Some? && r.value.Composed?) ==> op.coordinator.released == old(op.coordinator.released) + gained
    ensures r.Some? <==> resolvable
    ensures old(Trusted(op)) && Foreseen(env, op.w, op.cache.enabled, spec) ==> Trusted(op)
    ensures old(Trusted(op)) && Settled(env, op.w, op.cache.enabled, spec) && r.Some? ==>
              if r.value.Composed?
              then
                && IsRunOf(env, op.w, spec, r.value.vfs, r.value.shared)
                && Reports(env, op.w, spec, r.value.vfs, op.fileConflicts)
              else MayBreak(env, op.w, spec)
  {
    hide Run, Faithful, Settled, NoDigestCollisions, Deterministic, ResultsFit, Covered;
    ghost var b := op.BeginFrom(spec.Input());
    commands, gained := [], [];
    if !resolvable {
      return None, commands, gained;
    }
    var deps := env.DepsOf(spec);
    var composed;
    ghost var ios;
    composed, ios, gained := op.ExecuteComposition(deps, spec.Input());
    if old(Trusted(op)) {
      if op.cache.enabled && Foreseen(env, op.w, true, spec) {
        CacheIsTransparent(op.w, deps, b, b, ios, ios);
      }
      if Settled(env, op.w, op.cache.enabled, spec) {
        RunIsUncached(env, op.w, spec, b, op.cache.enabled, ios);
        if composed.Composed? {
          assert RunGives(env, op.w, spec, b.generated, ios, composed.vfs, composed.shared);
          assert RunReports(env, op.w, spec, b.generated, ios, composed.vfs, op.fileConflicts);
        } else {
          assert RunBreaks(env, op.w, spec, b.generated, ios);
        }
      }
    }
    return Some(composed), CommandsOf(env, deps), gained;
  }

  /** Every session handed over since is held by the guard or released. */
  twostate predicate Accounted(c: Coordinator, guard: SessionCleanupGuard, gained: seq<string>)
    reads c, guard
  {
    && c.handed == old(c.handed) + gained
    && multiset(c.released) + multiset(guard.sessionIds)
       == multiset(old(c.released)) + multiset(old(guard.sessionIds)) + multiset(gained)
  }

  datatype SpecOutcome =
    | SpecRan(template: Template, vfs: Vfs, shared: Shared, commands: seq<string>)
    | SpecStopped(question: Question)
    | SpecBroke

  /** What the outcome says about the spec's uncached runs. */
  ghost predicate SpecShows(env: Env, w: World, phase: Phase, trusted: bool, spec: TemplateSpec, i: nat,
                            outcome: SpecOutcome) {
    match outcome
    case SpecRan(t, vfs, shared, commands) =>
      && Reached(env, phase, i) && t == env.fetch(spec) && commands == CommandsOf(env, env.DepsOf(spec))
      && (trusted ==> IsRunOf(env, w, spec, vfs, shared))
    case SpecStopped(question) => exists vfs, shared :: Asks(env, w, trusted, spec, vfs, shared, question)
    case SpecBroke => SpecMayFail(env, w, phase, trusted, spec, i)
  }

  /** Fetches and executes one template; its sessions join the guard. */
  method ExecuteSpec(env: Env, op: CompositionOperator, guard: SessionCleanupGuard, spec: TemplateSpec, phase: Phase,
                     i: nat, ghost trusted: bool)
      returns (outcome: SpecOutcome, ghost gained: seq<string>)
    requires Ready(op) && guard.coordinator == op.coordinator
    requires trusted ==> Trusted(op) && Settled(env, op.w, op.cache.enabled, spec)
    modifies op`generated, op`fileConflicts, op.cache, op.cache.store, op.coordinator, guard`sessionIds
    ensures op.coordinator.handed == old(op.coordinator.handed) + gained
    ensures if outcome.SpecBroke?
            then
              && op.coordinator.released == old(op.coordinator.released) + gained
              && guard.sessionIds == old(guard.sessionIds)
            else
              && op.coordinator.released == old(op.coordinator.released)
              && guard.sessionIds == old(guard.sessionIds) + gained
    ensures old(Trusted(op)) && Foreseen(env, op.w, op.cache.enabled, spec) ==> Trusted(op)
    ensures SpecShows(env, op.w, phase, trusted, spec, i, outcome)
    ensures trusted && outcome.SpecRan? ==> Reports(env, op.w, spec, outcome.vfs, op.fileConflicts)
  {
    hide ResultsFit, IsRunOf, Reports, MayBreak, Settled, Foreseen, Trusted;
    gained := [];
    if env.fails(Fetch(phase, i)) {
      return SpecBroke, gained;
    }
    var t := env.fetch(spec);
    var r, commands;
    r, commands, gained := ExecuteTemplate(env, op, spec, !env.fails(Resolve(phase, i)));
    if r.None? || r.value.Broken? {
      return SpecBroke, gained;
    }
    guard.Extend(r.value.sessions);
    if r.value.shared.needInput.Some? {
      assert Asks(env, op.w, trusted, spec, r.value.vfs, r.value.shared, r.value.shared.needInput.value);
      return SpecStopped(r.value.shared.needInput.value), gained;
    }
    outcome := SpecRan(t, r.value.vfs, r.value.shared, commands);
  }

  datatype SpecsOutcome = AllRun(executed: Executed) | SpecAsked(question: Question) | SpecFailed

  /** What the outcome says about the specs' uncached runs. */
  ghost predicate SpecsShow(env: Env, w: World, phase: Phase, trusted: bool, specs: seq<TemplateSpec>,
                            outcome: SpecsOutcome) {
    match outcome
    case AllRun(e) => ExecutionOf(env, w, phase, trusted, specs, e)
    case SpecAsked(question) => AskedBy(env, w, trusted, specs, question)
    case SpecFailed => SomeSpecFails(env, w, phase, trusted, specs)
  }

  /** Executes the specs in order; stops at the first failure or unanswered question. */
  method ExecuteSpecs(env: Env, op: CompositionOperator, guard: SessionCleanupGuard, specs: seq<TemplateSpec>,
                      phase: Phase, ghost trusted: bool)
      returns (outcome: SpecsOutcome, ghost gained: seq<string>)
    requires Ready(op) && guard.coordinator == op.coordinator
    requires trusted ==> Trusted(op) && AllSettled(env, op.w, op.cache.enabled, specs)
    modifies op`generated, op`fileConflicts, op.cache, op.cache.store, op.coordinator, guard`sessionIds
    ensures Accounted(op.coordinator, guard, gained)
    ensures !outcome.SpecFailed? ==>
              op.coordinator.released == old(op.coordinator.released)
                && guard.sessionIds == old(guard.sessionIds) + gained
    ensures old(Trusted(op)) && AllForeseen(env, op.w, op.cache.enabled, specs) ==> Trusted(op)
    ensures SpecsShow(env, op.w, phase, trusted, specs, outcome)
    ensures outcome.AllRun? ==>
              && (trusted && specs != [] ==>
                    LastReports(env, op.w, specs, outcome.executed.outputs, op.fileConflicts))
              && (specs == [] ==> op.fileConflicts == old(op.fileConflicts))
  {
    hide Reports, ResultsFit, ExecutionOf, AllSettled, Settled, AllForeseen, Foreseen, Trusted, SomeSpecFails, AskedBy,
         SpecShows, SpecsShow, WellBehaved, NoScopedSupply, Covered;
    SettledIsForeseen(env, op.w, op.cache.enabled, specs);
    ghost var foreseen := Trusted(op) && AllForeseen(env, op.w, op.cache.enabled, specs);
    SpecsRun(env, op.w, phase, trusted, specs);
    var done := Executed([], [], map[], []);
    gained := [];
    for i := 0 to |specs|
      invariant op.coordinator.handed == old(op.coordinator.handed) + gained
      invariant op.coordinator.released == old(op.coordinator.released)
                && guard.sessionIds == old(guard.sessionIds) + gained
      invariant (foreseen ==> Trusted(op)) && (trusted ==> foreseen)
      invariant ExecutionOf(env, op.w, phase, trusted, specs[..i], done)
      invariant |done.outputs| == i
      invariant if i == 0 then op.fileConflicts == old(op.fileConflicts)
                else trusted ==> Reports(env, op.w, specs[i - 1], done.outputs[i - 1], op.fileConflicts)
    {
      var one;
      ghost var more;
      SpecOfAll(env, op.w, op.cache.enabled, specs, i);
      one, more := ExecuteSpec(env, op, guard, specs[i], phase, i, trusted);
      gained := gained + more;
      SpecStopsAll(env, op.w, phase, trusted, specs, i, one);
      match one {
        case SpecBroke =>
          return SpecFailed, gained;
        case SpecStopped(question) =>
          return SpecAsked(question), gained;
        case SpecRan(t, vfs, shared, commands) =>
          ExecutionExtends(env, op.w, phase, trusted, specs, i, done, one);
          done := Executed(done.roots + [t], done.outputs + [vfs], done.answers[specs[i].key := shared.answers],
                           done.commands + commands);
      }
    }
    outcome := AllRun(done);
  }

  lemma SettledIsForeseen(env: Env, w: World, cacheOn: bool, specs: seq<TemplateSpec>)
    ensures AllSettled(env, w, cacheOn, specs) ==> AllForeseen(env, w, cacheOn, specs)
  {
    hide Foreseen, WellBehaved, NoScopedSupply;
    if AllSettled(env, w, cacheOn, specs) {
      forall i | 0 <= i < |specs| ensures Foreseen(env, w, cacheOn, specs[i]) {
        assert Settled(env, w, cacheOn, specs[i]);
      }
    }
  }

  lemma SpecOfAll(env: Env, w: World, cacheOn: bool, specs: seq<TemplateSpec>, i: nat)
    requires i < |specs|
    ensures AllForeseen(env, w, cacheOn, specs) ==> Foreseen(env, w, cacheOn, specs[i])
    ensures AllSettled(env, w, cacheOn, specs) ==> Settled(env, w, cacheOn, specs[i])
  {
    hide Foreseen, Settled;
  }

  lemma {:induction false} SpecsRun(env: Env, w: World, phase: Phase, trusted: bool, specs: seq<TemplateSpec>)
    ensures ExecutionOf(env, w, phase, trusted, specs[..0], Executed([], [], map[], []))
    ensures forall e :: ExecutionOf(env, w, phase, trusted, specs[..|specs|], e) ==>
              SpecsShow(env, w, phase, trusted, specs, AllRun(e))
  {
    hide IsRunOf, Reached;
    assert specs[..|specs|] == specs;
  }

  /** A spec that stops or breaks stops or breaks all. */
  lemma SpecStopsAll(env: Env, w: World, phase: Phase, trusted: bool, specs: seq<TemplateSpec>, i: nat,
                     outcome: SpecOutcome)
    requires i < |specs| && SpecShows(env, w, phase, trusted, specs[i], i, outcome)
    ensures outcome.SpecStopped? ==> SpecsShow(env, w, phase, trusted, specs, SpecAsked(outcome.question))
    ensures outcome.SpecBroke? ==> SpecsShow(env, w, phase, trusted, specs, SpecFailed)
  {
    hide IsRunOf, MayBreak, Reached;
    if outcome.SpecBroke? {
      assert SpecMayFail(env, w, phase, trusted, specs[i], i);
    }
  }

  // -------------------------------------------------- horizontal layering

  function Roots(templates: seq<Template>): seq<ResolvedDependency> {
    seq(|templates|, i requires 0 <= i < |templates| => ResolvedDependency(templates[i], map[]))
  }

  /** One output is taken as it is; several are layered with the resolvers of the root
      templates. */
  ghost function Horizontal(w: World, e: Executed): Option<Vfs> {
    if e.outputs == [] then Some(map[])
    else if |e.outputs| == 1 then Some(e.outputs[0])
    else LayeringOf(w, Roots(e.roots)).Merge(e.outputs)
  }

  method LayerHorizontally(op: CompositionOperator, e: Executed) returns (result: Option<Vfs>)
    modifies op`fileConflicts
    ensures result == Horizontal(op.w, e)
    ensures |e.outputs| > 1 && result.Some? ==>
              Lists(op.fileConflicts, LayeringOf(op.w, Roots(e.roots)).Conflicts(e.outputs))
    ensures |e.outputs| <= 1 ==> op.fileConflicts == old(op.fileConflicts)
  {
    if e.outputs == [] {
      return Some(map[]);
    }
    if |e.outputs| == 1 {
      return Some(e.outputs[0]);
    }
    var layerer := new ResolverAwareLayerer(LayeringOf(op.w, Roots(e.roots)));
    result := layerer.LayerMerge(e.outputs);
    if result.Some? {
      op.fileConflicts := layerer.conflicts;
    }
  }
}
