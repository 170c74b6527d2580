/** A composition of one template, whose uncached runs all give the same, and where everything
    that is asked of executors, digests and caches holds. */
module OneTemplate {
  import opened Wrappers
  import opened Models
  import opened CacheKey
  import opened CacheStore
  import opened DiskTree
  import opened Layerer
  import opened SharedState
  import opened Composition
  import opened Transparency
  import opened HashOrder
  import opened Sessions

  const SPEC := TemplateSpec("user/a", 1, map[], map[])
  const TEMPLATE := Template("a", 1, Some(Images("", "", "", "")), [], [], [], [])
  const DEPS := [ResolvedDependency(TEMPLATE, map[])]
  const OUTPUT: Vfs := map["c" := []]
  const DIGEST: string := seq(64, _ => 'a')

  /** Every execution completes, and its archive holds one file.  One key material is known. */
  function OneFileWorld(): World {
    World((t: Template, sid: string, a: Answers, s: States) => ExecOk([], Complete(map[]), ""),
          _ => Some(OUTPUT), _ => DIGEST, _ => "", Services((_, _) => false, _ => 0, (_, _, _) => None), true,
          m => m == MaterialOf(TEMPLATE, map[], map[]))
  }

  /** The environment of a run that adds one template; `local` are the local files and `wanted`
      is what the merge gives. */
  function OneTemplateEnv(fails: Call -> bool, local: map<Path, Bytes>, wanted: map<Path, Bytes>): Env {
    Env(fails, _ => TEMPLATE, _ => DEPS, _ => [], _ => local, _ => map[], (_, _, _) => wanted, (_, _, _) => [],
        _ => Some(Plan([], [SPEC], [SPEC])), (_, _) => [], (t, _) => t)
  }

  const AFTER_RUN := Shared(map[], map[], ["a"], None)
  const NOTHING := Executed([], [], map[], [])
  const EXECUTED := Executed([TEMPLATE], [OUTPUT], map["user/a" := map[]], [])

  lemma DepsShape()
    ensures OneFileWorld().hasClient && DEPS[..0] == [] && Executable(DEPS) == DEPS && NamespacesOf(DEPS) == ["a"]
  {
    assert DEPS[..0] == [] && Executable([]) == [];
    assert Executable(DEPS) == DEPS;
  }

  /** What is asked of digests and executor can be met, with digests that are cache keys. */
  lemma HypothesesAreMet(env: Env)
    requires env.DepsOf(SPEC) == DEPS
    ensures var w := OneFileWorld();
            && NoDigestCollisions(w) && Deterministic(w) && Faithful(w, map[]) && Settled(env, w, true, SPEC)
            && IsCacheable(TEMPLATE) && forall m :: IsCacheKey(w.digest(m))
  {
    hide MaterialOf;
    var w := OneFileWorld();
    DepsShape();
    var none: Answers := map[];
    assert none + none == none;
    forall b: Begin, ios: seq<Io> | b.initial == SPEC.Input() && |ios| == 1
      ensures PathKnown(w, SettingOf(DEPS, SPEC.Input(), false), StartAcc(b), DEPS, ios)
    {
      assert ios[..0] == [];
      assert KnownAfter(w, SettingOf(DEPS, SPEC.Input(), false), StartAcc(b), DEPS, ios, 0);
    }
    assert NoScopedSupply(DEPS, SPEC.answers);
  }

  lemma OneStep(setting: Setting, start: Acc, io: Io)
    requires setting == Setting(["a"], map[], false)
    requires start.shared == SPEC.Input() && start.layers == []
    ensures var p := StepDep(OneFileWorld(), setting, start, DEPS[0], io);
            p.Running? && p.acc.shared == AFTER_RUN && p.acc.layers == [OUTPUT]
  {
    var none: Answers := map[];
    assert none + none == none && [] + ["a"] == ["a"];
    assert !TypeConflict(none, none);
  }

  /** Every uncached run of the template gives the one file and asks nothing. */
  lemma OneTemplateRun(env: Env, generated: nat, ios: seq<Io>)
    requires env.DepsOf(SPEC) == DEPS && |ios| == 1
    ensures Uncached(env, OneFileWorld(), SPEC, generated, ios) == Output(OUTPUT, AFTER_RUN, map[])
  {
    hide StepDep, OneFileWorld;
    var w, b := OneFileWorld(), Begin(SPEC.Input(), map[], 0, 0, generated);
    DepsShape();
    assert ios[..0] == [];
    var setting := SettingOf(DEPS, b.initial, false);
    assert RunSteps(w, setting, StartAcc(b), [], []) == Running(StartAcc(b));
    OneStep(setting, StartAcc(b), ios[0]);
    assert RunSteps(w, setting, StartAcc(b), DEPS, ios) == StepDep(w, setting, StartAcc(b), DEPS[0], ios[0]);
    SingleLayer(LayeringOf(w, DEPS), [OUTPUT]);
  }

  lemma NoCommands(env: Env)
    requires env.DepsOf(SPEC) == DEPS && env.fetch(SPEC) == TEMPLATE && env.commandsOf(TEMPLATE) == []
    ensures Extended(env, NOTHING, SPEC, OUTPUT, AFTER_RUN) == EXECUTED
  {
    assert CommandsOf(env, DEPS[1..]) == [];
    assert CommandsOf(env, DEPS) == [];
  }

  lemma {:induction false} OneExecution(env: Env, e: Executed)
    requires Reached(env, Current, 0) && Extended(env, NOTHING, SPEC, OUTPUT, AFTER_RUN) == EXECUTED
    requires forall vfs, shared ::
               IsRunOf(env, OneFileWorld(), SPEC, vfs, shared) <==> vfs == OUTPUT && shared == AFTER_RUN
    ensures ExecutionOf(env, OneFileWorld(), Current, true, [SPEC], e) <==> e == EXECUTED
  {
    hide OneFileWorld, IsRunOf, Extended;
    var w, specs := OneFileWorld(), [SPEC];
    assert specs[..0] == [] && specs[0] == SPEC;
    if e == EXECUTED {
      assert ExecutionOf(env, w, Current, true, specs[..0], NOTHING) && IsRunOf(env, w, specs[0], OUTPUT, AFTER_RUN);
    }
  }

  lemma OnlyRun(env: Env, vfs: Vfs, shared: Shared)
    requires env.DepsOf(SPEC) == DEPS
    ensures IsRunOf(env, OneFileWorld(), SPEC, vfs, shared) <==> vfs == OUTPUT && shared == AFTER_RUN
  {
    hide Uncached, OneFileWorld;
    forall generated: nat, ios: seq<Io> | |ios| == 1
      ensures RunGives(env, OneFileWorld(), SPEC, generated, ios, vfs, shared) <==> vfs == OUTPUT && shared == AFTER_RUN
    {
      OneTemplateRun(env, generated, ios);
    }
    if vfs == OUTPUT && shared == AFTER_RUN {
      assert RunGives(env, OneFileWorld(), SPEC, 0, [Io(false, false, false, [])], vfs, shared);
    }
  }

  lemma NoConflicts(env: Env)
    requires env.DepsOf(SPEC) == DEPS
    ensures LastReports(env, OneFileWorld(), [SPEC], [OUTPUT], [])
  {
    hide Uncached, OneFileWorld;
    var ios := [Io(false, false, false, [])];
    OneTemplateRun(env, 0, ios);
    assert RunReports(env, OneFileWorld(), SPEC, 0, ios, OUTPUT, []);
  }

  lemma NeverBreaks(env: Env)
    requires env.DepsOf(SPEC) == DEPS
    ensures !MayBreak(env, OneFileWorld(), SPEC)
  {
    hide Uncached, OneFileWorld;
    forall generated: nat, ios: seq<Io> ensures !RunBreaks(env, OneFileWorld(), SPEC, generated, ios) {
      if |ios| == 1 { OneTemplateRun(env, generated, ios); }
    }
  }

  lemma OneOutput(e: Executed)
    requires e == NOTHING || e == EXECUTED
    ensures Horizontal(OneFileWorld(), e) == Some(if e == NOTHING then map[] else OUTPUT)
  {
  }
}
