/** Caller-supplied answers survive a whole run, and no type conflict is ever raised, as long
    as the executor adds to its input answers without disturbing them. */
module AnswerSurvival {
  import opened Wrappers
  import opened Models
  import opened Namespace
  import opened SharedState
  import opened Composition
  import opened Transparency

  ghost predicate Unprefixed(namespaces: seq<string>, key: string) {
    forall n :: n in namespaces ==> !InNamespace(n, key)
  }

  /** `b` keeps `a` and adds keys; in a composition of several templates, added keys carry no
      known namespace prefix. */
  ghost predicate Extends(setting: Setting, a: Answers, b: Answers) {
    && (forall k :: k in a ==> k in b && b[k] == a[k])
    && (setting.Multi() ==> forall k :: k in b && k !in a ==> Unprefixed(setting.namespaces, k))
  }

  ghost predicate Adds(w: World, setting: Setting, t: Template, sid: string, a: Answers, s: States) {
    var r := w.execute(t, sid, a, s);
    r.ExecOk? && r.state.Complete? ==> Extends(setting, a, r.state.answers)
  }

  /** The executor's answers extend the answers it was given. */
  ghost predicate OnlyAdds(w: World, setting: Setting) {
    forall t, sid, a, s :: Adds(w, setting, t, sid, a, s)
  }

  ghost predicate PlainPresets(setting: Setting, dep: ResolvedDependency) {
    setting.Multi() ==> forall k :: k in dep.presetAnswers ==> Unprefixed(setting.namespaces, k)
  }

  ghost predicate Kept(supplied: Answers, answers: Answers) {
    forall k :: k in supplied ==> k in answers && answers[k] == supplied[k]
  }

  /** The supplied answers are all there, and only they are scoped. */
  ghost predicate Intact(setting: Setting, answers: Answers) {
    && Kept(setting.supplied, answers)
    && (setting.Multi() ==> forall k :: k in answers ==> k in setting.supplied || Unprefixed(setting.namespaces, k))
  }

  ghost predicate Agree(a: Answers, b: Answers) {
    forall k :: k in a && k in b ==> a[k] == b[k]
  }

  /** A raw answer of the template does not disturb the shared state. */
  lemma RawAnswer(setting: Setting, ns: string, shared: Answers, presets: Answers, b: Answers, k: string)
    requires setting.Multi() && AllSlashFree(setting.namespaces) && ns in setting.namespaces
    requires Intact(setting, shared) && forall p :: p in presets ==> Unprefixed(setting.namespaces, p)
    requires Extends(setting, TemplateAnswers(Some(ns), setting.namespaces, shared, presets), b)
    requires k in b && Scoped(ns, k) !in setting.supplied
    ensures Unprefixed(setting.namespaces, k)
    ensures k in shared ==> shared[k] == b[k]
  {
    AnswerRouting(ns, setting.namespaces, shared, presets, k);
    assert InNamespace(ns, Scoped(ns, k));
    assert Scoped(ns, k) !in shared;
  }

  /** A scoped answer of the template is the supplied one. */
  lemma ScopedAnswer(setting: Setting, ns: string, shared: Answers, presets: Answers, b: Answers, k: string)
    requires setting.Multi() && AllSlashFree(setting.namespaces) && ns in setting.namespaces
    requires Intact(setting, shared)
    requires Extends(setting, TemplateAnswers(Some(ns), setting.namespaces, shared, presets), b)
    requires k in b && Scoped(ns, k) in setting.supplied
    ensures Scoped(ns, k) in shared && shared[Scoped(ns, k)] == b[k]
  {
    AnswerRouting(ns, setting.namespaces, shared, presets, k);
  }

  /** So the template's answers agree with the shared ones, keep them intact, and scope the
      same way in every hash order. */
  lemma ScopedAnswersAgree(setting: Setting, ns: string, shared: Answers, presets: Answers, b: Answers)
    requires setting.Multi() && AllSlashFree(setting.namespaces) && ns in setting.namespaces
    requires Intact(setting, shared) && forall p :: p in presets ==> Unprefixed(setting.namespaces, p)
    requires Extends(setting, TemplateAnswers(Some(ns), setting.namespaces, shared, presets), b)
    ensures !Collides(ns, b, setting.supplied)
    ensures var merged := Namespaced(Some(ns), b, setting.supplied);
            Agree(shared, merged) && Intact(setting, shared + merged)
  {
    hide TemplateAnswers, Namespaced, Unprefixed;
    forall k | k in b ensures Harmless(setting, ns, shared, b, k) {
      if Scoped(ns, k) in setting.supplied {
        ScopedAnswer(setting, ns, shared, presets, b, k);
      } else {
        RawAnswer(setting, ns, shared, presets, b, k);
      }
    }
    TargetsAgree(setting, ns, shared, b);
    TargetsDiffer(setting, ns, shared, b);
  }

  ghost predicate Harmless(setting: Setting, ns: string, shared: Answers, b: Answers, k: string)
    requires k in b
  {
    if Scoped(ns, k) in setting.supplied then Scoped(ns, k) in shared && shared[Scoped(ns, k)] == b[k]
    else Unprefixed(setting.namespaces, k) && (k in shared ==> shared[k] == b[k])
  }

  lemma TargetsAgree(setting: Setting, ns: string, shared: Answers, b: Answers)
    requires forall k :: k in b ==> Harmless(setting, ns, shared, b, k)
    requires Intact(setting, shared)
    ensures var merged := Namespaced(Some(ns), b, setting.supplied);
            Agree(shared, merged) && Intact(setting, shared + merged)
  {
    hide Unprefixed;
    var supplied := setting.supplied;
    NamespacedTargets(ns, b, supplied);
    hide Namespaced;
    var merged := Namespaced(Some(ns), b, supplied);
    forall t | t in merged
      ensures t in shared ==> shared[t] == merged[t]
      ensures t in supplied || Unprefixed(setting.namespaces, t)
    {
      var k :| k in b && Target(ns, supplied, k) == t && merged[t] == b[k];
      assert Harmless(setting, ns, shared, b, k);
    }
  }

  lemma TargetsDiffer(setting: Setting, ns: string, shared: Answers, b: Answers)
    requires forall k :: k in b ==> Harmless(setting, ns, shared, b, k)
    requires ns in setting.namespaces
    ensures !Collides(ns, b, setting.supplied)
  {
    var supplied := setting.supplied;
    forall k, k' | k in b && k' in b && Target(ns, supplied, k) == Target(ns, supplied, k') ensures k == k' {
      ScopedInjective(ns, k, k');
      assert Harmless(setting, ns, shared, b, k) && Harmless(setting, ns, shared, b, k');
      assert InNamespace(ns, Scoped(ns, k)) && InNamespace(ns, Scoped(ns, k'));
    }
  }

  lemma ContributeKeeps(setting: Setting, acc: Acc, t: Template, presets: Answers, state: TemplateState,
                        order: seq<string>)
    requires setting.Multi() ==> AllSlashFree(setting.namespaces) && t.id in setting.namespaces
    requires setting.Multi() ==> forall p :: p in presets ==> Unprefixed(setting.namespaces, p)
    requires Intact(setting, acc.shared.answers)
    requires state.Complete? ==>
               Extends(setting, TemplateAnswers(setting.NamespaceFor(t), setting.namespaces, acc.shared.answers,
                                                presets), state.answers)
    ensures var p := Contribute(setting, acc, t, state, order);
            && !p.Stopped? && Intact(setting, p.acc.shared.answers)
            && Kept(acc.shared.answers, p.acc.shared.answers)
            && (acc.orderFree ==> p.acc.orderFree)
  {
    var shared := acc.shared.answers;
    if state.Complete? {
      if setting.Multi() {
        ScopedAnswersAgree(setting, t.id, shared, presets, state.answers);
        OrderFreeScoping(state, Some(t.id), setting.supplied, order);
        hide ScopedIn, TemplateAnswers, Namespaced, Collides, Intact, Unprefixed;
        NoConflict(shared, Namespaced(Some(t.id), state.answers, setting.supplied));
      } else {
        forall k | k in shared ensures k in state.answers && state.answers[k] == shared[k] {
          assert k in TemplateAnswers(None, setting.namespaces, shared, presets);
        }
        NoConflict(shared, state.answers);
      }
    }
  }

  lemma NoConflict(a: Answers, b: Answers)
    requires Agree(a, b)
    ensures !TypeConflict(a, b) && Kept(a, a + b)
  {
  }

  ghost predicate Keeps(setting: Setting, acc: Acc, p: Progress) {
    && !(p.Stopped? && p.failure.AnswerTypeConflict?)
    && Intact(setting, p.acc.shared.answers) && Kept(acc.shared.answers, p.acc.shared.answers)
    && (acc.orderFree ==> p.acc.orderFree)
  }

  ghost predicate Ready(w: World, setting: Setting, dep: ResolvedDependency) {
    && OnlyAdds(w, setting) && PlainPresets(setting, dep)
    && (setting.Multi() && IsExecutable(dep) ==>
        AllSlashFree(setting.namespaces) && dep.template.id in setting.namespaces)
  }

  /** An uncached step. */
  lemma StepKeeps(w: World, setting: Setting, acc: Acc, dep: ResolvedDependency, io: Io)
    requires !setting.cacheOn && Ready(w, setting, dep) && Intact(setting, acc.shared.answers)
    ensures Keeps(setting, acc, StepDep(w, setting, acc, dep, io))
  {
    hide Contribute, TemplateAnswers, Unprefixed;
    if IsExecutable(dep) {
      var sid := w.sessionId(acc.generated);
      var begun := acc.(generated := acc.generated + 1);
      var answers := AnswersFor(setting, acc, dep);
      var r := w.execute(dep.template, sid, answers, acc.shared.states);
      assert Adds(w, setting, dep.template, sid, answers, acc.shared.states);
      if r.ExecOk? {
        AbsorbKeeps(w, setting, HandOver(begun, r.session), dep, r.archive, r.state, io);
      }
    }
  }

  lemma AbsorbKeeps(w: World, setting: Setting, acc: Acc, dep: ResolvedDependency, archive: Bytes,
                    state: TemplateState, io: Io)
    requires Ready(w, setting, dep) && IsExecutable(dep) && Intact(setting, acc.shared.answers)
    requires state.Complete? ==> Extends(setting, AnswersFor(setting, acc, dep), state.answers)
    ensures Keeps(setting, acc, Absorb(w, setting, acc, dep.template, archive, state, None, io))
  {
    hide Contribute, TemplateAnswers, Unprefixed;
    if state.NeedInput? {
      ContributeKeeps(setting, acc, dep.template, dep.presetAnswers, state, io.order);
    } else if w.unpack(archive).Some? {
      var next := Deliver(acc, archive, w.unpack(archive).value, state, None, io);
      ContributeKeeps(setting, next, dep.template, dep.presetAnswers, state, io.order);
    }
  }

  lemma {:induction false} RunStepsKeep(w: World, setting: Setting, start: Acc, deps: seq<ResolvedDependency>,
                                        ios: seq<Io>)
    requires |ios| == |deps| && !setting.cacheOn && Intact(setting, start.shared.answers)
    requires forall i :: 0 <= i < |deps| ==> Ready(w, setting, deps[i])
    ensures Keeps(setting, start, RunSteps(w, setting, start, deps, ios))
    decreases |deps|
  {
    hide StepDep, Ready, Unprefixed;
    if deps != [] {
      var n := |deps| - 1;
      RunStepsKeep(w, setting, start, deps[..n], ios[..n]);
      var p := RunSteps(w, setting, start, deps[..n], ios[..n]);
      if p.Running? {
        StepKeeps(w, setting, p.acc, deps[n], ios[n]);
      }
    }
  }

  /** What is asked of executor, presets and template ids. */
  ghost predicate WellBehaved(w: World, deps: seq<ResolvedDependency>, setting: Setting) {
    && OnlyAdds(w, setting)
    && (setting.Multi() ==> AllSlashFree(setting.namespaces))
    && forall d :: d in deps ==> PlainPresets(setting, d)
  }

  /** The supplied answers may be global, scoped, or both; in a composition of several
      templates a supplied key needs no particular shape. */
  ghost predicate AnswersSurvive(b: Begin, o: Outcome) {
    && o.visible != Error(AnswerTypeConflict)
    && (o.visible.Output? ==> Kept(b.initial.answers, o.visible.shared.answers))
  }

  lemma UncachedAnswersSurvive(w: World, deps: seq<ResolvedDependency>, b: Begin, ios: seq<Io>)
    requires |ios| == |deps| && WellBehaved(w, deps, SettingOf(deps, b.initial, false))
    ensures AnswersSurvive(b, Run(w, deps, b, false, ios)) && Run(w, deps, b, false, ios).acc.orderFree
  {
    hide StepDep, Unprefixed;
    var setting := SettingOf(deps, b.initial, false);
    forall i | 0 <= i < |deps| ensures Ready(w, setting, deps[i]) {
      assert deps[i] in deps;
      if IsExecutable(deps[i]) { ListsExecutableIds(deps, deps[i]); }
    }
    RunStepsKeep(w, setting, StartAcc(b), deps, ios);
  }

  /** Every caller-supplied answer, global or scoped, keeps its value to the end of the run,
      no type conflict is raised, and hash order never matters, with the cache on or off. */
  lemma CallerAnswersSurvive(w: World, deps: seq<ResolvedDependency>, b: Begin, cacheOn: bool, ios: seq<Io>)
    requires |ios| == |deps| && WellBehaved(w, deps, SettingOf(deps, b.initial, false))
    requires cacheOn ==>
               && NoDigestCollisions(w) && Deterministic(w) && Covered(w, deps, b.initial)
               && Faithful(w, b.cache) && b.hits <= b.total
    ensures var o := Run(w, deps, b, cacheOn, ios);
            AnswersSurvive(b, o) && o.acc.orderFree
  {
    hide RunSteps, Finish, WellBehaved, Covered;
    UncachedAnswersSurvive(w, deps, b, ios);
    if cacheOn {
      CacheIsTransparent(w, deps, b, b, ios, ios);
    }
  }
}
