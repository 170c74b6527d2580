/** Laws of whole runs, for one executable template and for several: what becomes of presets,
    under which id a question is asked and answered, in which order templates are recorded, and
    which of them are never looked up. */
module RunLaws {
  import opened Wrappers
  import opened Models
  import opened CacheKey
  import opened Namespace
  import opened SharedState
  import opened Composition
  import opened Transparency
  import opened CacheEffect
  import opened AnswerSurvival

  // -------------------------------------------------------------- presets

  /** What a template completes with under an id that it was given as a preset. */
  ghost predicate Presets(shared: Answers, dep: ResolvedDependency, key: string, after: Answers)
    requires key in dep.presetAnswers
  {
    key in after && after[key] == if key in shared then shared[key] else dep.presetAnswers[key]
  }

  lemma PresetIsGiven(setting: Setting, acc: Acc, dep: ResolvedDependency, key: string)
    requires Intact(setting, acc.shared.answers) && PlainPresets(setting, dep) && key in dep.presetAnswers
    requires setting.Multi() ==> AllSlashFree(setting.namespaces) && dep.template.id in setting.namespaces
    requires setting.Multi() ==> Scoped(dep.template.id, key) !in setting.supplied
    ensures Presets(acc.shared.answers, dep, key, AnswersFor(setting, acc, dep))
  {
    hide TemplateAnswers;
    var ns, shared := dep.template.id, acc.shared.answers;
    if setting.Multi() {
      AnswerRouting(ns, setting.namespaces, shared, dep.presetAnswers, key);
      assert InNamespace(ns, Scoped(ns, key));
      assert Scoped(ns, key) !in shared;
    } else {
      AnswerRoutingAlone(setting.namespaces, shared, dep.presetAnswers, key);
    }
  }

  /** A raw answer that a template returns is shared under its raw id. */
  lemma RawIsShared(setting: Setting, acc: Acc, dep: ResolvedDependency, answers: Answers, order: seq<string>,
                    key: string)
    requires Intact(setting, acc.shared.answers) && PlainPresets(setting, dep) && key in dep.presetAnswers
    requires setting.Multi() ==> AllSlashFree(setting.namespaces) && dep.template.id in setting.namespaces
    requires setting.Multi() ==> Scoped(dep.template.id, key) !in setting.supplied
    requires Extends(setting, AnswersFor(setting, acc, dep), answers) && key in answers
    requires Contribute(setting, acc, dep.template, Complete(answers), order).Running?
    ensures var after := Contribute(setting, acc, dep.template, Complete(answers), order).acc.shared.answers;
            key in after && after[key] == answers[key]
  {
    hide TemplateAnswers;
    if setting.Multi() {
      var ns := dep.template.id;
      ScopedAnswersAgree(setting, ns, acc.shared.answers, dep.presetAnswers, answers);
      OrderFreeScoping(Complete(answers), Some(ns), setting.supplied, order);
      assert !InNamespace(ns, key);
    }
  }

  lemma PresetEnters(w: World, setting: Setting, acc: Acc, dep: ResolvedDependency, io: Io, key: string)
    requires !setting.cacheOn && Ready(w, setting, dep) && CompletesOrAsks(w) && Intact(setting, acc.shared.answers)
    requires IsExecutable(dep) && key in dep.presetAnswers
    requires setting.Multi() ==> Scoped(dep.template.id, key) !in setting.supplied
    requires StepDep(w, setting, acc, dep, io).Running?
    ensures Presets(acc.shared.answers, dep, key, StepDep(w, setting, acc, dep, io).acc.shared.answers)
  {
    hide Contribute, TemplateAnswers, Intact, OnlyAdds;
    var t, sid, begun := dep.template, w.sessionId(acc.generated), acc.(generated := acc.generated + 1);
    var answers := AnswersFor(setting, acc, dep);
    PresetIsGiven(setting, acc, dep, key);
    var r := w.execute(t, sid, answers, acc.shared.states);
    AddsAt(w, setting, t, sid, answers, acc.shared.states);
    var handed := HandOver(begun, r.session);
    ContributeTouches(setting, handed, t, r.state, io.order);
    var delivered := Deliver(handed, r.archive, w.unpack(r.archive).value, r.state, None, io);
    RawIsShared(setting, delivered, dep, r.state.answers, io.order, key);
  }

  lemma AddsAt(w: World, setting: Setting, t: Template, sid: string, a: Answers, s: States)
    requires OnlyAdds(w, setting) && CompletesOrAsks(w)
    ensures Adds(w, setting, t, sid, a, s) && Terminal(w, t, sid, a, s)
  {
  }

  /** Every preset of an executed dependency that no scoped answer overrides is in the answers
      that a completed run returns, with its value unless the id was answered before. */
  lemma {:induction false} PresetsSurvive(w: World, setting: Setting, start: Acc, deps: seq<ResolvedDependency>,
                                          ios: seq<Io>, k: nat, key: string)
    requires |ios| == |deps| && !setting.cacheOn && CompletesOrAsks(w) && Intact(setting, start.shared.answers)
    requires forall i :: 0 <= i < |deps| ==> Ready(w, setting, deps[i])
    requires RunSteps(w, setting, start, deps, ios).Running?
    requires k < |deps| && IsExecutable(deps[k]) && key in deps[k].presetAnswers
    requires setting.Multi() ==> Scoped(deps[k].template.id, key) !in setting.supplied
    ensures RunSteps(w, setting, start, deps[..k], ios[..k]).Running?
    ensures Presets(RunSteps(w, setting, start, deps[..k], ios[..k]).acc.shared.answers, deps[k], key,
                    RunSteps(w, setting, start, deps, ios).acc.shared.answers)
    decreases |deps|
  {
    hide StepDep, Ready, Intact, CompletesOrAsks;
    var n := |deps| - 1;
    RunStepsKeep(w, setting, start, deps[..n], ios[..n]);
    var p := RunSteps(w, setting, start, deps[..n], ios[..n]);
    if k < n {
      PresetsSurvive(w, setting, start, deps[..n], ios[..n], k, key);
      assert deps[..n][..k] == deps[..k] && ios[..n][..k] == ios[..k];
      StepKeeps(w, setting, p.acc, deps[n], ios[n]);
    } else {
      PresetEnters(w, setting, p.acc, deps[n], ios[n], key);
    }
  }

  /** The shared answers when an uncached run gets to dependency `k`. */
  ghost function AnswersBefore(w: World, deps: seq<ResolvedDependency>, b: Begin, ios: seq<Io>, k: nat): Answers
    requires |ios| == |deps| && k <= |deps|
  {
    RunSteps(w, SettingOf(deps, b.initial, false), StartAcc(b), deps[..k], ios[..k]).acc.shared.answers
  }

  lemma {:induction false} GroupsAnswerNothing(w: World, setting: Setting, start: Acc, deps: seq<ResolvedDependency>,
                                               ios: seq<Io>)
    requires |ios| == |deps| && Executable(deps) == []
    ensures RunSteps(w, setting, start, deps, ios).Running?
    ensures RunSteps(w, setting, start, deps, ios).acc.shared.answers == start.shared.answers
    decreases |deps|
  {
    hide Execute, StepCached, AnswersFor;
    if deps != [] {
      GroupsAnswerNothing(w, setting, start, deps[..|deps| - 1], ios[..|deps| - 1]);
    }
  }

  /** The only template of its composition that executes meets the caller's answers alone. */
  lemma {:induction false} AloneMeetsCaller(w: World, deps: seq<ResolvedDependency>, b: Begin, ios: seq<Io>, k: nat)
    requires |ios| == |deps| && k < |deps| && IsExecutable(deps[k]) && |Executable(deps)| == 1
    ensures AnswersBefore(w, deps, b, ios, k) == b.initial.answers
  {
    hide RunSteps;
    ExecutableOfPrefix(deps, k);
    GroupsAnswerNothing(w, SettingOf(deps, b.initial, false), StartAcc(b), deps[..k], ios[..k]);
  }

  /** With the cache on or off: the answers that a completed run returns hold every preset of an
      executed dependency, unless the caller answered the id for that template; its value is
      the preset's unless the id was answered when the run got there, which with one executable
      template means by the caller. */
  lemma {:induction false} PresetsAreReturned(w: World, deps: seq<ResolvedDependency>, b: Begin, cacheOn: bool,
                                              ios: seq<Io>, k: nat, key: string)
    requires |ios| == |deps| && WellBehaved(w, deps, SettingOf(deps, b.initial, false)) && CompletesOrAsks(w)
    requires cacheOn ==>
               && NoDigestCollisions(w) && Deterministic(w) && Covered(w, deps, b.initial)
               && Faithful(w, b.cache) && b.hits <= b.total
    requires RunSteps(w, SettingOf(deps, b.initial, cacheOn), StartAcc(b), deps, ios).Running?
    requires k < |deps| && IsExecutable(deps[k]) && key in deps[k].presetAnswers
    requires |Executable(deps)| > 1 ==> (deps[k].template.id + "/" + key) !in b.initial.answers
    ensures var visible, before := Run(w, deps, b, cacheOn, ios).visible, AnswersBefore(w, deps, b, ios, k);
            && (visible.Output? ==>
                  && key in visible.shared.answers
                  && visible.shared.answers[key] ==
                     if key in before then before[key] else deps[k].presetAnswers[key])
            && (|Executable(deps)| == 1 ==> before == b.initial.answers)
  {
    hide RunSteps, OnlyAdds, PlainPresets, Faithful, PathKnown, CompletesOrAsks, Intact, Replayable;
    var setting, off := SettingOf(deps, b.initial, cacheOn), SettingOf(deps, b.initial, false);
    assert Scoped(deps[k].template.id, key) == deps[k].template.id + "/" + key;
    if cacheOn {
      DeterministicIsReplayable(w);
      assert PathKnown(w, off, StartAcc(b), deps, ios);
      RunStepsSound(w, setting, StartAcc(b), StartAcc(b), deps, ios);
    }
    AllReady(w, deps, b.initial);
    PresetsSurvive(w, off, StartAcc(b), deps, ios, k, key);
    if |Executable(deps)| == 1 { AloneMeetsCaller(w, deps, b, ios, k); }
  }

  lemma AllReady(w: World, deps: seq<ResolvedDependency>, initial: Shared)
    requires WellBehaved(w, deps, SettingOf(deps, initial, false))
    ensures forall i :: 0 <= i < |deps| ==> Ready(w, SettingOf(deps, initial, false), deps[i])
    ensures Intact(SettingOf(deps, initial, false), initial.answers)
  {
    hide OnlyAdds, Unprefixed;
    forall i | 0 <= i < |deps| ensures Ready(w, SettingOf(deps, initial, false), deps[i]) {
      assert deps[i] in deps;
      if IsExecutable(deps[i]) { ListsExecutableIds(deps, deps[i]); }
    }
  }

  // ------------------------------------------------------------ questions

  /** The id under which a template's question reaches the caller. */
  function AskedId(deps: seq<ResolvedDependency>, t: Template, id: string): string {
    if |Executable(deps)| > 1 then t.id + "/" + id else id
  }

  /** A run stops at the first question: it returns no files, the answers so far, and the question
      as it was asked but for its id. */
  lemma {:induction false} QuestionIsReturned(w: World, deps: seq<ResolvedDependency>, b: Begin, ios: seq<Io>,
                                              k: nat, q: Question, det: States)
    requires |ios| == |deps| && k < |deps| && IsExecutable(deps[k])
    requires |Executable(deps)| > 1 ==> '/' !in deps[k].template.id
    requires var p := RunSteps(w, SettingOf(deps, b.initial, false), StartAcc(b), deps[..k], ios[..k]);
             && p.Running?
             && var r := w.execute(deps[k].template, w.sessionId(p.acc.generated),
                                   AnswersFor(SettingOf(deps, b.initial, false), p.acc, deps[k]), p.acc.shared.states);
                r.ExecOk? && r.state == NeedInput(q, det)
    ensures var visible := Run(w, deps, b, false, ios).visible;
            && visible.Output? && visible.vfs == map[] && visible.conflicts == map[]
            && visible.shared.needInput == Some(q.(id := AskedId(deps, deps[k].template, q.id)))
            && visible.shared.answers == AnswersBefore(w, deps, b, ios, k)
  {
    hide AnswersFor;
    var setting := SettingOf(deps, b.initial, false);
    var p := RunSteps(w, setting, StartAcc(b), deps[..k], ios[..k]);
    assert deps[..k + 1][..k] == deps[..k] && ios[..k + 1][..k] == ios[..k];
    assert RunSteps(w, setting, StartAcc(b), deps[..k + 1], ios[..k + 1])
           == StepDep(w, setting, p.acc, deps[k], ios[k]);
    AskedStays(w, setting, StartAcc(b), deps, ios, k + 1);
  }

  lemma {:induction false} AskedStays(w: World, setting: Setting, start: Acc, deps: seq<ResolvedDependency>,
                                      ios: seq<Io>, k: nat)
    requires |ios| == |deps| && k <= |deps| && RunSteps(w, setting, start, deps[..k], ios[..k]).Asked?
    ensures RunSteps(w, setting, start, deps, ios) == RunSteps(w, setting, start, deps[..k], ios[..k])
    decreases |deps|
  {
    hide StepDep;
    if k < |deps| {
      var n := |deps| - 1;
      assert deps[..n][..k] == deps[..k] && ios[..n][..k] == ios[..k];
      AskedStays(w, setting, start, deps[..n], ios[..n], k);
    } else {
      assert deps[..k] == deps && ios[..k] == ios;
    }
  }

  /** Answered under that id, the template is given the answer in the next run. */
  lemma {:induction false} AnswerReachesTemplate(w: World, deps: seq<ResolvedDependency>, b: Begin, ios: seq<Io>,
                                                 k: nat, id: string)
    requires |ios| == |deps| && k < |deps| && IsExecutable(deps[k])
    requires WellBehaved(w, deps, SettingOf(deps, b.initial, false))
    requires RunSteps(w, SettingOf(deps, b.initial, false), StartAcc(b), deps[..k], ios[..k]).Running?
    requires AskedId(deps, deps[k].template, id) in b.initial.answers
    ensures var setting := SettingOf(deps, b.initial, false);
            var p := RunSteps(w, setting, StartAcc(b), deps[..k], ios[..k]);
            var given := AnswersFor(setting, p.acc, deps[k]);
            id in given && given[id] == b.initial.answers[AskedId(deps, deps[k].template, id)]
  {
    hide RunSteps, OnlyAdds, TemplateAnswers;
    var setting, t := SettingOf(deps, b.initial, false), deps[k].template;
    AllReady(w, deps, b.initial);
    RunStepsKeep(w, setting, StartAcc(b), deps[..k], ios[..k]);
    var shared := RunSteps(w, setting, StartAcc(b), deps[..k], ios[..k]).acc.shared.answers;
    if setting.Multi() {
      ListsExecutableIds(deps, deps[k]);
      assert Scoped(t.id, id) == t.id + "/" + id;
      AnswerRouting(t.id, setting.namespaces, shared, deps[k].presetAnswers, id);
    } else {
      AnswerRoutingAlone(setting.namespaces, shared, deps[k].presetAnswers, id);
    }
  }

  // ---------------------------------------------------- order and states

  /** `next` follows `before` after one more template. */
  ghost predicate Records(before: Shared, next: Shared, id: string) {
    && next.executionOrder == before.executionOrder + [id]
    && next.states == before.states && next.needInput == before.needInput
  }

  lemma ContributionRecords(setting: Setting, t: Template, order: seq<string>)
    ensures forall acc, state :: Contribute(setting, acc, t, state, order).Running? ==>
              Records(acc.shared, Contribute(setting, acc, t, state, order).acc.shared, t.id)
    ensures forall acc, state :: Contribute(setting, acc, t, state, order).acc.shared.states == acc.shared.states
    ensures forall acc, state :: Contribute(setting, acc, t, state, order).acc.generated == acc.generated
  {
    hide ScopedIn, TypeConflict;
  }

  lemma StepRecords(w: World, setting: Setting, acc: Acc, dep: ResolvedDependency, io: Io)
    requires StepDep(w, setting, acc, dep, io).Running?
    ensures Records(acc.shared, StepDep(w, setting, acc, dep, io).acc.shared, dep.template.id)
    ensures StepDep(w, setting, acc, dep, io).acc.generated == acc.generated + if IsExecutable(dep) then 1 else 0
    ensures setting.Multi() && IsExecutable(dep) ==> SlashFree(dep.template.id)
  {
    hide AnswersFor, Contribute, MaterialOf;
    ContributionRecords(setting, dep.template, io.order);
  }

  lemma StepKeepsStates(w: World, setting: Setting, acc: Acc, dep: ResolvedDependency, io: Io)
    ensures StepDep(w, setting, acc, dep, io).acc.shared.states == acc.shared.states
  {
    hide AnswersFor, Contribute, MaterialOf;
    ContributionRecords(setting, dep.template, io.order);
  }

  /** However a run ends, the deterministic states are those it was given. */
  lemma {:induction false} StatesStay(w: World, setting: Setting, start: Acc, deps: seq<ResolvedDependency>,
                                      ios: seq<Io>)
    requires |ios| == |deps|
    ensures RunSteps(w, setting, start, deps, ios).acc.shared.states == start.shared.states
    decreases |deps|
  {
    hide StepDep;
    if deps != [] {
      var n := |deps| - 1;
      StatesStay(w, setting, start, deps[..n], ios[..n]);
      StepKeepsStates(w, setting, RunSteps(w, setting, start, deps[..n], ios[..n]).acc, deps[n], ios[n]);
    }
  }

  /** A completed run has recorded every dependency in order, groups included, has left the
      deterministic states and the pending question as they were, and has met no slash in an id
      that it scopes by. */
  lemma {:induction false} RunRecords(w: World, setting: Setting, start: Acc, deps: seq<ResolvedDependency>,
                                      ios: seq<Io>)
    requires |ios| == |deps| && RunSteps(w, setting, start, deps, ios).Running?
    ensures var shared := RunSteps(w, setting, start, deps, ios).acc.shared;
            && shared.executionOrder == start.shared.executionOrder
                                        + seq(|deps|, i requires 0 <= i < |deps| => deps[i].template.id)
            && shared.states == start.shared.states && shared.needInput == start.shared.needInput
    ensures setting.Multi() ==> forall d :: d in deps && IsExecutable(d) ==> SlashFree(d.template.id)
    decreases |deps|
  {
    hide StepDep;
    if deps != [] {
      var n := |deps| - 1;
      RunRecords(w, setting, start, deps[..n], ios[..n]);
      StepRecords(w, setting, RunSteps(w, setting, start, deps[..n], ios[..n]).acc, deps[n], ios[n]);
      assert deps == deps[..n] + [deps[n]];
    }
  }

  /** It has generated one session id for each execution. */
  lemma {:induction false} OneIdEach(w: World, setting: Setting, start: Acc, deps: seq<ResolvedDependency>,
                                     ios: seq<Io>)
    requires |ios| == |deps| && RunSteps(w, setting, start, deps, ios).Running?
    ensures RunSteps(w, setting, start, deps, ios).acc.generated == start.generated + |Executable(deps)|
    decreases |deps|
  {
    hide StepDep;
    if deps != [] {
      var n := |deps| - 1;
      OneIdEach(w, setting, start, deps[..n], ios[..n]);
      StepRecords(w, setting, RunSteps(w, setting, start, deps[..n], ios[..n]).acc, deps[n], ios[n]);
    }
  }

  // --------------------------------------------------- types of answers

  predicate SameType(a: Answer, b: Answer) {
    match a
    case StringAnswer(_) => b.StringAnswer?
    case StringArrayAnswer(_) => b.StringArrayAnswer?
    case BoolAnswer(_) => b.BoolAnswer?
  }

  /** Whatever is answered stays answered, with a value of the same type. */
  ghost predicate KeepsTypes(before: Answers, after: Answers) {
    forall key :: key in before ==> key in after && SameType(before[key], after[key])
  }

  /** Merging fails exactly when some answer would change its type. */
  lemma ConflictExact(shared: Answers, answers: Answers)
    ensures TypeConflict(shared, answers) <==>
              exists key :: key in shared && key in answers && !SameType(shared[key], answers[key])
  {
  }

  lemma ContributionKeepsTypes(setting: Setting, t: Template, order: seq<string>)
    ensures forall acc: Acc, state: TemplateState ::
              KeepsTypes(acc.shared.answers, Contribute(setting, acc, t, state, order).acc.shared.answers)
  {
    hide ScopedIn;
  }

  lemma StepKeepsTypes(w: World, setting: Setting, acc: Acc, dep: ResolvedDependency, io: Io)
    ensures KeepsTypes(acc.shared.answers, StepDep(w, setting, acc, dep, io).acc.shared.answers)
  {
    hide AnswersFor, Contribute, MaterialOf, KeepsTypes;
    KeepsTypesChain(acc.shared.answers, acc.shared.answers, acc.shared.answers);
    ContributionKeepsTypes(setting, dep.template, io.order);
  }

  lemma KeepsTypesChain(a: Answers, b: Answers, c: Answers)
    ensures KeepsTypes(a, a)
    ensures KeepsTypes(a, b) && KeepsTypes(b, c) ==> KeepsTypes(a, c)
  {
  }

  /** However a run ends and whatever its executors return, no answer is lost or changes its
      type. */
  lemma {:induction false} TypesStay(w: World, setting: Setting, start: Acc, deps: seq<ResolvedDependency>,
                                     ios: seq<Io>)
    requires |ios| == |deps|
    ensures KeepsTypes(start.shared.answers, RunSteps(w, setting, start, deps, ios).acc.shared.answers)
    decreases |deps|
  {
    hide StepDep, KeepsTypes;
    var end := RunSteps(w, setting, start, deps, ios).acc.shared.answers;
    if deps == [] {
      KeepsTypesChain(end, end, end);
    } else {
      var n := |deps| - 1;
      var before := RunSteps(w, setting, start, deps[..n], ios[..n]).acc;
      TypesStay(w, setting, start, deps[..n], ios[..n]);
      StepKeepsTypes(w, setting, before, deps[n], ios[n]);
      KeepsTypesChain(start.shared.answers, before.shared.answers, end);
    }
  }

  // ---------------------------------------------------- never looked up

  /** Local, synthetic and unpublished templates are executed without a look at the cache and
      leave no entry behind; every other executable template counts as a lookup. */
  lemma LocalIsNeverCached(w: World, setting: Setting, acc: Acc, dep: ResolvedDependency, io: Io)
    requires setting.cacheOn && StepDep(w, setting, acc, dep, io).Running?
    ensures var next, t := StepDep(w, setting, acc, dep, io).acc, dep.template;
            if t.properties.None? || t.version <= 0 || t.id[..Min(5, |t.id|)] == "10ca1"
               || t.id[..Min(6, |t.id|)] == "local-"
            then next.cache == acc.cache && next.total == acc.total && next.hits == acc.hits
            else next.total == acc.total + 1
  {
    hide Execute, StepCached, AnswersFor;
    var t, begun, sid := dep.template, acc.(generated := acc.generated + 1), w.sessionId(acc.generated);
    StepCounts(w, setting, acc, dep, io);
    ExecuteCounts(w, setting, begun, t, sid, AnswersFor(setting, acc, dep), None, io);
  }

  function Min(a: nat, b: nat): nat { if a < b then a else b }
}
