/** When the outcome of a run may depend on the iteration order of hash maps. */
module HashOrder {
  import opened Wrappers
  import opened Models
  import opened Layerer
  import opened CacheKey
  import opened EntryCodec
  import opened Namespace
  import opened SharedState
  import opened Composition
  import opened Transparency

  /** The composition has one executable template, or no supplied answer is scoped to one of
      its templates. */
  predicate NoScopedSupply(deps: seq<ResolvedDependency>, supplied: Answers) {
    |NamespacesOf(deps)| <= 1 || forall key :: key in supplied ==> Classify(key, NamespacesOf(deps)).None?
  }

  ghost predicate NothingScoped(setting: Setting) {
    setting.Multi() ==> forall ns, k :: ns in setting.namespaces ==> Scoped(ns, k) !in setting.supplied
  }

  lemma {:induction false} ScopedIsClassified(ns: string, k: string, namespaces: seq<string>)
    requires ns in namespaces
    ensures Classify(Scoped(ns, k), namespaces).Some?
  {
    ScopedStrips(ns, k);
    if StripNamespace(namespaces[0], Scoped(ns, k)).None? {
      ScopedIsClassified(ns, k, namespaces[1..]);
    }
  }

  lemma SupplyScopesNothing(deps: seq<ResolvedDependency>, initial: Shared, cacheOn: bool)
    requires NoScopedSupply(deps, initial.answers)
    ensures NothingScoped(SettingOf(deps, initial, cacheOn))
  {
    var setting := SettingOf(deps, initial, cacheOn);
    if setting.Multi() {
      forall ns, k | ns in setting.namespaces ensures Scoped(ns, k) !in setting.supplied {
        ScopedIsClassified(ns, k, setting.namespaces);
      }
    }
  }

  // ------------------------------------------------- no scoped key: no order

  lemma ContributeStaysFree(setting: Setting, acc: Acc, t: Template, state: TemplateState, order: seq<string>)
    requires acc.orderFree && NothingScoped(setting) && (setting.Multi() ==> t.id in setting.namespaces)
    ensures Contribute(setting, acc, t, state, order).acc.orderFree
  {
    if setting.Multi() {
      NeverCollidesIff(t.id, setting.supplied);
    }
  }

  lemma ExecuteStaysFree(w: World, setting: Setting, acc: Acc, t: Template, sid: string, answers: Answers,
                         key: Option<string>, io: Io)
    requires acc.orderFree && NothingScoped(setting) && (setting.Multi() ==> t.id in setting.namespaces)
    ensures Execute(w, setting, acc, t, sid, answers, key, io).acc.orderFree
  {
    hide Contribute, NothingScoped;
    match w.execute(t, sid, answers, acc.shared.states)
    case ExecErr =>
    case ExecOk(archive, state, session) =>
      var handed := HandOver(acc, session);
      ContributeStaysFree(setting, handed, t, state, io.order);
      if w.unpack(archive).Some? {
        ContributeStaysFree(setting, Deliver(handed, archive, w.unpack(archive).value, state, key, io), t, state,
                            io.order);
      }
  }

  lemma StepStaysFree(w: World, setting: Setting, acc: Acc, dep: ResolvedDependency, io: Io)
    requires acc.orderFree && NothingScoped(setting)
    requires setting.Multi() && IsExecutable(dep) ==> dep.template.id in setting.namespaces
    ensures StepDep(w, setting, acc, dep, io).acc.orderFree
  {
    hide Execute, Contribute, AnswersFor, NothingScoped;
    if IsExecutable(dep) {
      var t, begun, sid := dep.template, acc.(generated := acc.generated + 1), w.sessionId(acc.generated);
      var answers := AnswersFor(setting, acc, dep);
      ExecuteStaysFree(w, setting, begun, t, sid, answers, None, io);
      var key := w.Key(t, answers, acc.shared.states);
      var looked := begun.(total := begun.total + 1);
      ExecuteStaysFree(w, setting, looked, t, sid, answers, Some(key), io);
      ExecuteStaysFree(w, setting, looked.(cache := if io.evicted then looked.cache - {key} else looked.cache),
                       t, sid, answers, Some(key), io);
      if key in looked.cache && w.unpack(looked.cache[key].archive).Some? {
        var vfs := w.unpack(looked.cache[key].archive).value;
        ContributeStaysFree(setting, looked.(layers := looked.layers + [vfs]), t, Complete(looked.cache[key].state),
                            io.order);
      }
    }
  }

  lemma {:induction false} RunStaysFree(w: World, setting: Setting, start: Acc, deps: seq<ResolvedDependency>,
                                        ios: seq<Io>)
    requires |ios| == |deps| && start.orderFree && NothingScoped(setting)
    requires setting.Multi() ==> forall d :: d in deps && IsExecutable(d) ==> d.template.id in setting.namespaces
    ensures RunSteps(w, setting, start, deps, ios).acc.orderFree
    decreases |deps|
  {
    hide StepDep, NothingScoped;
    if deps != [] {
      var n := |deps| - 1;
      RunStaysFree(w, setting, start, deps[..n], ios[..n]);
      var p := RunSteps(w, setting, start, deps[..n], ios[..n]);
      if p.Running? {
        assert deps[n] in deps;
        StepStaysFree(w, setting, p.acc, deps[n], ios[n]);
      }
    }
  }

  ghost predicate RunFree(w: World, deps: seq<ResolvedDependency>, b: Begin, cacheOn: bool, ios: seq<Io>) {
    |ios| == |deps| ==> Run(w, deps, b, cacheOn, ios).acc.orderFree
  }

  /** Whatever the executor answers and the cache holds. */
  lemma RunOrderFree(w: World, deps: seq<ResolvedDependency>, b: Begin, cacheOn: bool, ios: seq<Io>)
    requires NoScopedSupply(deps, b.initial.answers)
    ensures RunFree(w, deps, b, cacheOn, ios)
  {
    if |ios| == |deps| {
      SupplyScopesNothing(deps, b.initial, cacheOn);
      forall d | d in deps && IsExecutable(d) ensures d.template.id in NamespacesOf(deps) {
        ListsExecutableIds(deps, d);
      }
      RunStaysFree(w, SettingOf(deps, b.initial, cacheOn), StartAcc(b), deps, ios);
    }
  }

  /** Cache transparency without any assumption on what executors answer: when no supplied
      answer is scoped to a listed template, or only one template executes. */
  lemma TransparentWithoutScopedSupply(w: World, deps: seq<ResolvedDependency>, bOn: Begin, bOff: Begin,
                                       iosOn: seq<Io>, iosOff: seq<Io>)
    requires NoDigestCollisions(w) && Deterministic(w) && Covered(w, deps, bOn.initial)
    requires Faithful(w, bOn.cache) && bOn.hits <= bOn.total
    requires bOn.initial == bOff.initial && bOn.generated == bOff.generated
    requires NoScopedSupply(deps, bOn.initial.answers)
    requires |iosOn| == |deps| == |iosOff|
    ensures var on, off := Run(w, deps, bOn, true, iosOn), Run(w, deps, bOff, false, iosOff);
            on.visible == off.visible && Subsequence(on.sessions, off.sessions)
  {
    hide Run, Faithful, Covered;
    RunOrderFree(w, deps, bOff, false, iosOff);
    CacheIsTransparent(w, deps, bOn, bOff, iosOn, iosOff);
  }

  // ------------------------------------------ order-free: the run is rigid

  /** Lists that differ in nothing but hash order. */
  ghost predicate SameButOrder(a: seq<Io>, b: seq<Io>) {
    |a| == |b| && forall i :: 0 <= i < |a| ==> b[i] == a[i].(order := b[i].order)
  }

  lemma ContributeRigid(setting: Setting, acc: Acc, t: Template, state: TemplateState, order: seq<string>,
                        other: seq<string>)
    requires Contribute(setting, acc, t, state, order).acc.orderFree
    ensures Contribute(setting, acc, t, state, other) == Contribute(setting, acc, t, state, order)
  {
    hide NamespaceState, OrderFree, TypeConflict;
    OrderFreeScoping(state, setting.NamespaceFor(t), setting.supplied, order);
    OrderFreeScoping(state, setting.NamespaceFor(t), setting.supplied, other);
  }

  lemma ExecuteRigid(w: World, setting: Setting, acc: Acc, t: Template, sid: string, answers: Answers,
                     key: Option<string>, io: Io, order: seq<string>)
    requires Execute(w, setting, acc, t, sid, answers, key, io).acc.orderFree
    ensures Execute(w, setting, acc, t, sid, answers, key, io.(order := order)) ==
            Execute(w, setting, acc, t, sid, answers, key, io)
  {
    hide Contribute;
    match w.execute(t, sid, answers, acc.shared.states)
    case ExecErr =>
    case ExecOk(archive, state, session) =>
      var handed := HandOver(acc, session);
      if state.NeedInput? {
        ContributeRigid(setting, handed, t, state, io.order, order);
      } else if w.unpack(archive).Some? {
        var delivered := Deliver(handed, archive, w.unpack(archive).value, state, key, io);
        assert delivered == Deliver(handed, archive, w.unpack(archive).value, state, key, io.(order := order));
        ContributeRigid(setting, delivered, t, state, io.order, order);
      }
  }

  lemma CachedRigid(w: World, setting: Setting, acc: Acc, t: Template, sid: string, answers: Answers, io: Io,
                    order: seq<string>)
    requires StepCached(w, setting, acc, t, sid, answers, io).acc.orderFree
    ensures StepCached(w, setting, acc, t, sid, answers, io.(order := order)) ==
            StepCached(w, setting, acc, t, sid, answers, io)
  {
    hide Execute, Contribute;
    var key := w.Key(t, answers, acc.shared.states);
    var looked := acc.(total := acc.total + 1);
    if key !in looked.cache || !io.readable {
      ExecuteRigid(w, setting, looked, t, sid, answers, Some(key), io, order);
    } else if w.unpack(looked.cache[key].archive).Some? {
      var vfs := w.unpack(looked.cache[key].archive).value;
      ContributeRigid(setting, looked.(layers := looked.layers + [vfs]), t, Complete(looked.cache[key].state),
                      io.order, order);
    } else {
      var healed := looked.(cache := if io.evicted then looked.cache - {key} else looked.cache);
      ExecuteRigid(w, setting, healed, t, sid, answers, Some(key), io, order);
    }
  }

  lemma StepRigid(w: World, setting: Setting, acc: Acc, dep: ResolvedDependency, io: Io, order: seq<string>)
    requires StepDep(w, setting, acc, dep, io).acc.orderFree
    ensures StepDep(w, setting, acc, dep, io.(order := order)) == StepDep(w, setting, acc, dep, io)
  {
    hide Execute, StepCached, AnswersFor;
    if IsExecutable(dep) && !(setting.Multi() && '/' in dep.template.id) {
      var begun, answers := acc.(generated := acc.generated + 1), AnswersFor(setting, acc, dep);
      if setting.cacheOn && IsCacheable(dep.template) {
        CachedRigid(w, setting, begun, dep.template, w.sessionId(acc.generated), answers, io, order);
      } else {
        ExecuteRigid(w, setting, begun, dep.template, w.sessionId(acc.generated), answers, None, io, order);
      }
    }
  }

  /** A run in which no scoping depended on hash order is the same run in every hash order. */
  lemma {:induction false} OrderFreeIsRigid(w: World, setting: Setting, start: Acc, deps: seq<ResolvedDependency>,
                                            ios: seq<Io>, others: seq<Io>)
    requires |ios| == |deps| && SameButOrder(ios, others)
    requires RunSteps(w, setting, start, deps, ios).acc.orderFree
    ensures RunSteps(w, setting, start, deps, others) == RunSteps(w, setting, start, deps, ios)
    decreases |deps|
  {
    hide StepDep;
    if deps != [] {
      var n := |deps| - 1;
      var p := RunSteps(w, setting, start, deps[..n], ios[..n]);
      if p.Running? {
        if !p.acc.orderFree { StepRemembers(w, setting, p.acc, deps[n], ios[n]); }
        StepRigid(w, setting, p.acc, deps[n], ios[n], others[n].order);
      }
      OrderFreeIsRigid(w, setting, start, deps[..n], ios[..n], others[..n]);
    }
  }

  // ------------------------------------------- a scoped key: order does matter

  /** The runs show the same, if they differ in nothing but hash order. */
  ghost predicate ShowsAlike(w: World, deps: seq<ResolvedDependency>, b: Begin, cacheOn: bool, ios: seq<Io>,
                             others: seq<Io>) {
    |ios| == |deps| && SameButOrder(ios, others) ==>
      Run(w, deps, b, cacheOn, ios).visible == Run(w, deps, b, cacheOn, others).visible
  }

  /** Every template completes with no answers, except `ns`, which returns `bad`.  Digests tell
      templates apart. */
  function WorldReturning(ns: string, bad: Answers): World {
    World((t: Template, sid: string, a: Answers, s: States) => ExecOk([], Returned(ns, bad, t), ""),
          _ => Some(map[]), (m: Material) => m.templateId, _ => "",
          Services((_, _) => false, _ => 0, (_, _, _) => None), false, _ => true)
  }

  function Returned(ns: string, bad: Answers, t: Template): TemplateState {
    Complete(if t.id == ns then bad else map[])
  }

  /** Each result is determined by its key. */
  lemma ReturningIsReplayable(ns: string, bad: Answers, deps: seq<ResolvedDependency>, initial: Shared)
    ensures Deterministic(WorldReturning(ns, bad))
    ensures Replayable(WorldReturning(ns, bad)) && Covered(WorldReturning(ns, bad), deps, initial)
  {
    var w := WorldReturning(ns, bad);
    hide SortArtifacts, CacheKey.Entries;
    forall t, sid, a, s ensures MayKeep(w, t, sid, a, s) {
      var entry := CacheEntry([], Returned(ns, bad, t).answers);
      forall t', sid', a', s' | w.Key(t', a', s') == w.Key(t, a, s) ensures Produces(w, t', sid', a', s', entry) {
        assert w.Key(t, a, s) == t.id && w.Key(t', a', s') == t'.id;
      }
    }
  }

  /** A raw id whose scoped key the caller supplied, and no key scoped further. */
  predicate Pivot(ns: string, supplied: Answers, raw: string) {
    Scoped(ns, raw) in supplied && Scoped(ns, Scoped(ns, raw)) !in supplied
  }

  /** Two different answers of the kind of this one. */
  function TwoLike(answer: Answer): (Answer, Answer) {
    match answer
    case StringAnswer(_) => (StringAnswer("1"), StringAnswer("2"))
    case StringArrayAnswer(_) => (StringArrayAnswer(["1"]), StringArrayAnswer(["2"]))
    case BoolAnswer(_) => (BoolAnswer(true), BoolAnswer(false))
  }

  /** Answers under the raw and the scoped id, of the kind of the supplied one. */
  function Rivals(ns: string, supplied: Answers, raw: string): Answers
    requires Scoped(ns, raw) in supplied
  {
    var two := TwoLike(supplied[Scoped(ns, raw)]);
    map[raw := two.0, Scoped(ns, raw) := two.1]
  }

  function OtherRival(ns: string, raw: string, last: string): string {
    if last == raw then Scoped(ns, raw) else raw
  }

  /** The rival that is iterated last stays. */
  lemma LastRivalStays(ns: string, supplied: Answers, raw: string, last: string)
    requires Pivot(ns, supplied, raw) && (last == raw || last == Scoped(ns, raw))
    ensures var rivals := Rivals(ns, supplied, raw);
            NamespaceState(Complete(rivals), Some(ns), supplied, [OtherRival(ns, raw, last), last]) ==
            Complete(map[Scoped(ns, raw) := rivals[last]])
  {
    var rivals, key, first := Rivals(ns, supplied, raw), Scoped(ns, raw), OtherRival(ns, raw, last);
    var order := [first, last];
    assert |key| > |raw|;
    assert order[..1] == [first] && [first][..0] == [];
    assert Target(ns, supplied, raw) == key == Target(ns, supplied, key);
    assert Collect(ns, rivals, supplied, []) == map[];
    assert Collect(ns, rivals, supplied, [first]) == map[key := rivals[first]];
    assert Collect(ns, rivals, supplied, order) == map[key := rivals[last]];
    assert IterationOrder(order, rivals.Keys);
  }

  lemma {:induction false} CollectNothing(ns: string, supplied: Answers, order: seq<string>)
    ensures Collect(ns, map[], supplied, order) == map[]
  {
    if order != [] { CollectNothing(ns, supplied, order[..|order| - 1]); }
  }

  /** The pivot's key holds an answer of the supplied kind. */
  ghost predicate Holds(shared: Shared, supplied: Answers, key: string) {
    key in supplied && key in shared.answers && shared.answers[key].SameKind(supplied[key])
  }

  lemma NoAnswersNoChange(setting: Setting, acc: Acc, t: Template, order: seq<string>)
    ensures var p := Contribute(setting, acc, t, Complete(map[]), order);
            p.Running? && p.acc.shared.answers == acc.shared.answers
  {
    var none: Answers := map[];
    if setting.Multi() {
      CollectNothing(t.id, setting.supplied, order);
      assert Namespaced(Some(t.id), none, setting.supplied) == none;
    }
    assert acc.shared.answers + none == acc.shared.answers;
    assert !TypeConflict(acc.shared.answers, none);
  }

  lemma RivalsContribute(setting: Setting, acc: Acc, t: Template, raw: string, last: string)
    requires setting.Multi() && Pivot(t.id, setting.supplied, raw) && (last == raw || last == Scoped(t.id, raw))
    requires Holds(acc.shared, setting.supplied, Scoped(t.id, raw))
    ensures var rivals := Rivals(t.id, setting.supplied, raw);
            var p := Contribute(setting, acc, t, Complete(rivals), [OtherRival(t.id, raw, last), last]);
            && p.Running? && Holds(p.acc.shared, setting.supplied, Scoped(t.id, raw))
            && p.acc.shared.answers[Scoped(t.id, raw)] == rivals[last]
  {
    hide NamespaceState, Collides;
    LastRivalStays(t.id, setting.supplied, raw, last);
    var rivals, key := Rivals(t.id, setting.supplied, raw), Scoped(t.id, raw);
    assert |key| > |raw|;
    assert !TypeConflict(acc.shared.answers, map[key := rivals[last]]);
  }

  /** One node of such a world, executed. */
  lemma StepReturning(ns: string, raw: string, last: string, setting: Setting, acc: Acc, dep: ResolvedDependency,
                      io: Io)
    requires !setting.cacheOn && setting.Multi() && (IsExecutable(dep) ==> SlashFree(dep.template.id))
    requires Pivot(ns, setting.supplied, raw) && (last == raw || last == Scoped(ns, raw))
    requires Holds(acc.shared, setting.supplied, Scoped(ns, raw)) && io.order == [OtherRival(ns, raw, last), last]
    ensures var rivals := Rivals(ns, setting.supplied, raw);
            var p := StepDep(WorldReturning(ns, rivals), setting, acc, dep, io);
            && p.Running? && Holds(p.acc.shared, setting.supplied, Scoped(ns, raw))
            && p.acc.shared.answers[Scoped(ns, raw)] ==
               if IsExecutable(dep) && dep.template.id == ns then rivals[last] else acc.shared.answers[Scoped(ns, raw)]
  {
    hide AnswersFor, Contribute, Rivals, Pivot;
    if IsExecutable(dep) {
      var t, begun := dep.template, acc.(generated := acc.generated + 1);
      var state := Returned(ns, Rivals(ns, setting.supplied, raw), t);
      var delivered := Deliver(HandOver(begun, ""), [], map[], state, None, io);
      if t.id == ns {
        RivalsContribute(setting, delivered, t, raw, last);
      } else {
        NoAnswersNoChange(setting, delivered, t, io.order);
      }
    }
  }

  /** A run of that world: the answer under the pivot's key is the rival iterated last. */
  lemma {:induction false} RunReturning(ns: string, raw: string, last: string, setting: Setting, start: Acc,
                                        deps: seq<ResolvedDependency>, ios: seq<Io>)
    requires |ios| == |deps| && !setting.cacheOn && setting.Multi()
    requires Pivot(ns, setting.supplied, raw) && (last == raw || last == Scoped(ns, raw))
    requires Holds(start.shared, setting.supplied, Scoped(ns, raw))
    requires forall d :: d in deps && IsExecutable(d) ==> SlashFree(d.template.id)
    requires forall i :: 0 <= i < |ios| ==> ios[i].order == [OtherRival(ns, raw, last), last]
    ensures var rivals := Rivals(ns, setting.supplied, raw);
            var p := RunSteps(WorldReturning(ns, rivals), setting, start, deps, ios);
            && p.Running? && Holds(p.acc.shared, setting.supplied, Scoped(ns, raw))
            && ((exists d :: d in deps && IsExecutable(d) && d.template.id == ns) ==>
                  p.acc.shared.answers[Scoped(ns, raw)] == rivals[last])
    decreases |deps|
  {
    hide StepDep, WorldReturning, Rivals, Pivot;
    if deps != [] {
      var n := |deps| - 1;
      assert deps == deps[..n] + [deps[n]];
      RunReturning(ns, raw, last, setting, start, deps[..n], ios[..n]);
      var p := RunSteps(WorldReturning(ns, Rivals(ns, setting.supplied, raw)), setting, start, deps[..n], ios[..n]);
      StepReturning(ns, raw, last, setting, p.acc, deps[n], ios[n]);
    }
  }

  /** What the caller of such a run sees. */
  lemma ReturningShows(ns: string, raw: string, last: string, deps: seq<ResolvedDependency>, initial: Shared,
                       ios: seq<Io>)
    requires |ios| == |deps| && AllSlashFree(NamespacesOf(deps)) && |NamespacesOf(deps)| > 1
    requires ns in NamespacesOf(deps) && Pivot(ns, initial.answers, raw) && (last == raw || last == Scoped(ns, raw))
    requires forall i :: 0 <= i < |ios| ==> ios[i].order == [OtherRival(ns, raw, last), last]
    ensures var rivals := Rivals(ns, initial.answers, raw);
            var visible := Run(WorldReturning(ns, rivals), deps, Begin(initial, map[], 0, 0, 0), false, ios).visible;
            && visible.Output? && Scoped(ns, raw) in visible.shared.answers
            && visible.shared.answers[Scoped(ns, raw)] == rivals[last]
  {
    hide RunSteps, Rivals, Pivot;
    var namespaces, b := NamespacesOf(deps), Begin(initial, map[], 0, 0, 0);
    var i :| 0 <= i < |namespaces| && namespaces[i] == ns;
    var d := Executable(deps)[i];
    assert d in Executable(deps) && d.template.id == ns;
    ExecutableMembers(deps);
    forall d | d in deps && IsExecutable(d) ensures SlashFree(d.template.id) {
      ListsExecutableIds(deps, d);
    }
    assert Holds(initial, initial.answers, Scoped(ns, raw)) by { RivalsDiffer(ns, initial.answers, raw); }
    RunReturning(ns, raw, last, SettingOf(deps, initial, false), StartAcc(b), deps, ios);
  }

  function AllInOrder(n: nat, order: seq<string>): seq<Io> { seq(n, _ => Io(false, false, false, order)) }

  /** A supplied scoped answer: a deterministic executor, and two orders in which runs of it with
      the cache off show different things. */
  lemma OrderDependentRuns(deps: seq<ResolvedDependency>, initial: Shared)
      returns (w: World, b: Begin, ios: seq<Io>, others: seq<Io>)
    requires AllSlashFree(NamespacesOf(deps)) && !NoScopedSupply(deps, initial.answers)
    ensures Deterministic(w) && Replayable(w) && Covered(w, deps, initial)
    ensures b == Begin(initial, map[], 0, 0, 0)
    ensures |ios| == |deps| && SameButOrder(ios, others) && !ShowsAlike(w, deps, b, false, ios, others)
  {
    hide Run, Rivals, Replayable, Deterministic, Covered, WorldReturning;
    var namespaces := NamespacesOf(deps);
    var key :| key in initial.answers && Classify(key, namespaces).Some?;
    var ns := Classify(key, namespaces).value;
    ClassifiedStrips(key, namespaces, ns);
    var raw := LastScoped(ns, initial.answers, initial.answers.Keys, StripNamespace(ns, key).value);
    var scoped, rivals := Scoped(ns, raw), Rivals(ns, initial.answers, raw);
    w, b := WorldReturning(ns, rivals), Begin(initial, map[], 0, 0, 0);
    ios, others := AllInOrder(|deps|, [scoped, raw]), AllInOrder(|deps|, [raw, scoped]);
    ReturningIsReplayable(ns, rivals, deps, initial);
    assert |scoped| > |raw|;
    ReturningShows(ns, raw, raw, deps, initial, ios);
    ReturningShows(ns, raw, scoped, deps, initial, others);
    RivalsDiffer(ns, initial.answers, raw);
  }

  lemma RivalsDiffer(ns: string, supplied: Answers, raw: string)
    requires Pivot(ns, supplied, raw)
    ensures Scoped(ns, raw) in supplied
    ensures var rivals := Rivals(ns, supplied, raw);
            raw in rivals && Scoped(ns, raw) in rivals && rivals[raw] != rivals[Scoped(ns, raw)]
  {
    assert |Scoped(ns, raw)| > |raw|;
  }

  /** Exactly when the caller supplied no scoped answer, or only one template executes, does hash
      order never show, whatever the executor, the cache and its reads and writes. */
  lemma HashOrderNeverShowsIff(deps: seq<ResolvedDependency>, initial: Shared)
    requires AllSlashFree(NamespacesOf(deps))
    ensures (forall w: World, b: Begin, cacheOn: bool, ios: seq<Io>, others: seq<Io> :: b.initial == initial ==>
               ShowsAlike(w, deps, b, cacheOn, ios, others))
            <==> NoScopedSupply(deps, initial.answers)
  {
    if NoScopedSupply(deps, initial.answers) {
      forall w, b: Begin, cacheOn, ios, others | b.initial == initial
        ensures ShowsAlike(w, deps, b, cacheOn, ios, others)
      {
        if |ios| == |deps| && SameButOrder(ios, others) {
          RunOrderFree(w, deps, b, cacheOn, ios);
          OrderFreeIsRigid(w, SettingOf(deps, initial, cacheOn), StartAcc(b), deps, ios, others);
        }
      }
    } else {
      var w, b, ios, others := OrderDependentRuns(deps, initial);
    }
  }

  /** The two runs are comparable, and what is asked of the cached one. */
  ghost predicate Comparable(w: World, deps: seq<ResolvedDependency>, initial: Shared, bOn: Begin, bOff: Begin,
                             iosOn: seq<Io>, iosOff: seq<Io>) {
    && Replayable(w) && Covered(w, deps, initial) && Faithful(w, bOn.cache) && bOn.hits <= bOn.total
    && bOn.initial == bOff.initial == initial && bOn.generated == bOff.generated
    && |iosOn| == |deps| == |iosOff|
  }

  ghost predicate TransparentFor(w: World, deps: seq<ResolvedDependency>, initial: Shared, bOn: Begin, bOff: Begin,
                                 iosOn: seq<Io>, iosOff: seq<Io>) {
    Comparable(w, deps, initial, bOn, bOff, iosOn, iosOff) ==> Transparent(w, deps, bOn, bOff, iosOn, iosOff)
  }

  /** And exactly then is the cache transparent, over all replayable executors, faithful caches
      and hash orders of the two runs. */
  lemma TransparentIff(deps: seq<ResolvedDependency>, initial: Shared)
    requires AllSlashFree(NamespacesOf(deps))
    ensures (forall w: World, bOn: Begin, bOff: Begin, iosOn: seq<Io>, iosOff: seq<Io> ::
               TransparentFor(w, deps, initial, bOn, bOff, iosOn, iosOff))
            <==> NoScopedSupply(deps, initial.answers)
  {
    hide Run, Replayable, Covered, Faithful;
    if NoScopedSupply(deps, initial.answers) {
      forall w, bOn, bOff, iosOn, iosOff ensures TransparentFor(w, deps, initial, bOn, bOff, iosOn, iosOff) {
        if Comparable(w, deps, initial, bOn, bOff, iosOn, iosOff) {
          RunOrderFree(w, deps, bOff, false, iosOff);
          ReplayableIsTransparent(w, deps, bOn, bOff, iosOn, iosOff);
        }
      }
    } else {
      var w, ios, others := CachedAndUncachedDiffer(deps, initial);
      EmptyIsFaithful(w);
      var b := Begin(initial, map[], 0, 0, 0);
      assert Comparable(w, deps, initial, b, b, ios, others);
      assert !TransparentFor(w, deps, initial, b, b, ios, others);
    }
  }

  /** Otherwise there is a deterministic executor whose cached and uncached runs differ, from
      every faithful cache. */
  lemma CachedAndUncachedDiffer(deps: seq<ResolvedDependency>, initial: Shared)
      returns (w: World, ios: seq<Io>, others: seq<Io>)
    requires AllSlashFree(NamespacesOf(deps)) && !NoScopedSupply(deps, initial.answers)
    ensures Deterministic(w) && Replayable(w) && Covered(w, deps, initial) && |ios| == |deps| == |others|
    ensures forall cache :: Faithful(w, cache) ==>
              Run(w, deps, Begin(initial, cache, 0, 0, 0), true, ios).visible
              != Run(w, deps, Begin(initial, map[], 0, 0, 0), false, others).visible
  {
    hide Run, Deterministic, Replayable, Covered, Faithful;
    var b;
    w, b, ios, others := OrderDependentRuns(deps, initial);
    forall cache | Faithful(w, cache)
      ensures Run(w, deps, Begin(initial, cache, 0, 0, 0), true, ios).visible
              != Run(w, deps, b, false, others).visible
    {
      ReplayableIsTransparent(w, deps, Begin(initial, cache, 0, 0, 0), b, ios, ios);
    }
  }

  lemma EmptyIsFaithful(w: World)
    ensures Faithful(w, map[])
  {
  }
}
