/** The cache is effective: repeating a completed run from the cache it left executes no
    cacheable node again. */
module CacheEffect {
  import opened Wrappers
  import opened Models
  import opened CacheKey
  import opened Namespace
  import opened SharedState
  import opened Composition
  import opened Transparency

  /** An execution that hands over a result completes or asks. */
  ghost predicate CompletesOrAsks(w: World) {
    forall t, sid, a, s :: Terminal(w, t, sid, a, s)
  }

  ghost predicate Terminal(w: World, t: Template, sid: string, a: Answers, s: States) {
    var r := w.execute(t, sid, a, s);
    r.ExecOk? ==> r.state.NeedInput? || r.state.Complete?
  }

  /** What a template produces does not depend on its session. */
  ghost predicate SessionBlind(w: World, t: Template) {
    forall sid1, sid2, a, s :: SameAcross(w, t, sid1, sid2, a, s)
  }

  ghost predicate SameAcross(w: World, t: Template, sid1: string, sid2: string, a: Answers, s: States) {
    var r1, r2 := w.execute(t, sid1, a, s), w.execute(t, sid2, a, s);
    (r1.ExecOk? <==> r2.ExecOk?) && (r1.ExecOk? ==>
                                     r1.state == r2.state && w.unpack(r1.archive) == w.unpack(r2.archive))
  }

  predicate Servable(w: World, cache: Entries, key: string) {
    key in cache && w.unpack(cache[key].archive).Some?
  }

  // ------------------------------------------------------------ the first run

  lemma ExecuteKeepsServable(w: World, setting: Setting, acc: Acc, t: Template, sid: string, answers: Answers,
                             key: Option<string>, io: Io, other: string)
    requires Servable(w, acc.cache, other)
    ensures Servable(w, Execute(w, setting, acc, t, sid, answers, key, io).acc.cache, other)
  {
    hide Contribute;
    match w.execute(t, sid, answers, acc.shared.states)
    case ExecErr =>
    case ExecOk(archive, state, session) =>
      var handed := HandOver(acc, session);
      ContributeTouches(setting, handed, t, state, io.order);
      if w.unpack(archive).Some? {
        ContributeTouches(setting, Deliver(handed, archive, w.unpack(archive).value, state, key, io), t, state,
                             io.order);
      }
  }

  lemma CachedKeepsServable(w: World, setting: Setting, acc: Acc, t: Template, sid: string, answers: Answers, io: Io,
                            other: string)
    requires Servable(w, acc.cache, other)
    ensures Servable(w, StepCached(w, setting, acc, t, sid, answers, io).acc.cache, other)
  {
    hide Execute, Contribute;
    var key := w.Key(t, answers, acc.shared.states);
    var looked := acc.(total := acc.total + 1);
    if key !in looked.cache || !io.readable {
      ExecuteKeepsServable(w, setting, looked, t, sid, answers, Some(key), io, other);
    } else if w.unpack(looked.cache[key].archive).Some? {
      var vfs := w.unpack(looked.cache[key].archive).value;
      ContributeTouches(setting, looked.(layers := looked.layers + [vfs]), t, Complete(looked.cache[key].state),
                           io.order);
    } else {
      var healed := looked.(cache := if io.evicted then looked.cache - {key} else looked.cache);
      ExecuteKeepsServable(w, setting, healed, t, sid, answers, Some(key), io, other);
    }
  }

  /** No step ever makes a servable entry unservable. */
  lemma StepKeepsServable(w: World, setting: Setting, acc: Acc, dep: ResolvedDependency, io: Io, other: string)
    requires Servable(w, acc.cache, other)
    ensures Servable(w, StepDep(w, setting, acc, dep, io).acc.cache, other)
  {
    hide Execute, StepCached, AnswersFor, IsCacheable;
    var begun, sid := acc.(generated := acc.generated + 1), w.sessionId(acc.generated);
    var answers := AnswersFor(setting, acc, dep);
    CachedKeepsServable(w, setting, begun, dep.template, sid, answers, io, other);
    ExecuteKeepsServable(w, setting, begun, dep.template, sid, answers, None, io, other);
  }

  lemma ExecuteStores(w: World, setting: Setting, acc: Acc, t: Template, sid: string, answers: Answers, key: string,
                      io: Io)
    requires CompletesOrAsks(w) && io.stored
    requires Execute(w, setting, acc, t, sid, answers, Some(key), io).Running?
    ensures Servable(w, Execute(w, setting, acc, t, sid, answers, Some(key), io).acc.cache, key)
  {
    assert Terminal(w, t, sid, answers, acc.shared.states);
  }

  function KeyAt(w: World, setting: Setting, acc: Acc, dep: ResolvedDependency): string {
    w.Key(dep.template, AnswersFor(setting, acc, dep), acc.shared.states)
  }

  predicate Caches(setting: Setting, dep: ResolvedDependency) {
    setting.cacheOn && IsExecutable(dep) && IsCacheable(dep.template)
  }

  /** A cacheable node whose write took effect can be served from then on. */
  lemma StepMakesServable(w: World, setting: Setting, acc: Acc, dep: ResolvedDependency, io: Io)
    requires CompletesOrAsks(w) && io.stored && Caches(setting, dep)
    requires StepDep(w, setting, acc, dep, io).Running?
    ensures Servable(w, StepDep(w, setting, acc, dep, io).acc.cache, KeyAt(w, setting, acc, dep))
  {
    hide Execute, Contribute, AnswersFor, IsCacheable, CompletesOrAsks;
    var t, begun, sid := dep.template, acc.(generated := acc.generated + 1), w.sessionId(acc.generated);
    var answers := AnswersFor(setting, acc, dep);
    var key := w.Key(t, answers, acc.shared.states);
    var looked := begun.(total := begun.total + 1);
    if key !in looked.cache || !io.readable {
      ExecuteStores(w, setting, looked, t, sid, answers, key, io);
    } else if w.unpack(looked.cache[key].archive).Some? {
      var vfs := w.unpack(looked.cache[key].archive).value;
      ContributeTouches(setting, looked.(layers := looked.layers + [vfs]), t, Complete(looked.cache[key].state),
                           io.order);
    } else {
      var healed := looked.(cache := if io.evicted then looked.cache - {key} else looked.cache);
      ExecuteStores(w, setting, healed, t, sid, answers, key, io);
    }
  }

  // ----------------------------------------------------------- the second run

  /** Shared state and outputs agree, and neither depended on hash order. */
  ghost predicate InStep(a: Acc, b: Acc) {
    a.shared == b.shared && a.layers == b.layers && a.orderFree && b.orderFree
  }

  lemma ContributeInStep(setting: Setting, a: Acc, b: Acc, t: Template, state: TemplateState, orderA: seq<string>,
                         orderB: seq<string>)
    requires InStep(a, b)
    requires Contribute(setting, a, t, state, orderA).Running? && Contribute(setting, a, t, state, orderA).acc.orderFree
    ensures var p, q := Contribute(setting, a, t, state, orderA), Contribute(setting, b, t, state, orderB);
            q.Running? && InStep(p.acc, q.acc)
            && q.acc.cache == b.cache && q.acc.hits == b.hits && q.acc.total == b.total && q.acc.sessions == b.sessions
  {
    hide NamespaceState, OrderFree, TypeConflict;
    OrderFreeScoping(state, setting.NamespaceFor(t), setting.supplied, orderA);
    OrderFreeScoping(state, setting.NamespaceFor(t), setting.supplied, orderB);
  }

  /** A cacheable node in the second run is served, and contributes what it did before. */
  lemma CachedRepeats(w: World, setting: Setting, a: Acc, b: Acc, t: Template, sidA: string, sidB: string,
                      answers: Answers, ioA: Io, ioB: Io)
    requires Replayable(w) && IsCacheable(t) && setting.cacheOn && SoundCache(w, a) && Faithful(w, b.cache)
    requires w.Knows(t, answers, a.shared.states)
    requires InStep(a, b) && ioB.readable && Servable(w, b.cache, w.Key(t, answers, b.shared.states))
    requires var p := StepCached(w, setting, a, t, sidA, answers, ioA); p.Running? && p.acc.orderFree
    ensures var p, q := StepCached(w, setting, a, t, sidA, answers, ioA),
            StepCached(w, setting, b, t, sidB, answers, ioB);
            q.Running? && InStep(p.acc, q.acc) && q.acc.cache == b.cache
            && q.acc.hits == b.hits + 1 && q.acc.total == b.total + 1 && q.acc.sessions == b.sessions
  {
    hide Execute, StepCached, Contribute, MaterialOf, SoundCache, Faithful, FaithfulEntry, IsCacheable, Subsequence;
    var key := w.Key(t, answers, b.shared.states);
    var entry := b.cache[key];
    assert FaithfulEntry(w, key, entry) by { FaithfulAt(w, b.cache, key); }
    ServedEntryProduces(w, t, sidA, answers, a.shared.states, entry);
    var r, vfs := w.execute(t, sidA, answers, a.shared.states), w.unpack(entry.archive).value;
    SubsequenceOfItself(a.sessions);
    StepCachedAlike(w, setting, setting, a, a, t, sidA, answers, ioA, ioA);
    ExecuteDelivers(w, setting, a, t, sidA, answers, vfs, ioA);
    var x := Deliver(HandOver(a, r.session), r.archive, vfs, r.state, None, ioA);
    var y := b.(total := b.total + 1, layers := b.layers + [vfs]);
    ContributeInStep(setting, x, y, t, r.state, ioA.order, ioB.order);
    ServedStep(w, setting, b, t, sidB, answers, ioB);
  }

  lemma FaithfulAt(w: World, cache: Entries, key: string)
    requires Faithful(w, cache) && key in cache
    ensures FaithfulEntry(w, key, cache[key])
  {
  }

  lemma ServedStep(w: World, setting: Setting, acc: Acc, t: Template, sid: string, answers: Answers, io: Io)
    requires io.readable && Servable(w, acc.cache, w.Key(t, answers, acc.shared.states))
    ensures var entry := acc.cache[w.Key(t, answers, acc.shared.states)];
            var r := Contribute(setting, acc.(total := acc.total + 1,
                                              layers := acc.layers + [w.unpack(entry.archive).value]),
                                t, Complete(entry.state), io.order);
            r.Running? ==> StepCached(w, setting, acc, t, sid, answers, io) == Running(r.acc.(hits := r.acc.hits + 1))
  {
    hide Execute, Contribute, MaterialOf;
  }

  /** Any other node is executed again, with at most one session. */
  lemma ExecuteRepeats(w: World, setting: Setting, a: Acc, b: Acc, t: Template, sidA: string, sidB: string,
                       answers: Answers, ioA: Io, ioB: Io)
    requires SessionBlind(w, t) && InStep(a, b)
    requires var p := Execute(w, setting, a, t, sidA, answers, None, ioA); p.Running? && p.acc.orderFree
    ensures var p, q := Execute(w, setting, a, t, sidA, answers, None, ioA),
            Execute(w, setting, b, t, sidB, answers, None, ioB);
            q.Running? && InStep(p.acc, q.acc) && q.acc.cache == b.cache
            && q.acc.hits == b.hits && q.acc.total == b.total && |q.acc.sessions| <= |b.sessions| + 1
  {
    hide Contribute, SessionBlind;
    assert SameAcross(w, t, sidA, sidB, answers, a.shared.states) by { BlindAt(w, t, sidA, sidB, answers,
            a.shared.states); }
    var r, r' := w.execute(t, sidA, answers, a.shared.states), w.execute(t, sidB, answers, b.shared.states);
    ContributeTouches(setting, HandOver(a, r.session), t, r.state, ioA.order);
    var vfs := w.unpack(r.archive).value;
    ContributeInStep(setting, Deliver(HandOver(a, r.session), r.archive, vfs, r.state, None, ioA),
                     Deliver(HandOver(b, r'.session), r'.archive, vfs, r'.state, None, ioB), t, r.state, ioA.order,
                       ioB.order);
  }

  lemma BlindAt(w: World, t: Template, sid1: string, sid2: string, a: Answers, s: States)
    requires SessionBlind(w, t)
    ensures SameAcross(w, t, sid1, sid2, a, s)
  {
  }

  /** How many executable nodes are not cacheable. */
  function UncacheableCount(deps: seq<ResolvedDependency>): nat {
    if deps == [] then 0
    else
      var n := |deps| - 1;
      UncacheableCount(deps[..n]) + (if IsExecutable(deps[n]) && !IsCacheable(deps[n].template) then 1 else 0)
  }

  ghost predicate Repeats(b: Acc, q: Acc, cached: nat, executed: nat) {
    && q.cache == b.cache && q.hits == b.hits + cached && q.total == b.total + cached
    && |q.sessions| <= |b.sessions| + executed
  }

  lemma StepRepeats(w: World, setting: Setting, a: Acc, b: Acc, dep: ResolvedDependency, ioA: Io, ioB: Io)
    requires Replayable(w) && setting.cacheOn && SoundCache(w, a) && Faithful(w, b.cache)
    requires InStep(a, b) && ioB.readable && KnownAt(w, setting, a, dep)
    requires Caches(setting, dep) ==> Servable(w, b.cache, KeyAt(w, setting, a, dep))
    requires IsExecutable(dep) && !IsCacheable(dep.template) ==> SessionBlind(w, dep.template)
    requires StepDep(w, setting, a, dep, ioA).Running? && StepDep(w, setting, a, dep, ioA).acc.orderFree
    ensures var p, q := StepDep(w, setting, a, dep, ioA), StepDep(w, setting, b, dep, ioB);
            var cacheable := IsExecutable(dep) && IsCacheable(dep.template);
            q.Running? && InStep(p.acc, q.acc)
            && Repeats(b, q.acc, if cacheable then 1 else 0, if IsExecutable(dep) && !cacheable then 1 else 0)
  {
    hide Execute, StepCached, TemplateAnswers, IsCacheable, SessionBlind, Servable, Replayable;
    var t := dep.template;
    if IsExecutable(dep) {
      var a1, b1 := a.(generated := a.generated + 1), b.(generated := b.generated + 1);
      var sidA, sidB := w.sessionId(a.generated), w.sessionId(b.generated);
      var answers := AnswersFor(setting, a, dep);
      if IsCacheable(t) {
        CachedRepeats(w, setting, a1, b1, t, sidA, sidB, answers, ioA, ioB);
      } else {
        ExecuteRepeats(w, setting, a1, b1, t, sidA, sidB, answers, ioA, ioB);
      }
    }
  }

  lemma {:induction false} RunRepeats(w: World, setting: Setting, a: Acc, b: Acc, deps: seq<ResolvedDependency>,
                                      iosA: seq<Io>, iosB: seq<Io>)
    requires |iosA| == |deps| == |iosB| && setting.cacheOn
    requires Replayable(w) && CompletesOrAsks(w) && SoundCache(w, a) && Faithful(w, b.cache) && InStep(a, b)
    requires PathKnown(w, setting.(cacheOn := false), a, deps, iosA)
    requires forall i :: 0 <= i < |deps| ==> iosA[i].stored && iosB[i].readable
    requires forall i :: 0 <= i < |deps| && IsExecutable(deps[i]) && !IsCacheable(deps[i].template) ==>
               SessionBlind(w, deps[i].template)
    requires var p := RunSteps(w, setting, a, deps, iosA);
             p.Running? && p.acc.orderFree && forall key :: Servable(w, p.acc.cache, key) ==> Servable(w, b.cache, key)
    ensures var p, q := RunSteps(w, setting, a, deps, iosA), RunSteps(w, setting, b, deps, iosB);
            q.Running? && InStep(p.acc, q.acc) && Repeats(b, q.acc, CacheableCount(deps), UncacheableCount(deps))
    decreases |deps|
  {
    hide StepDep, SoundCache, Faithful, Replayable, CompletesOrAsks, Servable, SessionBlind, IsCacheable, KnownAt,
         PathKnown;
    if deps != [] {
      var n := |deps| - 1;
      var p := RunSteps(w, setting, a, deps[..n], iosA[..n]);
      if !p.acc.orderFree { StepRemembers(w, setting, p.acc, deps[n], iosA[n]); }
      forall key | Servable(w, p.acc.cache, key) ensures Servable(w, b.cache, key) {
        StepKeepsServable(w, setting, p.acc, deps[n], iosA[n], key);
      }
      PathPrefix(w, setting.(cacheOn := false), a, deps, iosA, n);
      RunRepeats(w, setting, a, b, deps[..n], iosA[..n], iosB[..n]);
      SubsequenceOfItself(a.sessions);
      RunStepsSound(w, setting, a, a, deps[..n], iosA[..n]);
      NextIsKnown(w, setting, setting.(cacheOn := false), p.acc, a, deps, iosA, n);
      var q := RunSteps(w, setting, b, deps[..n], iosB[..n]);
      if Caches(setting, deps[n]) {
        StepMakesServable(w, setting, p.acc, deps[n], iosA[n]);
      }
      StepRepeats(w, setting, p.acc, q.acc, deps[n], iosA[n], iosB[n]);
    }
  }

  /** Repeating a completed run, whose writes all took effect, from the cache it left: the same
      files, state and conflicts, every cacheable node looked up and served, and no session but
      those of nodes that may not be cached. */
  lemma {:induction false} SecondRunIsServed(w: World, deps: seq<ResolvedDependency>, b1: Begin, b2: Begin,
                                             ios1: seq<Io>, ios2: seq<Io>)
    requires NoDigestCollisions(w) && Deterministic(w) && CompletesOrAsks(w) && Covered(w, deps, b1.initial)
    requires |ios1| == |deps| == |ios2|
    requires Faithful(w, b1.cache) && b1.hits <= b1.total
    requires RunSteps(w, SettingOf(deps, b1.initial, true), StartAcc(b1), deps, ios1).Running?
    requires Run(w, deps, b1, true, ios1).acc.orderFree
    requires b2.initial == b1.initial && b2.cache == Run(w, deps, b1, true, ios1).acc.cache
    requires forall i :: 0 <= i < |deps| ==> ios1[i].stored && ios2[i].readable
    requires forall i :: 0 <= i < |deps| && IsExecutable(deps[i]) && !IsCacheable(deps[i].template) ==>
               SessionBlind(w, deps[i].template)
    ensures var first, second := Run(w, deps, b1, true, ios1), Run(w, deps, b2, true, ios2);
            && second.visible == first.visible && second.acc.cache == b2.cache
            && second.acc.hits - b2.hits == second.acc.total - b2.total == CacheableCount(deps)
            && |second.sessions| <= UncacheableCount(deps)
  {
    hide RunSteps, Faithful, CompletesOrAsks, SessionBlind, IsCacheable, PathKnown;
    DeterministicIsReplayable(w);
    var setting := SettingOf(deps, b1.initial, true);
    assert PathKnown(w, setting.(cacheOn := false), StartAcc(b1), deps, ios1);
    RunStepsSound(w, setting, StartAcc(b1), StartAcc(b1), deps, ios1);
    RunRepeats(w, setting, StartAcc(b1), StartAcc(b2), deps, ios1, ios2);
  }
}
