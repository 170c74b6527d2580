/** The node cache is transparent: with an executor determined by the key material, a run
    with the cache and a run without it show the caller the same thing. */
module Transparency {
  import opened Wrappers
  import opened Models
  import opened CacheKey
  import opened EntryCodec
  import opened Namespace
  import opened SharedState
  import opened Composition

  /** No two of the known key materials share a digest. */
  ghost predicate NoDigestCollisions(w: World) {
    forall m1, m2 :: w.known(m1) && w.known(m2) && w.digest(m1) == w.digest(m2) ==> m1 == m2
  }

  /** The key material of the node is known, should it be looked up. */
  ghost predicate KnownAt(w: World, setting: Setting, acc: Acc, dep: ResolvedDependency) {
    IsExecutable(dep) && IsCacheable(dep.template) ==>
      w.Knows(dep.template, AnswersFor(setting, acc, dep), acc.shared.states)
  }

  /** At every node that a run gets to. */
  ghost predicate PathKnown(w: World, setting: Setting, start: Acc, deps: seq<ResolvedDependency>, ios: seq<Io>)
    requires |ios| == |deps|
  {
    forall k :: 0 <= k < |deps| ==> KnownAfter(w, setting, start, deps, ios, k)
  }

  ghost predicate KnownAfter(w: World, setting: Setting, start: Acc, deps: seq<ResolvedDependency>, ios: seq<Io>,
                             k: nat)
    requires |ios| == |deps| && k < |deps|
  {
    var p := RunSteps(w, setting, start, deps[..k], ios[..k]);
    p.Running? ==> KnownAt(w, setting, p.acc, deps[k])
  }

  /** The key materials that uncached runs of this composition get to are known. */
  ghost predicate Covered(w: World, deps: seq<ResolvedDependency>, initial: Shared) {
    forall b: Begin, ios :: b.initial == initial && |ios| == |deps| ==>
      PathKnown(w, SettingOf(deps, initial, false), StartAcc(b), deps, ios)
  }

  /** The documented determinism assumption: what a published template produces depends only
      on its input, not on the session it runs in. */
  ghost predicate Deterministic(w: World) {
    forall t1, sid1, a1, s1, t2, sid2, a2, s2 ::
      IsCacheable(t1) && SameInput(t1, a1, s1, t2, a2, s2)
      && w.execute(t1, sid1, a1, s1).ExecOk? && w.execute(t1, sid1, a1, s1).state.Complete? ==>
        SameProduct(w, w.execute(t1, sid1, a1, s1), w.execute(t2, sid2, a2, s2))
  }

  ghost predicate SameProduct(w: World, r1: ExecResult, r2: ExecResult)
    requires r1.ExecOk?
  {
    r2.ExecOk? && r2.state == r1.state && w.unpack(r2.archive) == w.unpack(r1.archive)
  }

  /** Executing the node, in whatever session, produces what the entry holds. */
  ghost predicate Produces(w: World, t: Template, sid: string, a: Answers, s: States, entry: CacheEntry) {
    var r := w.execute(t, sid, a, s);
    r.ExecOk? && r.state == Complete(entry.state) && w.unpack(r.archive) == w.unpack(entry.archive)
  }

  /** An entry that unpacks is what executing any known node with its key would produce.  Entries
      that do not unpack are allowed. */
  ghost predicate FaithfulEntry(w: World, key: string, entry: CacheEntry) {
    w.unpack(entry.archive).Some? ==>
      forall t, sid, a, s {:trigger Produces(w, t, sid, a, s, entry)} ::
        IsCacheable(t) && w.Knows(t, a, s) && w.Key(t, a, s) == key ==> Produces(w, t, sid, a, s, entry)
  }

  ghost predicate Faithful(w: World, cache: Entries) {
    forall key :: key in cache ==> FaithfulEntry(w, key, cache[key])
  }

  /** `a` can be obtained from `b` by leaving out elements. */
  ghost predicate Subsequence<T>(a: seq<T>, b: seq<T>) {
    if a == [] then true
    else if b == [] then false
    else
      var (m, n) := (|a| - 1, |b| - 1);
      (a[m] == b[n] && Subsequence(a[..m], b[..n])) || Subsequence(a, b[..n])
  }

  lemma {:induction false} SubsequenceSkip<T>(a: seq<T>, b: seq<T>, more: seq<T>)
    requires Subsequence(a, b) && |more| <= 1
    ensures Subsequence(a, b + more)
    ensures Subsequence(a + more, b + more)
  {
    if more == [] {
      assert a + more == a && b + more == b;
    } else {
      assert (b + more)[..|b|] == b && (a + more)[..|a|] == a;
    }
  }

  /** Same progress apart from the cache, its counters and sessions that were not needed. */
  ghost predicate Alike(on: Acc, off: Acc) {
    && on.shared == off.shared && on.layers == off.layers
    && on.generated == off.generated && on.orderFree == off.orderFree
    && Subsequence(on.sessions, off.sessions)
  }

  /** Alike, unless both runs have met a scoping that depends on hash order, and they iterate in
      different orders. */
  ghost predicate AlikeProgress(on: Progress, off: Progress, sameOrder: bool) {
    (!sameOrder && !on.acc.orderFree && !off.acc.orderFree) || SameProgress(on, off)
  }

  ghost predicate SameProgress(on: Progress, off: Progress) {
    && (on.Running? <==> off.Running?) && (on.Asked? <==> off.Asked?)
    && (on.Stopped? ==> on.failure == off.failure)
    && Alike(on.acc, off.acc)
  }

  /** What the cache keeps on its own side. */
  ghost predicate SoundCache(w: World, acc: Acc) {
    Faithful(w, acc.cache) && acc.hits <= acc.total
  }

  /** A complete result of this execution may be kept under its key. */
  ghost predicate MayKeep(w: World, t: Template, sid: string, a: Answers, s: States) {
    var r := w.execute(t, sid, a, s);
    IsCacheable(t) && w.Knows(t, a, s) && r.ExecOk? && r.state.Complete? ==>
      FaithfulEntry(w, w.Key(t, a, s), CacheEntry(r.archive, r.state.answers))
  }

  ghost predicate Replayable(w: World) {
    forall t, sid, a, s :: MayKeep(w, t, sid, a, s)
  }

  lemma DeterministicIsReplayable(w: World)
    requires NoDigestCollisions(w) && Deterministic(w)
    ensures Replayable(w)
  {
    forall t, sid, a, s ensures MayKeep(w, t, sid, a, s) {
      var r := w.execute(t, sid, a, s);
      if IsCacheable(t) && w.Knows(t, a, s) && r.ExecOk? && r.state.Complete? {
        var entry := CacheEntry(r.archive, r.state.answers);
        forall t', sid', a', s' | IsCacheable(t') && w.Knows(t', a', s') && w.Key(t', a', s') == w.Key(t, a, s)
          ensures Produces(w, t', sid', a', s', entry)
        {
          MaterialExact(t, a, s, t', a', s');
          assert SameProduct(w, r, w.execute(t', sid', a', s'));
        }
      }
    }
  }

  lemma KeepsResult(w: World, t: Template, sid: string, a: Answers, s: States)
    requires Replayable(w)
    ensures var r := w.execute(t, sid, a, s);
            IsCacheable(t) && w.Knows(t, a, s) && r.ExecOk? && r.state.Complete? ==>
              FaithfulEntry(w, w.Key(t, a, s), CacheEntry(r.archive, r.state.answers))
  {
    assert MayKeep(w, t, sid, a, s);
  }

  lemma ContributeAlike(setOn: Setting, setOff: Setting, on: Acc, off: Acc, t: Template, state: TemplateState,
                        orderOn: seq<string>, orderOff: seq<string>)
    requires Alike(on, off) && setOn.namespaces == setOff.namespaces && setOn.supplied == setOff.supplied
    ensures AlikeProgress(Contribute(setOn, on, t, state, orderOn), Contribute(setOff, off, t, state, orderOff),
                          orderOn == orderOff)
    ensures var r := Contribute(setOn, on, t, state, orderOn).acc;
            r.cache == on.cache && r.hits == on.hits && r.total == on.total
  {
    hide NamespaceState, OrderFree, TypeConflict;
    var ns := setOn.NamespaceFor(t);
    if OrderFree(state, ns, setOn.supplied) {
      OrderFreeScoping(state, ns, setOn.supplied, orderOn);
      OrderFreeScoping(state, ns, setOn.supplied, orderOff);
    }
  }

  lemma AbsorbAlike(w: World, setOn: Setting, setOff: Setting, on: Acc, off: Acc, t: Template,
                    archive: Bytes, state: TemplateState, key: Option<string>, ioOn: Io, ioOff: Io)
    requires Alike(on, off) && setOn.namespaces == setOff.namespaces && setOn.supplied == setOff.supplied
    requires SoundCache(w, on)
    requires key.Some? && state.Complete? ==> FaithfulEntry(w, key.value, CacheEntry(archive, state.answers))
    ensures AlikeProgress(Absorb(w, setOn, on, t, archive, state, key, ioOn),
                          Absorb(w, setOff, off, t, archive, state, None, ioOff), ioOn.order == ioOff.order)
    ensures SoundCache(w, Absorb(w, setOn, on, t, archive, state, key, ioOn).acc)
  {
    hide Contribute, Subsequence, FaithfulEntry;
    if state.NeedInput? {
      ContributeAlike(setOn, setOff, on, off, t, state, ioOn.order, ioOff.order);
    } else if w.unpack(archive).Some? {
      var vfs := w.unpack(archive).value;
      ContributeAlike(setOn, setOff, Deliver(on, archive, vfs, state, key, ioOn),
                      Deliver(off, archive, vfs, state, None, ioOff), t, state,
                      ioOn.order, ioOff.order);
    }
  }

  lemma HandOverAlike(w: World, on: Acc, off: Acc, session: string)
    requires Alike(on, off) && SoundCache(w, on)
    ensures Alike(HandOver(on, session), HandOver(off, session)) && SoundCache(w, HandOver(on, session))
  {
    SubsequenceSkip(on.sessions, off.sessions, if session == "" then [] else [session]);
  }

  lemma ExecuteAlike(w: World, setOn: Setting, setOff: Setting, on: Acc, off: Acc, t: Template, sid: string,
                     answers: Answers, key: Option<string>, ioOn: Io, ioOff: Io)
    requires Replayable(w)
    requires Alike(on, off) && setOn.namespaces == setOff.namespaces && setOn.supplied == setOff.supplied
    requires SoundCache(w, on)
    requires key.Some? ==>
               && IsCacheable(t) && w.Knows(t, answers, on.shared.states)
               && key.value == w.Key(t, answers, on.shared.states)
    ensures AlikeProgress(Execute(w, setOn, on, t, sid, answers, key, ioOn),
                          Execute(w, setOff, off, t, sid, answers, None, ioOff), ioOn.order == ioOff.order)
    ensures SoundCache(w, Execute(w, setOn, on, t, sid, answers, key, ioOn).acc)
  {
    hide Absorb, HandOver, Subsequence, FaithfulEntry, MaterialOf;
    var r := w.execute(t, sid, answers, on.shared.states);
    if r.ExecOk? {
      HandOverAlike(w, on, off, r.session);
      KeepsResult(w, t, sid, answers, on.shared.states);
      AbsorbAlike(w, setOn, setOff, HandOver(on, r.session), HandOver(off, r.session), t, r.archive, r.state, key,
                  ioOn, ioOff);
    }
  }

  /** A served node contributes what executing it would have. */
  lemma ReplayAlike(w: World, setOn: Setting, setOff: Setting, on: Acc, off: Acc, t: Template, sid: string,
                    answers: Answers, entry: CacheEntry, order: seq<string>, ioOff: Io)
    requires Alike(on, off) && setOn.namespaces == setOff.namespaces && setOn.supplied == setOff.supplied
    requires on.hits < on.total && Faithful(w, on.cache)
    requires IsCacheable(t) && w.Knows(t, answers, on.shared.states)
    requires FaithfulEntry(w, w.Key(t, answers, on.shared.states), entry)
    requires w.unpack(entry.archive).Some?
    ensures var r := Replay(w, setOn, on, t, entry, order);
            r.Some? && AlikeProgress(r.value, Execute(w, setOff, off, t, sid, answers, None, ioOff),
                                     order == ioOff.order)
              && SoundCache(w, r.value.acc)
  {
    hide Execute, Contribute, Subsequence, MaterialOf, SoundCache, Faithful, FaithfulEntry;
    ServedEntryProduces(w, t, sid, answers, on.shared.states, entry);
    var r := w.execute(t, sid, answers, on.shared.states);
    var vfs := w.unpack(entry.archive).value;
    var base := Deliver(HandOver(off, r.session), r.archive, vfs, r.state, None, ioOff);
    SubsequenceSkip(on.sessions, off.sessions, if r.session == "" then [] else [r.session]);
    ExecuteDelivers(w, setOff, off, t, sid, answers, vfs, ioOff);
    ContributeAlike(setOn, setOff, on.(layers := on.layers + [vfs]), base, t, r.state, order, ioOff.order);
    SoundAfterServing(w, on, Replay(w, setOn, on, t, entry, order).value.acc);
  }

  lemma ServedEntryProduces(w: World, t: Template, sid: string, a: Answers, s: States, entry: CacheEntry)
    requires IsCacheable(t) && w.Knows(t, a, s) && FaithfulEntry(w, w.Key(t, a, s), entry)
    requires w.unpack(entry.archive).Some?
    ensures Produces(w, t, sid, a, s, entry)
  {
    hide MaterialOf;
  }

  /** An execution that completes with an archive that unpacks. */
  lemma ExecuteDelivers(w: World, setting: Setting, acc: Acc, t: Template, sid: string, answers: Answers, vfs: Vfs,
                        io: Io)
    requires var r := w.execute(t, sid, answers, acc.shared.states);
             r.ExecOk? && r.state.Complete? && w.unpack(r.archive) == Some(vfs)
    ensures var r := w.execute(t, sid, answers, acc.shared.states);
            Execute(w, setting, acc, t, sid, answers, None, io) ==
            Contribute(setting, Deliver(HandOver(acc, r.session), r.archive, vfs, r.state, None, io), t, r.state,
                       io.order)
  {
    hide Contribute, MaterialOf;
  }

  lemma SoundAfterServing(w: World, before: Acc, after: Acc)
    requires Faithful(w, before.cache) && before.hits < before.total
    requires after.cache == before.cache && after.total == before.total && after.hits <= before.hits + 1
    ensures SoundCache(w, after)
  {
  }

  lemma MissAlike(w: World, setOn: Setting, setOff: Setting, on: Acc, off: Acc, t: Template, sid: string,
                  answers: Answers, ioOn: Io, ioOff: Io)
    requires Replayable(w) && IsCacheable(t) && w.Knows(t, answers, on.shared.states)
    requires Alike(on, off) && setOn.namespaces == setOff.namespaces && setOn.supplied == setOff.supplied
    requires SoundCache(w, on) && (w.Key(t, answers, on.shared.states) !in on.cache || !ioOn.readable)
    ensures AlikeProgress(StepCached(w, setOn, on, t, sid, answers, ioOn),
                          Execute(w, setOff, off, t, sid, answers, None, ioOff), ioOn.order == ioOff.order)
    ensures SoundCache(w, StepCached(w, setOn, on, t, sid, answers, ioOn).acc)
  {
    hide Execute, Contribute, MaterialOf;
    var key := w.Key(t, answers, on.shared.states);
    ExecuteAlike(w, setOn, setOff, on.(total := on.total + 1), off, t, sid, answers, Some(key), ioOn, ioOff);
  }

  lemma HitAlike(w: World, setOn: Setting, setOff: Setting, on: Acc, off: Acc, t: Template, sid: string,
                 answers: Answers, ioOn: Io, ioOff: Io)
    requires IsCacheable(t) && w.Knows(t, answers, on.shared.states)
    requires Alike(on, off) && setOn.namespaces == setOff.namespaces && setOn.supplied == setOff.supplied
    requires SoundCache(w, on)
    requires var key := w.Key(t, answers, on.shared.states);
             key in on.cache && ioOn.readable && w.unpack(on.cache[key].archive).Some?
    ensures AlikeProgress(StepCached(w, setOn, on, t, sid, answers, ioOn),
                          Execute(w, setOff, off, t, sid, answers, None, ioOff), ioOn.order == ioOff.order)
    ensures SoundCache(w, StepCached(w, setOn, on, t, sid, answers, ioOn).acc)
  {
    hide Execute, Contribute, MaterialOf, Replay;
    var key := w.Key(t, answers, on.shared.states);
    ReplayAlike(w, setOn, setOff, on.(total := on.total + 1), off, t, sid, answers, on.cache[key], ioOn.order, ioOff);
  }

  lemma HealAlike(w: World, setOn: Setting, setOff: Setting, on: Acc, off: Acc, t: Template, sid: string,
                  answers: Answers, ioOn: Io, ioOff: Io)
    requires Replayable(w) && IsCacheable(t) && w.Knows(t, answers, on.shared.states)
    requires Alike(on, off) && setOn.namespaces == setOff.namespaces && setOn.supplied == setOff.supplied
    requires SoundCache(w, on)
    requires var key := w.Key(t, answers, on.shared.states);
             key in on.cache && ioOn.readable && w.unpack(on.cache[key].archive).None?
    ensures AlikeProgress(StepCached(w, setOn, on, t, sid, answers, ioOn),
                          Execute(w, setOff, off, t, sid, answers, None, ioOff), ioOn.order == ioOff.order)
    ensures SoundCache(w, StepCached(w, setOn, on, t, sid, answers, ioOn).acc)
  {
    hide Execute, Contribute, MaterialOf;
    var key := w.Key(t, answers, on.shared.states);
    var healed := on.(total := on.total + 1, cache := if ioOn.evicted then on.cache - {key} else on.cache);
    ExecuteAlike(w, setOn, setOff, healed, off, t, sid, answers, Some(key), ioOn, ioOff);
  }

  lemma StepCachedAlike(w: World, setOn: Setting, setOff: Setting, on: Acc, off: Acc, t: Template, sid: string,
                        answers: Answers, ioOn: Io, ioOff: Io)
    requires Replayable(w) && IsCacheable(t) && w.Knows(t, answers, on.shared.states)
    requires Alike(on, off) && setOn.namespaces == setOff.namespaces && setOn.supplied == setOff.supplied
    requires SoundCache(w, on)
    ensures AlikeProgress(StepCached(w, setOn, on, t, sid, answers, ioOn),
                          Execute(w, setOff, off, t, sid, answers, None, ioOff), ioOn.order == ioOff.order)
    ensures SoundCache(w, StepCached(w, setOn, on, t, sid, answers, ioOn).acc)
  {
    hide Execute, StepCached, MaterialOf;
    var key := w.Key(t, answers, on.shared.states);
    if key !in on.cache || !ioOn.readable {
      MissAlike(w, setOn, setOff, on, off, t, sid, answers, ioOn, ioOff);
    } else if w.unpack(on.cache[key].archive).Some? {
      HitAlike(w, setOn, setOff, on, off, t, sid, answers, ioOn, ioOff);
    } else {
      HealAlike(w, setOn, setOff, on, off, t, sid, answers, ioOn, ioOff);
    }
  }

  lemma StepAlike(w: World, setOn: Setting, setOff: Setting, on: Acc, off: Acc, dep: ResolvedDependency, ioOn: Io,
                  ioOff: Io)
    requires Replayable(w)
    requires Alike(on, off) && SoundCache(w, on)
    requires setOff == setOn.(cacheOn := false) && (setOn.cacheOn ==> KnownAt(w, setOn, on, dep))
    ensures AlikeProgress(StepDep(w, setOn, on, dep, ioOn), StepDep(w, setOff, off, dep, ioOff),
                          ioOn.order == ioOff.order)
    ensures SoundCache(w, StepDep(w, setOn, on, dep, ioOn).acc)
  {
    hide Execute, StepCached, TemplateAnswers;
    if IsExecutable(dep) && !(setOn.Multi() && '/' in dep.template.id) {
      var t, sid := dep.template, w.sessionId(on.generated);
      var on1, off1 := on.(generated := on.generated + 1), off.(generated := off.generated + 1);
      var answers := AnswersFor(setOn, on, dep);
      if setOn.cacheOn && IsCacheable(t) {
        StepCachedAlike(w, setOn, setOff, on1, off1, t, sid, answers, ioOn, ioOff);
      } else {
        ExecuteAlike(w, setOn, setOff, on1, off1, t, sid, answers, None, ioOn, ioOff);
      }
    }
  }

  // Once a scoping depended on hash order, that stays on record.

  lemma ExecuteRemembers(w: World, setting: Setting, acc: Acc, t: Template, sid: string, answers: Answers,
                         key: Option<string>, io: Io)
    requires !acc.orderFree
    ensures !Execute(w, setting, acc, t, sid, answers, key, io).acc.orderFree
  {
  }

  lemma CachedRemembers(w: World, setting: Setting, acc: Acc, t: Template, sid: string, answers: Answers, io: Io)
    requires !acc.orderFree
    ensures !StepCached(w, setting, acc, t, sid, answers, io).acc.orderFree
  {
    hide Execute, MaterialOf;
    var key := w.Key(t, answers, acc.shared.states);
    var looked := acc.(total := acc.total + 1);
    ExecuteRemembers(w, setting, looked, t, sid, answers, Some(key), io);
    ExecuteRemembers(w, setting, looked.(cache := if io.evicted then looked.cache - {key} else looked.cache), t, sid,
                     answers, Some(key), io);
  }

  lemma StepRemembers(w: World, setting: Setting, acc: Acc, dep: ResolvedDependency, io: Io)
    requires !acc.orderFree
    ensures !StepDep(w, setting, acc, dep, io).acc.orderFree
  {
    hide Execute, StepCached, TemplateAnswers;
    var begun := acc.(generated := acc.generated + 1);
    var answers := AnswersFor(setting, acc, dep);
    CachedRemembers(w, setting, begun, dep.template, w.sessionId(acc.generated), answers, io);
    ExecuteRemembers(w, setting, begun, dep.template, w.sessionId(acc.generated), answers, None, io);
  }

  lemma {:induction false} SubsequenceOfItself<T>(a: seq<T>)
    ensures Subsequence(a, a)
  {
    if a != [] { SubsequenceOfItself(a[..|a| - 1]); }
  }

  lemma PathPrefix(w: World, setting: Setting, start: Acc, deps: seq<ResolvedDependency>, ios: seq<Io>, n: nat)
    requires |ios| == |deps| && n <= |deps| && PathKnown(w, setting, start, deps, ios)
    ensures PathKnown(w, setting, start, deps[..n], ios[..n])
  {
    hide RunSteps, KnownAt;
    forall k: nat | k < n ensures KnownAfter(w, setting, start, deps[..n], ios[..n], k) {
      assert KnownAfter(w, setting, start, deps, ios, k);
      assert deps[..n][..k] == deps[..k] && ios[..n][..k] == ios[..k];
    }
  }

  lemma {:induction false} NextIsKnown(w: World, setOn: Setting, setOff: Setting, on: Acc, off: Acc,
                                       deps: seq<ResolvedDependency>, ios: seq<Io>, n: nat)
    requires |ios| == |deps| && n < |deps| && setOff == setOn.(cacheOn := false)
    requires PathKnown(w, setOff, off, deps, ios)
    requires var q := RunSteps(w, setOff, off, deps[..n], ios[..n]); q.Running? && on.shared == q.acc.shared
    ensures KnownAt(w, setOn, on, deps[n])
  {
    hide TemplateAnswers, MaterialOf, RunSteps;
    assert KnownAfter(w, setOff, off, deps, ios, n);
  }

  /** With the same hash orders a run with the cache simulates one without, whatever its cache
      reads, writes and evictions do, and keeps the cache sound. */
  lemma {:induction false} RunStepsSound(w: World, setting: Setting, on: Acc, off: Acc, deps: seq<ResolvedDependency>,
                                         ios: seq<Io>)
    requires Replayable(w) && Alike(on, off) && SoundCache(w, on) && |ios| == |deps|
    requires setting.cacheOn ==> PathKnown(w, setting.(cacheOn := false), off, deps, ios)
    ensures SameProgress(RunSteps(w, setting, on, deps, ios),
                         RunSteps(w, setting.(cacheOn := false), off, deps, ios))
    ensures SoundCache(w, RunSteps(w, setting, on, deps, ios).acc)
    decreases |deps|
  {
    hide StepDep, SoundCache, Subsequence, KnownAt, Replayable;
    if deps != [] {
      var setOff, n := setting.(cacheOn := false), |deps| - 1;
      if setting.cacheOn { PathPrefix(w, setOff, off, deps, ios, n); }
      RunStepsSound(w, setting, on, off, deps[..n], ios[..n]);
      var p, q := RunSteps(w, setting, on, deps[..n], ios[..n]), RunSteps(w, setOff, off, deps[..n], ios[..n]);
      if p.Running? {
        if setting.cacheOn {
          NextIsKnown(w, setting, setOff, p.acc, off, deps, ios, n);
        }
        StepAlike(w, setting, setOff, p.acc, q.acc, deps[n], ios[n], ios[n]);
      }
    }
  }

  lemma {:induction false} RunStepsAlike(w: World, setOn: Setting, setOff: Setting, on: Acc, off: Acc,
                                         deps: seq<ResolvedDependency>, iosOn: seq<Io>, iosOff: seq<Io>)
    requires Replayable(w)
    requires Alike(on, off) && SoundCache(w, on) && setOff == setOn.(cacheOn := false)
    requires |iosOn| == |deps| == |iosOff|
    requires setOn.cacheOn ==> PathKnown(w, setOff, off, deps, iosOn)
    ensures AlikeProgress(RunSteps(w, setOn, on, deps, iosOn), RunSteps(w, setOff, off, deps, iosOff), false)
    decreases |deps|
  {
    hide StepDep, SoundCache, Subsequence, KnownAt, Replayable;
    if deps != [] {
      var n := |deps| - 1;
      if setOn.cacheOn { PathPrefix(w, setOff, off, deps, iosOn, n); }
      RunStepsAlike(w, setOn, setOff, on, off, deps[..n], iosOn[..n], iosOff[..n]);
      RunStepsSound(w, setOn, on, off, deps[..n], iosOn[..n]);
      var p, q := RunSteps(w, setOn, on, deps[..n], iosOn[..n]), RunSteps(w, setOff, off, deps[..n], iosOff[..n]);
      if SameProgress(p, q) {
        if p.Running? {
          if setOn.cacheOn {
            NextIsKnown(w, setOn, setOff, p.acc, off, deps, iosOn, n);
          }
          StepAlike(w, setOn, setOff, p.acc, q.acc, deps[n], iosOn[n], iosOff[n]);
        }
      } else {
        StepRemembers(w, setOn, p.acc, deps[n], iosOn[n]);
        StepRemembers(w, setOff, q.acc, deps[n], iosOff[n]);
      }
    }
  }

  /** What the two runs have to do with each other. */
  ghost predicate Transparent(w: World, deps: seq<ResolvedDependency>, bOn: Begin, bOff: Begin, iosOn: seq<Io>,
                              iosOff: seq<Io>)
    requires |iosOn| == |deps| == |iosOff|
  {
    var on, off := Run(w, deps, bOn, true, iosOn), Run(w, deps, bOff, false, iosOff);
    on.visible == off.visible && Subsequence(on.sessions, off.sessions)
  }

  /** The same from what makes results replayable: with equal hash orders nothing is needed to
      be order-free. */
  lemma ReplayableIsTransparent(w: World, deps: seq<ResolvedDependency>, bOn: Begin, bOff: Begin, iosOn: seq<Io>,
                                iosOff: seq<Io>)
    requires Replayable(w) && Covered(w, deps, bOn.initial)
    requires Faithful(w, bOn.cache) && bOn.hits <= bOn.total
    requires bOn.initial == bOff.initial && bOn.generated == bOff.generated
    requires |iosOn| == |deps| == |iosOff|
    ensures var on, off := Run(w, deps, bOn, true, iosOn), Run(w, deps, bOff, false, iosOff);
            && (off.acc.orderFree || iosOn == iosOff ==> Transparent(w, deps, bOn, bOff, iosOn, iosOff))
            && on.acc.orderFree == off.acc.orderFree
            && Faithful(w, on.acc.cache) && on.acc.hits <= on.acc.total
  {
    hide RunSteps, Faithful, Replayable, PathKnown;
    var setOn, setOff := SettingOf(deps, bOn.initial, true), SettingOf(deps, bOff.initial, false);
    assert PathKnown(w, setOff, StartAcc(bOff), deps, iosOn);
    RunStepsAlike(w, setOn, setOff, StartAcc(bOn), StartAcc(bOff), deps, iosOn, iosOff);
    RunStepsSound(w, setOn, StartAcc(bOn), StartAcc(bOff), deps, iosOn);
  }

  /** Cache transparency.  From any faithful cache, whatever its writes and evictions do and
      in whatever order each run iterates its maps: unless the result of scoping depends on
      that order, the cached run shows the same files, shared state, conflicts or failure as
      the uncached run, and its sessions are a subsequence of the uncached ones.  In any case
      it leaves a faithful cache and honest counters behind. */
  lemma CacheIsTransparent(w: World, deps: seq<ResolvedDependency>, bOn: Begin, bOff: Begin, iosOn: seq<Io>,
                           iosOff: seq<Io>)
    requires NoDigestCollisions(w) && Deterministic(w) && Covered(w, deps, bOn.initial)
    requires Faithful(w, bOn.cache) && bOn.hits <= bOn.total
    requires bOn.initial == bOff.initial && bOn.generated == bOff.generated
    requires |iosOn| == |deps| == |iosOff|
    ensures var on, off := Run(w, deps, bOn, true, iosOn), Run(w, deps, bOff, false, iosOff);
            && on.acc.orderFree == off.acc.orderFree
            && (off.acc.orderFree || iosOn == iosOff ==>
                  on.visible == off.visible && Subsequence(on.sessions, off.sessions))
            && Faithful(w, on.acc.cache) && on.acc.hits <= on.acc.total
  {
    hide Run, Faithful, Covered, Replayable;
    DeterministicIsReplayable(w);
    ReplayableIsTransparent(w, deps, bOn, bOff, iosOn, iosOff);
  }

  // ---------------------------------------------- what a run does to the cache

  /** How many nodes of a run may be cached. */
  function CacheableCount(deps: seq<ResolvedDependency>): nat {
    if deps == [] then 0
    else
      var n := |deps| - 1;
      CacheableCount(deps[..n]) + (if IsExecutable(deps[n]) && IsCacheable(deps[n].template) then 1 else 0)
  }

  ghost predicate Counts(acc: Acc, next: Acc, looked: nat) {
    next.total == acc.total + looked && acc.hits <= next.hits <= acc.hits + looked
  }

  lemma ExecuteCounts(w: World, setting: Setting, acc: Acc, t: Template, sid: string, answers: Answers,
                      key: Option<string>, io: Io)
    ensures var next := Execute(w, setting, acc, t, sid, answers, key, io).acc;
            Counts(acc, next, 0) && (key.None? ==> next.cache == acc.cache)
  {
  }

  lemma CachedCounts(w: World, setting: Setting, acc: Acc, t: Template, sid: string, answers: Answers, io: Io)
    requires StepCached(w, setting, acc, t, sid, answers, io).Running?
    ensures Counts(acc, StepCached(w, setting, acc, t, sid, answers, io).acc, 1)
  {
    hide Execute, MaterialOf, Contribute;
    var key := w.Key(t, answers, acc.shared.states);
    var looked := acc.(total := acc.total + 1);
    if key in acc.cache && io.readable && w.unpack(acc.cache[key].archive).Some? {
      ContributeTouches(setting, looked.(layers := acc.layers + [w.unpack(acc.cache[key].archive).value]), t,
                       Complete(acc.cache[key].state), io.order);
    }
    if key !in acc.cache || !io.readable {
      ExecuteCounts(w, setting, looked, t, sid, answers, Some(key), io);
    } else if w.unpack(acc.cache[key].archive).None? {
      ExecuteCounts(w, setting, looked.(cache := if io.evicted then looked.cache - {key} else looked.cache), t, sid,
                    answers, Some(key), io);
    }
  }

  lemma StepCounts(w: World, setting: Setting, acc: Acc, dep: ResolvedDependency, io: Io)
    requires StepDep(w, setting, acc, dep, io).Running?
    ensures var next := StepDep(w, setting, acc, dep, io).acc;
            && Counts(acc, next, if setting.cacheOn && IsExecutable(dep) && IsCacheable(dep.template) then 1 else 0)
            && (!setting.cacheOn ==> next.cache == acc.cache)
  {
    hide Execute, StepCached, TemplateAnswers;
    var t := dep.template;
    if IsExecutable(dep) {
      var sid, begun := w.sessionId(acc.generated), acc.(generated := acc.generated + 1);
      var answers := AnswersFor(setting, acc, dep);
      if setting.cacheOn && IsCacheable(t) {
        CachedCounts(w, setting, begun, t, sid, answers, io);
      } else {
        ExecuteCounts(w, setting, begun, t, sid, answers, None, io);
      }
    }
  }

  /** A run that completes has counted every cacheable node exactly once; a run with the cache
      off counts nothing and leaves the cache alone. */
  lemma {:induction false} CountsCacheableNodes(w: World, setting: Setting, start: Acc,
                                                deps: seq<ResolvedDependency>, ios: seq<Io>)
    requires |ios| == |deps| && RunSteps(w, setting, start, deps, ios).Running?
    ensures var acc := RunSteps(w, setting, start, deps, ios).acc;
            && acc.total == start.total + (if setting.cacheOn then CacheableCount(deps) else 0)
            && (!setting.cacheOn ==> acc.cache == start.cache && acc.hits == start.hits)
    decreases |deps|
  {
    hide StepDep;
    if deps != [] {
      var n := |deps| - 1;
      CountsCacheableNodes(w, setting, start, deps[..n], ios[..n]);
      StepCounts(w, setting, RunSteps(w, setting, start, deps[..n], ios[..n]).acc, deps[n], ios[n]);
    }
  }
}
