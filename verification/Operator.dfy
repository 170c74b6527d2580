/** The composition operator in its own form: objects whose methods update their fields,
    proved against the run as a function. */
module Operator {
  import opened Wrappers
  import opened Models
  import opened CacheKey
  import opened EntryCodec
  import CacheStore
  import opened Layerer
  import opened Namespace
  import opened SharedState
  import opened Composition

  /** The coordinator's view of sessions: those an execution handed over, and those released. */
  class Coordinator {
    ghost var handed: seq<string>
    var released: seq<string>

    constructor ()
      ensures handed == [] && released == []
    {
      handed, released := [], [];
    }

    method Clean(sid: string)
      modifies this`released
      ensures released == old(released) + [sid]
    {
      released := released + [sid];
    }
  }

  /** Holds the sessions of one composition and releases them unless disarmed. */
  class CompositionSessionGuard {
    const coordinator: Coordinator
    const hasClient: bool
    var sessions: seq<string>

    constructor (coordinator: Coordinator, hasClient: bool)
      ensures this.coordinator == coordinator && this.hasClient == hasClient && sessions == []
    {
      this.coordinator, this.hasClient, sessions := coordinator, hasClient, [];
    }

    method Push(sid: string)
      modifies this
      ensures sessions == old(sessions) + [sid]
    {
      sessions := sessions + [sid];
    }

    /** Hands the sessions to the caller; nothing is left to release. */
    method Disarm() returns (ids: seq<string>)
      modifies this
      ensures ids == old(sessions) && sessions == []
    {
      ids := sessions;
      sessions := [];
    }

    /** Runs when the guard goes out of scope. */
    method Drop()
      modifies coordinator`released
      ensures coordinator.released == old(coordinator.released) + (if hasClient then sessions else [])
    {
      if hasClient {
        for i := 0 to |sessions|
          invariant coordinator.released == old(coordinator.released) + sessions[..i]
        {
          coordinator.Clean(sessions[i]);
        }
        assert sessions[..|sessions|] == sessions;
      }
    }
  }

  /** The cache facade: a store and two counters. */
  class Cache {
    const enabled: bool
    const store: CacheStore.Store
    var hits: nat
    var total: nat

    constructor (enabled: bool, store: CacheStore.Store)
      ensures this.enabled == enabled && this.store == store && hits == 0 && total == 0
    {
      this.enabled, this.store, hits, total := enabled, store, 0, 0;
    }

    /** Counts an attempt, not a hit; an entry that cannot be read is a miss. */
    method Lookup(t: Template, key: string, readable: bool) returns (entry: Option<CacheEntry>)
      modifies this
      ensures hits == old(hits)
      ensures if enabled && IsCacheable(t)
              then total == old(total) + 1 && entry == (if readable
                                                        && key in store.View() then Some(store.View()[key]) else None)
              else total == old(total) && entry == None
    {
      if !enabled || !IsCacheable(t) {
        return None;
      }
      total := total + 1;
      entry := store.Get(key, readable);
    }

    method RecordHit()
      modifies this
      ensures hits == old(hits) + 1 && total == old(total)
    {
      hits := hits + 1;
    }

    /** Replaces the entry exactly when the node may be cached and no call of the put fails. */
    method Store(t: Template, key: string, entry: CacheEntry, name: string, fails: set<CacheStore.IoCall>)
      requires store.codec.Valid() && Fits(Encoded(store.codec, entry))
      modifies store
      ensures store.View() == if enabled && IsCacheable(t)
              && CacheStore.PutCompletes(old(store.Snapshot()), key, name, fails)
                              then old(store.View())[key := entry] else old(store.View())
    {
      if !enabled || !IsCacheable(t) {
        return;
      }
      store.Put(key, entry, name, fails);
    }

    method Evict(key: string, removable: bool)
      modifies store
      ensures store.View() == if removable then old(store.View()) - {key} else old(store.View())
    {
      store.Remove(key, removable);
    }
  }

  datatype StepOutcome = Continue | AskUser | Fail(failure: Failure)

  datatype CompositionResult =
    | Composed(vfs: Vfs, shared: Shared, sessions: seq<string>)
    | Broken(failure: Failure)

  /** Any result an executor hands over is small enough to be held in memory framed. */
  ghost predicate ResultsFit(w: World, codec: Codec) {
    forall t, sid, a, s :: ResultFits(w, codec, t, sid, a, s)
  }

  ghost predicate ResultFits(w: World, codec: Codec, t: Template, sid: string, a: Answers, s: States) {
    var r := w.execute(t, sid, a, s);
    r.ExecOk? && r.state.Complete? ==> Fits(Encoded(codec, CacheEntry(r.archive, r.state.answers)))
  }

  lemma OneResultFits(w: World, codec: Codec, t: Template, sid: string, a: Answers, s: States)
    requires ResultsFit(w, codec)
    ensures var r := w.execute(t, sid, a, s);
            r.ExecOk? && r.state.Complete? ==> Fits(Encoded(codec, CacheEntry(r.archive, r.state.answers)))
  {
    assert ResultFits(w, codec, t, sid, a, s);
  }

  /** The step ended as the specification says.  What a failing step has merged so far is
      dropped with it. */
  ghost predicate Ends(p: Progress, outcome: StepOutcome, actual: Acc) {
    match outcome
    case Continue => p == Running(actual)
    case AskUser => p == Asked(actual)
    case Fail(failure) =>
      p.Stopped? && p.failure == failure && p.acc.(shared := actual.shared, layers := actual.layers) == actual
  }

  class CompositionOperator {
    const w: World
    const cache: Cache
    const coordinator: Coordinator
    var fileConflicts: seq<ConflictEntry>
    var generated: nat

    constructor (w: World, cache: Cache, coordinator: Coordinator)
      ensures this.w == w && this.cache == cache && this.coordinator == coordinator
      ensures fileConflicts == [] && generated == 0
    {
      this.w, this.cache, this.coordinator, fileConflicts, generated := w, cache, coordinator, [], 0;
    }

    /** The objects as the specification's accumulator; `free` says that no scoping depended on
        hash order so far. */
    ghost function Snapshot(state: CompositionState, guard: CompositionSessionGuard, layers: seq<Vfs>, free: bool): Acc
      reads this, state, guard, cache, cache.store
    {
      Acc(state.View(), layers, guard.sessions, cache.store.View(), cache.hits, cache.total, generated, free)
    }

    /** The black-box executor; a session it hands over is the caller's from here on. */
    method CallExecutor(t: Template, sid: string, answers: Answers, states: States) returns (r: ExecResult)
      modifies coordinator`handed
      ensures r == w.execute(t, sid, answers, states)
      ensures coordinator.handed == old(coordinator.handed) + (if r.ExecOk? && r.session != "" then [r.session] else [])
    {
      r := w.execute(t, sid, answers, states);
      if r.ExecOk? && r.session != "" {
        coordinator.handed := coordinator.handed + [r.session];
      }
    }

    /** Scopes a terminal state and merges it into the shared state. */
    method Merge(state: CompositionState, guard: CompositionSessionGuard, layers: seq<Vfs>, setting: Setting,
                 t: Template, result: TemplateState, ghost free0: bool)
        returns (outcome: StepOutcome, ghost order: seq<string>, ghost free: bool)
      modifies state
      ensures Ends(Contribute(setting, old(Snapshot(state, guard, layers, free0)), t, result, order), outcome,
                   Snapshot(state, guard, layers, free))
      ensures outcome.AskUser? <==> result.NeedInput?
      ensures outcome.Fail? ==> outcome.failure.AnswerTypeConflict?
    {
      var scoped;
      scoped, order := NamespaceTemplateState(result, setting.NamespaceFor(t), setting.supplied);
      var ok := state.UpdateFromTemplateState(scoped, t.id);
      outcome := if !ok then Fail(AnswerTypeConflict) else if result.NeedInput? then AskUser else Continue;
      free := free0 && OrderFree(result, setting.NamespaceFor(t), setting.supplied);
    }

    method Serve(state: CompositionState, guard: CompositionSessionGuard, layers0: seq<Vfs>, setting: Setting,
                   t: Template, entry: CacheEntry, ghost free0: bool)
        returns (served: bool, layers: seq<Vfs>, outcome: StepOutcome, ghost order: seq<string>, ghost free: bool)
      modifies state, cache
      ensures served ==>
                var r := Replay(w, setting, old(Snapshot(state, guard, layers0, free0)), t, entry, order);
                r.Some? && Ends(r.value, outcome, Snapshot(state, guard, layers, free))
      ensures !served ==>
                && (forall o :: Replay(w, setting, old(Snapshot(state, guard, layers0, free0)), t, entry, o).None?)
                && Snapshot(state, guard, layers0, free0) == old(Snapshot(state, guard, layers0, free0))
      ensures !outcome.AskUser?
    {
      layers, order, free := layers0, [], free0;
      var unpacked := w.unpack(entry.archive);
      if unpacked.None? {
        return false, layers, Continue, order, free;
      }
      layers := layers + [unpacked.value];
      hide Contribute;
      outcome, order, free := Merge(state, guard, layers, setting, t, Complete(entry.state), free0);
      if outcome.Continue? {
        cache.RecordHit();
      }
      served := true;
    }

    /** Offers a complete result to the cache. */
    method Keep(t: Template, key: Option<string>, archive: Bytes, result: TemplateState) returns (ghost stored: bool)
      requires cache.store.codec.Valid()
      requires key.Some? ==> cache.enabled && IsCacheable(t)
      requires result.Complete? ==> Fits(Encoded(cache.store.codec, CacheEntry(archive, result.answers)))
      modifies cache.store
      ensures cache.store.View() == if key.Some? && result.Complete? && stored
                                    then old(cache.store.View())[key.value := CacheEntry(archive, result.answers)]
                                    else old(cache.store.View())
    {
      stored := false;
      if key.Some? && result.Complete? {
        var name: string := *;
        var fails: set<CacheStore.IoCall> := *;
        stored := CacheStore.PutCompletes(cache.store.Snapshot(), key.value, name, fails);
        cache.Store(t, key.value, CacheEntry(archive, result.answers), name, fails);
      }
    }

    /** What follows an execution whose session has been recorded. */
    method AbsorbResult(state: CompositionState, guard: CompositionSessionGuard, layers0: seq<Vfs>, setting: Setting,
                        t: Template, archive: Bytes, result: TemplateState, key: Option<string>, ghost free0: bool)
        returns (layers: seq<Vfs>, outcome: StepOutcome, ghost stored: bool, ghost order: seq<string>, ghost free: bool)
      requires cache.store.codec.Valid()
      requires key.Some? ==> cache.enabled && IsCacheable(t)
      requires result.Complete? ==> Fits(Encoded(cache.store.codec, CacheEntry(archive, result.answers)))
      modifies state, cache.store
      ensures forall evicted, readable ::
                Ends(Absorb(w, setting, old(Snapshot(state, guard, layers0, free0)), t, archive, result, key,
                            Io(stored, evicted, readable, order)),
                     outcome, Snapshot(state, guard, layers, free))
    {
      hide Contribute, CacheStore.Entries, NamespaceState, Encoded;
      layers, stored, order, free := layers0, false, [], free0;
      ghost var acc := Snapshot(state, guard, layers0, free0);
      if result.NeedInput? {
        outcome, order, free := Merge(state, guard, layers, setting, t, result, free0);
        return;
      }
      var unpacked := w.unpack(archive);
      if unpacked.None? {
        outcome := Fail(UnpackFailed);
        return;
      }
      layers := layers + [unpacked.value];
      stored := Keep(t, key, archive, result);
      assert forall evicted, readable, o ::
          Snapshot(state, guard, layers, free0) ==
          Deliver(acc, archive, unpacked.value, result, key, Io(stored, evicted, readable, o));
      outcome, order, free := Merge(state, guard, layers, setting, t, result, free0);
    }

    method ExecuteLive(state: CompositionState, guard: CompositionSessionGuard, layers0: seq<Vfs>, setting: Setting,
                       t: Template, sid: string, answers: Answers, key: Option<string>, ghost free0: bool)
        returns (layers: seq<Vfs>, outcome: StepOutcome, ghost stored: bool, ghost order: seq<string>, ghost free: bool)
      requires cache.store.codec.Valid() && ResultsFit(w, cache.store.codec)
      requires key.Some? ==> cache.enabled && IsCacheable(t)
      requires guard.coordinator == coordinator
      modifies state, guard, cache.store, coordinator`handed
      ensures forall evicted, readable ::
                Ends(Execute(w, setting, old(Snapshot(state, guard, layers0, free0)), t, sid, answers, key,
                             Io(stored, evicted, readable, order)),
                     outcome, Snapshot(state, guard, layers, free))
      ensures exists gained ::
                guard.sessions == old(guard.sessions) + gained && coordinator.handed == old(coordinator.handed) + gained
    {
      hide Absorb, CacheStore.Entries, ResultsFit, Encoded;
      layers, stored, order, free := layers0, false, [], free0;
      ghost var acc := Snapshot(state, guard, layers0, free0);
      OneResultFits(w, cache.store.codec, t, sid, answers, state.states);
      var r := CallExecutor(t, sid, answers, state.states);
      if r.ExecErr? {
        assert guard.sessions == old(guard.sessions) + [];
        outcome := Fail(ExecutorFailed);
        return;
      }
      if r.session != "" {
        guard.Push(r.session);
      }
      ghost var gained := if r.session == "" then [] else [r.session];
      assert guard.sessions == old(guard.sessions) + gained && coordinator.handed == old(coordinator.handed) + gained;
      assert Snapshot(state, guard, layers, free0) == HandOver(acc, r.session);
      layers, outcome, stored, order, free := AbsorbResult(state, guard, layers0, setting, t, r.archive, r.state,
                                                           key, free0);
    }

    /** A cacheable node: served from the cache when its entry unpacks, executed otherwise. */
    method StepWithCache(state: CompositionState, guard: CompositionSessionGuard, layers0: seq<Vfs>, setting: Setting,
                         t: Template, sid: string, answers: Answers, ghost free0: bool)
        returns (layers: seq<Vfs>, outcome: StepOutcome, ghost io: Io, ghost free: bool)
      requires cache.store.codec.Valid() && ResultsFit(w, cache.store.codec)
      requires cache.enabled && IsCacheable(t) && guard.coordinator == coordinator
      modifies state, guard, cache, cache.store, coordinator`handed
      ensures Ends(StepCached(w, setting, old(Snapshot(state, guard, layers0, free0)), t, sid, answers, io), outcome,
                   Snapshot(state, guard, layers, free))
      ensures exists gained ::
                guard.sessions == old(guard.sessions) + gained && coordinator.handed == old(coordinator.handed) + gained
    {
      hide Execute, Replay, StepCached, Ends, ResultsFit, CacheStore.Entries;
      layers := layers0;
      ghost var acc := Snapshot(state, guard, layers0, free0);
      var readable: bool := *;
      ghost var evicted, stored, order := false, false, [];
      var material := ComputeMaterial(t, answers, state.states);
      var key := w.digest(material);
      hide MaterialOf;
      var found := cache.Lookup(t, key, readable);
      ghost var looked := Snapshot(state, guard, layers0, free0);
      if found.Some? {
        var served;
        served, layers, outcome, order, free := Serve(state, guard, layers0, setting, t, found.value, free0);
        if served {
          io := Io(false, false, readable, order);
          CachedReplays(w, setting, acc, t, sid, answers, io);
          assert guard.sessions == old(guard.sessions) + [] && coordinator.handed == old(coordinator.handed) + [];
          return;
        }
        var removable: bool := *;
        evicted := removable;
        cache.Evict(key, removable);
      }
      ghost var healed := Snapshot(state, guard, layers0, free0);
      layers, outcome, stored, order, free := ExecuteLive(state, guard, layers0, setting, t, sid, answers, Some(key),
                                                          free0);
      io := Io(stored, evicted, readable, order);
      CachedExecutes(w, setting, acc, t, sid, answers, io);
      assert healed == looked.(cache := if found.Some? && evicted then looked.cache - {key} else looked.cache);
    }

    method StepDependency(state: CompositionState, guard: CompositionSessionGuard, layers0: seq<Vfs>, setting: Setting,
                          dep: ResolvedDependency, ghost free0: bool)
        returns (layers: seq<Vfs>, outcome: StepOutcome, ghost io: Io, ghost free: bool)
      requires cache.store.codec.Valid() && ResultsFit(w, cache.store.codec)
      requires setting.cacheOn == cache.enabled && guard.coordinator == coordinator
      modifies this`generated, state, guard, cache, cache.store, coordinator`handed
      ensures Ends(StepDep(w, setting, old(Snapshot(state, guard, layers0, free0)), dep, io), outcome,
                   Snapshot(state, guard, layers, free))
      ensures exists gained ::
                guard.sessions == old(guard.sessions) + gained && coordinator.handed == old(coordinator.handed) + gained
    {
      hide Execute, StepCached, TemplateAnswers;
      layers, io, free := layers0, Io(false, false, false, []), free0;
      assert guard.sessions == old(guard.sessions) + [] && coordinator.handed == old(coordinator.handed) + [];
      var t := dep.template;
      if t.properties.None? {
        state.PushOrder(t.id);
        return layers, Continue, io, free;
      }
      var sid := w.sessionId(generated);
      generated := generated + 1;
      if setting.Multi() && '/' in t.id {
        return layers, Fail(SlashInId), io, free;
      }
      var answers := BuildTemplateAnswers(setting.NamespaceFor(t), setting.namespaces, state.answers,
                                          dep.presetAnswers);
      if cache.enabled && IsCacheable(t) {
        layers, outcome, io, free := StepWithCache(state, guard, layers0, setting, t, sid, answers, free0);
      } else {
        ghost var stored, order;
        layers, outcome, stored, order, free := ExecuteLive(state, guard, layers0, setting, t, sid, answers, None,
                                                            free0);
        io := Io(stored, false, false, order);
      }
    }

    method LayerOutputs(deps: seq<ResolvedDependency>, layers: seq<Vfs>) returns (result: Option<Vfs>)
      modifies this`fileConflicts
      requires fileConflicts == []
      ensures layers == [] ==> result == Some(map[]) && fileConflicts == []
      ensures layers != [] && !w.hasClient ==> result == Some(Overwrite(layers)) && fileConflicts == []
      ensures layers != [] && w.hasClient ==>
                result == LayeringOf(w, deps).Merge(layers)
                && (result.Some? ==> Lists(fileConflicts, LayeringOf(w, deps).Conflicts(layers)))
    {
      if layers == [] {
        return Some(map[]);
      }
      if !w.hasClient {
        var vfs := DefaultLayerMerge(layers);
        return Some(vfs);
      }
      var layerer := new ResolverAwareLayerer(LayeringOf(w, deps));
      result := layerer.LayerMerge(layers);
      if result.Some? {
        fileConflicts := layerer.conflicts;
      }
    }

    ghost function BeginFrom(initial: Shared): Begin
      reads this, cache, cache.store
    {
      Begin(initial, cache.store.View(), cache.hits, cache.total, generated)
    }

    /** The loop over the dependencies; stops at the first that does not continue. */
    method RunDependencies(state: CompositionState, guard: CompositionSessionGuard, setting: Setting,
                           deps: seq<ResolvedDependency>)
        returns (layers: seq<Vfs>, outcome: StepOutcome, ghost ios: seq<Io>, ghost free: bool)
      requires cache.store.codec.Valid() && ResultsFit(w, cache.store.codec)
      requires setting.cacheOn == cache.enabled && guard.coordinator == coordinator && guard.sessions == []
      modifies this`generated, state, guard, cache, cache.store, coordinator`handed
      ensures |ios| == |deps|
      ensures Ends(RunSteps(w, setting, old(Snapshot(state, guard, [], true)), deps, ios), outcome,
                   Snapshot(state, guard, layers, free))
      ensures coordinator.handed == old(coordinator.handed) + guard.sessions
    {
      hide StepDep;
      layers, outcome, ios, free := [], Continue, [], true;
      ghost var start := Snapshot(state, guard, [], true);
      for i := 0 to |deps|
        invariant |ios| == i
        invariant coordinator.handed == old(coordinator.handed) + guard.sessions
        invariant RunSteps(w, setting, start, deps[..i], ios) == Running(Snapshot(state, guard, layers, free))
      {
        ghost var before := Snapshot(state, guard, layers, free);
        ghost var io;
        layers, outcome, io, free := StepDependency(state, guard, layers, setting, deps[i], free);
        StepExtends(w, setting, start, deps, i, ios, before, io);
        ios := ios + [io];
        if !outcome.Continue? {
          ghost var padding := seq(|deps| - |ios|, _ => Io(false, false, false, []));
          RunStepsStay(w, setting, start, deps, i + 1, ios, padding);
          ios := ios + padding;
          return;
        }
      }
      outcome := Continue;
      assert deps[..|deps|] == deps;
    }

    /** Layers the outputs, then hands the sessions to the caller or releases them. */
    method Conclude(state: CompositionState, guard: CompositionSessionGuard, deps: seq<ResolvedDependency>,
                    layers: seq<Vfs>, outcome: StepOutcome, ghost p: Progress, ghost free: bool)
                        returns (r: CompositionResult)
      requires guard.coordinator == coordinator && guard.hasClient == w.hasClient && fileConflicts == []
      requires Ends(p, outcome, Snapshot(state, guard, layers, free))
      modifies this`fileConflicts, guard, coordinator`released
      ensures Shows(Finish(w, deps, p), r, fileConflicts)
      ensures r.Composed? ==> r.sessions == old(guard.sessions) && coordinator.released == old(coordinator.released)
      ensures r.Broken? ==>
                coordinator.released == old(coordinator.released) + (if w.hasClient then old(guard.sessions) else [])
    {
      match outcome {
        case AskUser =>
          var ids := guard.Disarm();
          return Composed(map[], state.View(), ids);
        case Fail(failure) =>
          guard.Drop();
          return Broken(failure);
        case Continue =>
          var layered := LayerOutputs(deps, layers);
          if layered.None? {
            guard.Drop();
            return Broken(LayeringFailed);
          }
          var ids := guard.Disarm();
          r := Composed(layered.value, state.View(), ids);
      }
    }

    /** Runs the dependencies in order and layers their outputs.  The result is the one `Run`
        specifies for what the environment decided on the way (`ios`).  On success the caller
        gets exactly the sessions `gained` by executions; on failure all of them are
        released. */
    method ExecuteComposition(deps: seq<ResolvedDependency>, initial: Shared)
        returns (r: CompositionResult, ghost ios: seq<Io>, ghost gained: seq<string>)
      requires cache.store.codec.Valid() && ResultsFit(w, cache.store.codec)
      modifies this`generated, this`fileConflicts, cache, cache.store, coordinator
      ensures |ios| == |deps|
      ensures var o := Run(w, deps, old(BeginFrom(initial)), cache.enabled, ios);
              && Shows(o, r, fileConflicts)
              && cache.store.View() == o.acc.cache && cache.hits == o.acc.hits && cache.total == o.acc.total
                && generated == o.acc.generated
      ensures coordinator.handed == old(coordinator.handed) + gained
      ensures r.Composed? ==> r.sessions == gained && coordinator.released == old(coordinator.released)
      ensures r.Broken? ==> coordinator.released == old(coordinator.released) + (if w.hasClient then gained else [])
    {
      hide RunSteps, LayeringOf, Overwrite, Shows, ResultsFit, NamespacesOf;
      var state := new CompositionState(initial);
      var guard := new CompositionSessionGuard(coordinator, w.hasClient);
      var layers, outcome;
      fileConflicts := [];
      var setting := SettingOf(deps, initial, cache.enabled);
      assert Snapshot(state, guard, [], true) == StartAcc(old(BeginFrom(initial)));
      ghost var free;
      layers, outcome, ios, free := RunDependencies(state, guard, setting, deps);
      gained := guard.sessions;
      r := Conclude(state, guard, deps, layers, outcome,
                    RunSteps(w, setting, StartAcc(old(BeginFrom(initial))), deps, ios), free);
    }
  }

  /** `r` is what the caller of the run sees as `o`. */
  ghost predicate Shows(o: Outcome, r: CompositionResult, conflicts: seq<ConflictEntry>) {
    match o.visible
    case Error(failure) => r == Broken(failure)
    case Output(vfs, shared, ledger) => r == Composed(vfs, shared, o.sessions) && Lists(conflicts, ledger)
  }

  /** A node whose entry can be read and unpacks is replayed. */
  lemma CachedReplays(w: World, setting: Setting, acc: Acc, t: Template, sid: string, answers: Answers, io: Io)
    requires w.Key(t, answers, acc.shared.states) in acc.cache && io.readable
    requires Replay(w, setting, acc.(total := acc.total + 1), t, acc.cache[w.Key(t, answers, acc.shared.states)],
                    io.order).Some?
    ensures StepCached(w, setting, acc, t, sid, answers, io) ==
            Replay(w, setting, acc.(total := acc.total + 1), t, acc.cache[w.Key(t, answers, acc.shared.states)],
                   io.order).value
  {
    hide Execute, Replay, MaterialOf;
  }

  /** Any other is executed, after eviction of an entry that did not unpack. */
  lemma CachedExecutes(w: World, setting: Setting, acc: Acc, t: Template, sid: string, answers: Answers, io: Io)
    requires var key := w.Key(t, answers, acc.shared.states);
             key in acc.cache && io.readable ==>
               Replay(w, setting, acc.(total := acc.total + 1), t, acc.cache[key], io.order).None?
    ensures var key := w.Key(t, answers, acc.shared.states);
            StepCached(w, setting, acc, t, sid, answers, io) ==
            Execute(w, setting,
                    acc.(total := acc.total + 1,
                         cache := if key in acc.cache && io.readable && io.evicted then acc.cache - {key}
                           else acc.cache),
                    t, sid, answers, Some(key), io)
  {
    hide Execute, Replay, MaterialOf;
  }

  lemma {:induction false} StepExtends(w: World, setting: Setting, start: Acc, deps: seq<ResolvedDependency>,
                                       i: nat, ios: seq<Io>, before: Acc, io: Io)
    requires i < |deps| && |ios| == i
    requires RunSteps(w, setting, start, deps[..i], ios) == Running(before)
    ensures RunSteps(w, setting, start, deps[..i + 1], ios + [io]) == StepDep(w, setting, before, deps[i], io)
  {
    hide StepDep;
    assert deps[..i + 1][..i] == deps[..i] && (ios + [io])[..i] == ios;
  }

  /** A stopped run stays stopped whatever dependencies remain. */
  lemma {:induction false} RunStepsStay(w: World, setting: Setting, start: Acc, deps: seq<ResolvedDependency>, i: nat,
                                        ios: seq<Io>, padding: seq<Io>)
    requires i <= |deps| && |ios| == i && |padding| == |deps| - i
    requires !RunSteps(w, setting, start, deps[..i], ios).Running?
    ensures RunSteps(w, setting, start, deps, ios + padding) == RunSteps(w, setting, start, deps[..i], ios)
    decreases |padding|
  {
    hide StepDep;
    if padding == [] {
      assert ios + padding == ios && deps[..i] == deps;
    } else {
      var n := |deps| - 1;
      var shorter := padding[..|padding| - 1];
      assert (ios + padding)[..n] == ios + shorter && deps[..n][..i] == deps[..i];
      RunStepsStay(w, setting, start, deps[..n], i, ios, shorter);
    }
  }
}
