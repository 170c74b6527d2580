/** The operator run twice on the same composition, once with its cache and once without. */
module CachedRuns {
  import opened Models
  import opened SharedState
  import opened Composition
  import opened Transparency
  import opened AnswerSurvival
  import opened Operator

  ghost predicate Separate(a: CompositionOperator, b: CompositionOperator) {
    a != b && a.cache != b.cache && a.cache.store != b.cache.store && a.coordinator != b.coordinator
  }

  /** From a faithful cache the two operators return the same files and state or the same
      failure, the cached one with no session the other did not use; the caller's answers are
      kept; and the cache is faithful again. */
  method RunCachedAndUncached(on: CompositionOperator, off: CompositionOperator, deps: seq<ResolvedDependency>,
                              initial: Shared)
      returns (rOn: CompositionResult, rOff: CompositionResult)
    requires Separate(on, off) && on.w == off.w && on.generated == off.generated
    requires on.cache.enabled && !off.cache.enabled
    requires on.cache.store.codec.Valid() && ResultsFit(on.w, on.cache.store.codec)
    requires off.cache.store.codec.Valid() && ResultsFit(off.w, off.cache.store.codec)
    requires NoDigestCollisions(on.w) && Deterministic(on.w) && Covered(on.w, deps, initial)
    requires Faithful(on.w, on.cache.store.View()) && on.cache.hits <= on.cache.total
    requires WellBehaved(on.w, deps, SettingOf(deps, initial, false))
    modifies on`generated, on`fileConflicts, on.cache, on.cache.store, on.coordinator
    modifies off`generated, off`fileConflicts, off.cache, off.cache.store, off.coordinator
    ensures rOn.Composed? <==> rOff.Composed?
    ensures rOn.Composed? ==>
              && rOn.vfs == rOff.vfs && rOn.shared == rOff.shared
              && Subsequence(rOn.sessions, rOff.sessions)
              && Kept(initial.answers, rOn.shared.answers)
    ensures rOn.Broken? ==> rOn.failure == rOff.failure && rOn.failure != AnswerTypeConflict
    ensures Faithful(on.w, on.cache.store.View()) && on.cache.hits <= on.cache.total
  {
    hide Run, Faithful, WellBehaved, Covered;
    ghost var bOn, bOff := on.BeginFrom(initial), off.BeginFrom(initial);
    ghost var iosOn, iosOff, gainedOn, gainedOff;
    rOn, iosOn, gainedOn := on.ExecuteComposition(deps, initial);
    rOff, iosOff, gainedOff := off.ExecuteComposition(deps, initial);
    CacheIsTransparent(on.w, deps, bOn, bOff, iosOn, iosOff);
    CallerAnswersSurvive(on.w, deps, bOff, false, iosOff);
  }
}
