/** Which template a conflict is blamed on: the layers of a run are its executed dependencies,
    in order, and the ledger's winners name them when the infos line up. */
module Attribution {
  import opened Wrappers
  import opened Models
  import opened CacheKey
  import opened Consensus
  import opened Layerer
  import opened SharedState
  import opened Composition
  import opened HashOrder

  /** What the node adds to the layers: the entry that serves it unpacked, or what it produces
      when it is executed. */
  function LayerOf(w: World, setting: Setting, acc: Acc, dep: ResolvedDependency, io: Io): Option<Vfs> {
    var t, answers := dep.template, AnswersFor(setting, acc, dep);
    var key := w.Key(t, answers, acc.shared.states);
    if setting.cacheOn && IsCacheable(t) && io.readable && key in acc.cache && w.unpack(acc.cache[key].archive).Some?
    then w.unpack(acc.cache[key].archive)
    else Produced(w, t, w.sessionId(acc.generated), answers, acc.shared.states)
  }

  function Produced(w: World, t: Template, sid: string, answers: Answers, states: States): Option<Vfs> {
    match w.execute(t, sid, answers, states)
    case ExecErr => None
    case ExecOk(archive, _, _) => w.unpack(archive)
  }

  lemma ExecuteAddsLayer(w: World, setting: Setting, acc: Acc, t: Template, sid: string, answers: Answers,
                         key: Option<string>, io: Io)
    requires Execute(w, setting, acc, t, sid, answers, key, io).Running?
    ensures var vfs := Produced(w, t, sid, answers, acc.shared.states);
            vfs.Some? && Execute(w, setting, acc, t, sid, answers, key, io).acc.layers == acc.layers + [vfs.value]
  {
    hide Contribute;
    match w.execute(t, sid, answers, acc.shared.states)
    case ExecErr =>
    case ExecOk(archive, state, session) =>
      var handed := HandOver(acc, session);
      ContributeTouches(setting, handed, t, state, io.order);
      if w.unpack(archive).Some? {
        ContributeTouches(setting, Deliver(handed, archive, w.unpack(archive).value, state, key, io), t, state,
                              io.order);
      }
  }

  lemma CachedAddsLayer(w: World, setting: Setting, acc: Acc, t: Template, sid: string, answers: Answers, io: Io)
    requires StepCached(w, setting, acc, t, sid, answers, io).Running?
    ensures var key := w.Key(t, answers, acc.shared.states);
            var vfs := if io.readable && key in acc.cache && w.unpack(acc.cache[key].archive).Some?
              then w.unpack(acc.cache[key].archive) else Produced(w, t, sid, answers, acc.shared.states);
            vfs.Some? && StepCached(w, setting, acc, t, sid, answers, io).acc.layers == acc.layers + [vfs.value]
  {
    hide Execute, Contribute;
    var key := w.Key(t, answers, acc.shared.states);
    var looked := acc.(total := acc.total + 1);
    if key !in looked.cache || !io.readable {
      ExecuteAddsLayer(w, setting, looked, t, sid, answers, Some(key), io);
    } else if w.unpack(looked.cache[key].archive).Some? {
      var vfs := w.unpack(looked.cache[key].archive).value;
      ContributeTouches(setting, looked.(layers := looked.layers + [vfs]), t, Complete(looked.cache[key].state),
                            io.order);
    } else {
      var healed := looked.(cache := if io.evicted then looked.cache - {key} else looked.cache);
      ExecuteAddsLayer(w, setting, healed, t, sid, answers, Some(key), io);
    }
  }

  lemma StepAddsLayer(w: World, setting: Setting, acc: Acc, dep: ResolvedDependency, io: Io)
    requires StepDep(w, setting, acc, dep, io).Running?
    ensures var next := StepDep(w, setting, acc, dep, io).acc;
            if IsExecutable(dep)
            then LayerOf(w, setting, acc, dep, io).Some?
                 && next.layers == acc.layers + [LayerOf(w, setting, acc, dep, io).value]
            else next.layers == acc.layers
  {
    hide Execute, StepCached, AnswersFor, Produced;
    if IsExecutable(dep) {
      var begun := acc.(generated := acc.generated + 1);
      var answers := AnswersFor(setting, acc, dep);
      if setting.cacheOn && IsCacheable(dep.template) {
        CachedAddsLayer(w, setting, begun, dep.template, w.sessionId(acc.generated), answers, io);
      } else {
        ExecuteAddsLayer(w, setting, begun, dep.template, w.sessionId(acc.generated), answers, None, io);
      }
    }
  }

  /** A run that completes has one layer per executable dependency, replayed or executed. */
  lemma {:induction false} LayerPerExecutable(w: World, setting: Setting, start: Acc, deps: seq<ResolvedDependency>,
                                              ios: seq<Io>)
    requires |ios| == |deps| && RunSteps(w, setting, start, deps, ios).Running?
    ensures |RunSteps(w, setting, start, deps, ios).acc.layers| == |start.layers| + |Executable(deps)|
    ensures start.layers <= RunSteps(w, setting, start, deps, ios).acc.layers
    decreases |deps|
  {
    hide StepDep, LayerOf;
    if deps != [] {
      var n := |deps| - 1;
      LayerPerExecutable(w, setting, start, deps[..n], ios[..n]);
      StepAddsLayer(w, setting, RunSteps(w, setting, start, deps[..n], ios[..n]).acc, deps[n], ios[n]);
    }
  }

  /** And the layer of each is what it adds where the run gets to it. */
  lemma {:induction false} LayersAreOutputs(w: World, setting: Setting, start: Acc, deps: seq<ResolvedDependency>,
                                            ios: seq<Io>, k: nat)
    requires |ios| == |deps| && RunSteps(w, setting, start, deps, ios).Running?
    requires k < |deps| && IsExecutable(deps[k]) && start.layers == []
    ensures var before, i := RunSteps(w, setting, start, deps[..k], ios[..k]), |Executable(deps[..k])|;
            var layers := RunSteps(w, setting, start, deps, ios).acc.layers;
            && before.Running? && i < |layers| == |Executable(deps)| && Executable(deps)[i] == deps[k]
            && LayerOf(w, setting, before.acc, deps[k], ios[k]) == Some(layers[i])
    decreases |deps|
  {
    hide StepDep, LayerOf;
    var n := |deps| - 1;
    LayerPerExecutable(w, setting, start, deps, ios);
    LayerPerExecutable(w, setting, start, deps[..n], ios[..n]);
    ExecutableOfPrefix(deps, k);
    StepAddsLayer(w, setting, RunSteps(w, setting, start, deps[..n], ios[..n]).acc, deps[n], ios[n]);
    if k < n {
      LayersAreOutputs(w, setting, start, deps[..n], ios[..n], k);
      assert deps[..n][..k] == deps[..k] && ios[..n][..k] == ios[..k];
    }
  }

  /** When no group template is listed before an executable one, layer `i` of a completed run is
      what dependency `i` adds, and every conflict that is settled by the last writer names the
      dependency that wrote last. */
  lemma {:induction false} WinnersWroteLast(w: World, deps: seq<ResolvedDependency>, b: Begin, cacheOn: bool,
                                            ios: seq<Io>, p: FilePath, i: nat)
    requires DistinctIds(deps) && GroupsLast(deps) && |ios| == |deps|
    requires RunSteps(w, SettingOf(deps, b.initial, cacheOn), StartAcc(b), deps, ios).Running?
    requires IsLastProducer(RunSteps(w, SettingOf(deps, b.initial, cacheOn), StartAcc(b), deps, ios).acc.layers, p, i)
    ensures i < |deps| && IsExecutable(deps[i])
    ensures var setting := SettingOf(deps, b.initial, cacheOn);
            var layers := RunSteps(w, setting, StartAcc(b), deps, ios).acc.layers;
            var before := RunSteps(w, setting, StartAcc(b), deps[..i], ios[..i]);
            var conflicts := LayeringOf(w, deps).Conflicts(layers);
            && before.Running? && LayerOf(w, setting, before.acc, deps[i], ios[i]) == Some(layers[i])
            && (p in conflicts <==> exists j :: 0 <= j < i && p in layers[j])
            && (p in conflicts && !conflicts[p].resolution.ByResolver? ==>
                  conflicts[p].winner == Some(deps[i].template.id))
  {
    hide RunSteps, LayerOf;
    var setting := SettingOf(deps, b.initial, cacheOn);
    LayerPerExecutable(w, setting, StartAcc(b), deps, ios);
    AttributionIff(deps);
    GroupsLastPrefix(deps);
    ExecutableFirst(deps, i);
    LayersAreOutputs(w, setting, StartAcc(b), deps, ios, i);
    LedgerNamesLastProducer(LayeringOf(w, deps), RunSteps(w, setting, StartAcc(b), deps, ios).acc.layers, p, i);
  }

  lemma {:induction false} ExecutableFirst(deps: seq<ResolvedDependency>, i: nat)
    requires GroupsLast(deps) && i < |Executable(deps)|
    ensures i < |deps| && Executable(deps)[i] == deps[i] && IsExecutable(deps[i]) && |Executable(deps[..i])| == i
  {
    GroupsLastPrefix(deps);
    ExecutableMembers(deps);
    assert Executable(deps)[i] in Executable(deps);
    AllExecutable(deps[..i]);
  }

  // ---------------------------------------------------- resolvers in a run

  /** `r` is the first resolver of the template with a pattern that matches. */
  ghost predicate Picks(t: Template, p: FilePath, services: Services, r: ResolverInstance) {
    exists i: nat ::
      && i < |t.resolvers| && t.resolvers[i] == r && MatchesPath(r, p, services)
      && forall j :: 0 <= j < i ==> !MatchesPath(t.resolvers[j], p, services)
  }

  /** The registry of a composition holds each template's own resolvers. */
  lemma {:induction false} RegistryHolds(deps: seq<ResolvedDependency>)
    requires DistinctIds(deps)
    ensures forall id :: id in RegistryOf(deps) ==> exists i :: 0 <= i < |deps| && deps[i].template.id == id
    ensures forall i :: 0 <= i < |deps| ==>
              var t := deps[i].template;
              if t.resolvers == [] then t.id !in RegistryOf(deps)
              else t.id in RegistryOf(deps) && RegistryOf(deps)[t.id] == t.resolvers
  {
    if deps != [] {
      var n := |deps| - 1;
      RegistryHolds(deps[..n]);
      assert deps == deps[..n] + [deps[n]];
      forall i | 0 <= i < n ensures deps[i].template.id != deps[n].template.id {}
    }
  }

  lemma {:induction false} ChosenIsPicked(deps: seq<ResolvedDependency>, i: nat, p: FilePath, services: Services,
                                          r: ResolverInstance)
    requires DistinctIds(deps) && i < |deps|
    ensures Chosen(RegistryOf(deps), deps[i].template.id, p, services, r) <==> Picks(deps[i].template, p, services, r)
  {
    hide RegistryOf, MatchesPath;
    RegistryHolds(deps);
    var t, registry := deps[i].template, RegistryOf(deps);
    if k: nat :| k < |t.resolvers| && t.resolvers[k] == r && MatchesPath(r, p, services)
                 && forall j :: 0 <= j < k ==> !MatchesPath(t.resolvers[j], p, services) {
      assert FirstAt(registry, t.id, p, services, k);
    }
  }

  /** What the producers of a path in a run hand to a resolver: their template, its version and
      position, and what they wrote. */
  function RunInputs(deps: seq<ResolvedDependency>, layers: seq<Vfs>, p: FilePath): seq<(TemplateInfo, Bytes)>
    requires |layers| <= |deps|
  {
    var order := Producers(layers, p);
    seq(|order|, k requires 0 <= k < |order| =>
      var i := order[k];
      ProducersExact(layers, p);
      assert i in order;
      (TemplateInfo(deps[i].template.id, deps[i].template.version, i), layers[i][p]))
  }

  /** In a completed run without a group template before an executable one: where every one of
      several producers of a path has a resolver for it, and these are the same, the run
      returns what the first makes of all their contents, or fails with it. */
  lemma {:induction false} RunResolves(w: World, deps: seq<ResolvedDependency>, b: Begin, cacheOn: bool,
                                       ios: seq<Io>, p: FilePath, r: ResolverInstance)
    requires DistinctIds(deps) && GroupsLast(deps) && |ios| == |deps| && w.hasClient
    requires RunSteps(w, SettingOf(deps, b.initial, cacheOn), StartAcc(b), deps, ios).Running?
    requires var order := Producers(RunSteps(w, SettingOf(deps, b.initial, cacheOn), StartAcc(b), deps,
                                             ios).acc.layers, p);
             && |order| > 1 && (forall k :: 0 <= k < |order| ==> order[k] < |deps|)
             && Picks(deps[order[0]].template, p, w.services, r)
             && (forall k :: 0 <= k < |order| ==> exists q :: Picks(deps[order[k]].template, p, w.services, q))
             && (forall j, k, q, q' :: (0 <= j < |order| && 0 <= k < |order|
                                        && Picks(deps[order[j]].template, p, w.services, q)
                                        && Picks(deps[order[k]].template, p, w.services, q')) ==>
                   SameResolver(q, q', w.services.configHash))
    ensures var layers := RunSteps(w, SettingOf(deps, b.initial, cacheOn), StartAcc(b), deps, ios).acc.layers;
            var visible := Run(w, deps, b, cacheOn, ios).visible;
            && |layers| <= |deps|
            && match w.services.resolve(r, p, RunInputs(deps, layers, p))
               case None => visible == Error(LayeringFailed)
               case Some(content) =>
                 visible.Output? ==>
                   && p in visible.vfs && visible.vfs[p] == content
                   && p in visible.conflicts && visible.conflicts[p].resolution == ByResolver
                   && visible.conflicts[p].resolverUsed == Some(r)
  {
    hide RunSteps, Producers, Chosen, Picks, RegistryOf, SameResolver;
    var setting, l := SettingOf(deps, b.initial, cacheOn), LayeringOf(w, deps);
    var layers := RunSteps(w, setting, StartAcc(b), deps, ios).acc.layers;
    LayerPerExecutable(w, setting, StartAcc(b), deps, ios);
    GroupsLastPrefix(deps);
    assert |layers| <= |deps|;
    ResolverInputs(w, deps, layers, p);
    var order := Producers(layers, p);
    forall k, q | 0 <= k < |order|
      ensures Chosen(l.registry, deps[order[k]].template.id, p, w.services, q)
        <==> Picks(deps[order[k]].template, p, w.services, q)
    {
      ChosenIsPicked(deps, order[k], p, w.services, q);
    }
    assert AllHaveOne(l, Inputs(l, layers, p), p);
    assert AllTheSame(l, Inputs(l, layers, p), p);
    AgreedResolverMerges(l, layers, p, r);
  }

  /** At every other path the files of a completed run are those of the layer that wrote the path
      last; without a client that is so at every path, and no conflict is reported. */
  lemma {:induction false} RunOverwrites(w: World, deps: seq<ResolvedDependency>, b: Begin, cacheOn: bool,
                                         ios: seq<Io>, p: FilePath)
    requires |ios| == |deps| && RunSteps(w, SettingOf(deps, b.initial, cacheOn), StartAcc(b), deps, ios).Running?
    ensures var layers := RunSteps(w, SettingOf(deps, b.initial, cacheOn), StartAcc(b), deps, ios).acc.layers;
            var visible := Run(w, deps, b, cacheOn, ios).visible;
            && |layers| <= |deps|
            && (!w.hasClient ==> visible.Output? && visible.conflicts == map[])
            && (visible.Output? ==>
                  && (p in visible.vfs <==> exists i :: 0 <= i < |layers| && p in layers[i])
                  && (p in visible.vfs && (w.hasClient ==> !ResolverSettles(LayeringOf(w, deps), layers, p)) ==>
                        exists i: nat :: IsLastProducer(layers, p, i) && visible.vfs[p] == layers[i][p]))
  {
    hide RunSteps, Overwrite, ResolverSettles, Producers, RegistryOf;
    var setting, l := SettingOf(deps, b.initial, cacheOn), LayeringOf(w, deps);
    var layers := RunSteps(w, setting, StartAcc(b), deps, ios).acc.layers;
    LayerPerExecutable(w, setting, StartAcc(b), deps, ios);
    ExecutableBound(deps);
    LayersAndPaths(l, layers, p);
  }

  lemma {:induction false} LayersAndPaths(l: Layering, layers: seq<Vfs>, p: FilePath)
    requires |layers| <= |l.infos|
    ensures p in Overwrite(layers) <==> exists i :: 0 <= i < |layers| && p in layers[i]
    ensures p in Overwrite(layers) ==>
              exists i: nat :: IsLastProducer(layers, p, i) && Overwrite(layers)[p] == layers[i][p]
    ensures l.Merge(layers).Some? ==>
              var vfs := l.Merge(layers).value;
              && (p in vfs <==> exists i :: 0 <= i < |layers| && p in layers[i])
              && (p in vfs && !ResolverSettles(l, layers, p) ==>
                    exists i: nat :: IsLastProducer(layers, p, i) && vfs[p] == layers[i][p])
  {
    hide Overwrite, ResolverSettles, Producers;
    PathsProduced(l, layers, p);
    OverwriteIsLastProducer(layers, p);
    ProducersExact(layers, p);
    if p in AllPaths(layers) && l.Merge(layers).Some? && !ResolverSettles(l, layers, p) {
      OthersAreLastWritten(l, layers, p);
    }
  }

  lemma {:induction false} ResolverInputs(w: World, deps: seq<ResolvedDependency>, layers: seq<Vfs>, p: FilePath)
    requires |layers| <= |deps|
    ensures Inputs(LayeringOf(w, deps), layers, p) == RunInputs(deps, layers, p)
    ensures |RunInputs(deps, layers, p)| == |Producers(layers, p)|
    ensures forall k :: 0 <= k < |Producers(layers, p)| ==>
              && Producers(layers, p)[k] < |deps|
              && RunInputs(deps, layers, p)[k].0.templateId == deps[Producers(layers, p)[k]].template.id
  {
    hide Producers;
    ProducersExact(layers, p);
    forall k | 0 <= k < |Producers(layers, p)| ensures Producers(layers, p)[k] < |layers| {
      assert Producers(layers, p)[k] in Producers(layers, p);
    }
  }

  // -------------------------------------------------- a group in front

  function Plain(id: string, images: Option<Images>, resolvers: seq<ResolverInstance>): ResolvedDependency {
    ResolvedDependency(Template(id, 1, images, [], [], [], resolvers), map[])
  }

  /** A group template, then two executable ones of which only `a` has resolvers. */
  function GroupThenAB(resolvers: seq<ResolverInstance>): seq<ResolvedDependency> {
    var images := Some(Images("", "", "", ""));
    [Plain("g", None, []), Plain("a", images, resolvers), Plain("b", images, [])]
  }

  lemma GroupThenABShape(resolvers: seq<ResolverInstance>)
    ensures var deps := GroupThenAB(resolvers);
            && DistinctIds(deps) && !GroupsLast(deps) && Executable(deps) == [deps[1], deps[2]]
            && InfoAt(TemplateInfos(deps), 0).templateId == "g" && InfoAt(TemplateInfos(deps), 1).templateId == "a"
            && |deps| == 3 && deps[2].template.id == "b"
            && RegistryOf(deps) == if resolvers == [] then map[] else map["a" := resolvers]
  {
    var deps := GroupThenAB(resolvers);
    assert deps[..2] == [deps[0], deps[1]] && deps[..2][..1] == [deps[0]] && deps[..2][..1][..0] == [];
    assert Executable([]) == [] && Executable([deps[0]]) == [] && Executable(deps[..2]) == [deps[1]];
    assert Executable(deps) == [deps[1], deps[2]];
    assert RegistryOf([]) == map[] && RegistryOf([deps[0]]) == map[];
    assert !IsExecutable(deps[0]) && IsExecutable(deps[1]);
  }

  /** `a` and `b` write the same path after a group template: the contents are those of `b`, but
      the ledger names `a` as winner, and the resolver is looked up for the group instead of
      `a` and for `a` instead of `b`. */
  lemma GroupFirstMisleads(w: World, resolvers: seq<ResolverInstance>, p: FilePath, fromA: Bytes, fromB: Bytes)
    ensures var deps, layers := GroupThenAB(resolvers), [map[p := fromA], map[p := fromB]];
            var l := LayeringOf(w, deps);
            && Executable(deps) == [deps[1], deps[2]] && deps[2].template.id == "b"
            && l.Merge(layers) == Some(Overwrite(layers)) == Some(map[p := fromB])
            && p in l.Conflicts(layers) && l.Conflicts(layers)[p].winner == Some("a")
            && l.At(p, layers)[0].choice == ChoiceFor(l.registry, "g", p, w.services)
            && l.At(p, layers)[1].choice == ChoiceFor(l.registry, "a", p, w.services)
  {
    hide ChoiceFor, Variations, EntryFor, ContentFor, GroupThenAB, TemplateInfos, RegistryOf;
    GroupThenABShape(resolvers);
    var l := LayeringOf(w, GroupThenAB(resolvers));
    NotRegistered(l, "g", p);
    LastOfTwoWins(l, p, fromA, fromB);
    TwoVariations(l, [map[p := fromA], map[p := fromB]], p);
  }

  /** `a` writes `fromA` and `b` writes `fromB` to the same path, whatever they are asked. */
  function TwoWriters(services: Services, p: FilePath, fromA: Bytes, fromB: Bytes): World {
    World((t: Template, sid: string, a: Answers, s: States) => ExecOk(if t.id == "a" then fromA else fromB,
                                                                      Complete(map[]), ""),
          archive => Some(map[p := archive]), _ => "", _ => "", services, true, _ => true)
  }

  lemma QuietStep(services: Services, p: FilePath, fromA: Bytes, fromB: Bytes, setting: Setting, acc: Acc,
                  dep: ResolvedDependency, io: Io)
    requires !setting.cacheOn && '/' !in dep.template.id
    ensures StepDep(TwoWriters(services, p, fromA, fromB), setting, acc, dep, io).Running?
    ensures TwoWriters(services, p, fromA, fromB).hasClient
    ensures IsExecutable(dep) ==>
              LayerOf(TwoWriters(services, p, fromA, fromB), setting, acc, dep, io) ==
              Some(map[p := if dep.template.id == "a" then fromA else fromB])
  {
    hide AnswersFor, Contribute, MaterialOf;
    if IsExecutable(dep) {
      var w, t, begun := TwoWriters(services, p, fromA, fromB), dep.template, acc.(generated := acc.generated + 1);
      var r := w.execute(t, w.sessionId(acc.generated), AnswersFor(setting, acc, dep), acc.shared.states);
      NoAnswersNoChange(setting, Deliver(HandOver(begun, ""), r.archive, w.unpack(r.archive).value, Complete(map[]),
                                         None, io), t, io.order);
    }
  }

  lemma {:induction false} QuietRun(services: Services, p: FilePath, fromA: Bytes, fromB: Bytes, setting: Setting,
                                    start: Acc, deps: seq<ResolvedDependency>, ios: seq<Io>)
    requires |ios| == |deps| && !setting.cacheOn && forall d :: d in deps ==> '/' !in d.template.id
    ensures RunSteps(TwoWriters(services, p, fromA, fromB), setting, start, deps, ios).Running?
    decreases |deps|
  {
    hide StepDep, TwoWriters;
    if deps != [] {
      var n := |deps| - 1;
      QuietRun(services, p, fromA, fromB, setting, start, deps[..n], ios[..n]);
      QuietStep(services, p, fromA, fromB, setting,
                RunSteps(TwoWriters(services, p, fromA, fromB), setting, start, deps[..n], ios[..n]).acc, deps[n],
                ios[n]);
    }
  }

  /** Every uncached run of the two behind the group: its file holds what `b` wrote, and its
      conflicts name `a` as the winner. */
  lemma MisledRun(services: Services, resolvers: seq<ResolverInstance>, p: FilePath, fromA: Bytes, fromB: Bytes,
                  b: Begin, ios: seq<Io>)
    requires |ios| == 3
    ensures var visible := Run(TwoWriters(services, p, fromA, fromB), GroupThenAB(resolvers), b, false, ios).visible;
            && visible.Output? && visible.vfs == map[p := fromB]
            && p in visible.conflicts && visible.conflicts[p].winner == Some("a")
  {
    hide RunSteps, StepDep, LayerOf, TwoWriters;
    var w, deps := TwoWriters(services, p, fromA, fromB), GroupThenAB(resolvers);
    var setting, start := SettingOf(deps, b.initial, false), StartAcc(b);
    GroupThenABShape(resolvers);
    QuietRun(services, p, fromA, fromB, setting, start, deps, ios);
    LayersAreOutputs(w, setting, start, deps, ios, 1);
    LayersAreOutputs(w, setting, start, deps, ios, 2);
    QuietStep(services, p, fromA, fromB, setting, RunSteps(w, setting, start, deps[..1], ios[..1]).acc, deps[1],
              ios[1]);
    QuietStep(services, p, fromA, fromB, setting, RunSteps(w, setting, start, deps[..2], ios[..2]).acc, deps[2],
              ios[2]);
    assert deps[..1] == [deps[0]] && deps[..2] == [deps[0], deps[1]];
    assert Executable([]) == [] && Executable(deps[..1]) == [];
    assert deps[..2][..1] == [deps[0]] && Executable(deps[..2]) == [deps[1]];
    assert RunSteps(w, setting, start, deps, ios).acc.layers == [map[p := fromA], map[p := fromB]];
    GroupFirstMisleads(w, resolvers, p, fromA, fromB);
  }

  lemma NotRegistered(l: Layering, id: string, p: FilePath)
    requires id !in l.registry
    ensures ChoiceFor(l.registry, id, p, l.services) == NoResolver
  {
  }

  /** Where the first of two producers has no resolver, the last one wins. */
  lemma LastOfTwoWins(l: Layering, p: FilePath, first: Bytes, second: Bytes)
    requires ChoiceFor(l.registry, InfoAt(l.infos, 0).templateId, p, l.services).NoResolver?
    ensures var layers := [map[p := first], map[p := second]];
            && l.Merge(layers) == Some(Overwrite(layers)) == Some(map[p := second])
            && p in l.Conflicts(layers) && l.Conflicts(layers)[p].winner == Some(InfoAt(l.infos, 1).templateId)
  {
    hide ChoiceFor, InfoAt, Variations, Overwrite, AllPaths;
    var layers: seq<Vfs> := [map[p := first], map[p := second]];
    TwoVariations(l, layers, p);
    TwoLayers(layers);
    NoneAmongThem(l.At(p, layers), l.services.configHash);
    assert layers[0] + layers[1] == map[p := second];
    assert l.Merge(layers).Some? && l.Merge(layers).value == map[p := second];
  }

  lemma NoneAmongThem(v: seq<Variation>, hash: ConfigHash)
    requires v != [] && v[0].choice.NoResolver?
    ensures !AgreeOnResolver(v, hash) && !ClassOf(Choices(v), hash).Unanimous?
  {
    assert Choices(v)[0].1.NoResolver? && Choices(v)[0] in Choices(v);
  }

  lemma {:induction false} TwoLayers(layers: seq<Vfs>)
    requires |layers| == 2
    ensures Overwrite(layers) == layers[0] + layers[1]
    ensures AllPaths(layers) == layers[0].Keys + layers[1].Keys
  {
    var first := layers[..1];
    assert |layers| - 1 == 1 && first == [layers[0]] && first[..0] == [];
    assert Overwrite(first) == layers[0] by { assert Overwrite(first[..0]) == map[]; }
    assert AllPaths(first) == layers[0].Keys by { assert AllPaths(first[..0]) == {}; }
  }

  lemma TwoVariations(l: Layering, layers: seq<Vfs>, p: FilePath)
    requires |layers| == 2 && p in layers[0] && p in layers[1]
    ensures var first, second := InfoAt(l.infos, 0), InfoAt(l.infos, 1);
            l.At(p, layers) == [Variation(first, ChoiceFor(l.registry, first.templateId, p, l.services), layers[0][p]),
                                Variation(second, ChoiceFor(l.registry, second.templateId, p, l.services),
                                          layers[1][p])]
  {
    hide InfoAt, ChoiceFor;
    var one := layers[..1];
    assert |layers| - 1 == 1 && one == [layers[0]] && one[..0] == [];
    assert l.At(p, one[..0]) == [];
    assert |l.At(p, one)| == 1;
  }
}
