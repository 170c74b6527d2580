/** A composition run as a function: one step per dependency, then layering.  What the run
    asks of the outside (executor, unpacker, digest, layering services) are parameters, and
    so is whether each cache write or eviction reached the disk. */
module Composition {
  import opened Wrappers
  import opened Models
  import opened CacheKey
  import opened EntryCodec
  import opened Consensus
  import opened Layerer
  import opened Namespace
  import opened SharedState

  datatype ExecResult =
    | ExecErr
    | ExecOk(archive: Bytes, state: TemplateState, session: string)

  /** What a run asks of the outside.  `known` are the key materials whose digests it comes to
      ask for. */
  datatype World = World(
    execute: (Template, string, Answers, States) -> ExecResult,
    unpack: Bytes -> Option<Vfs>,
    digest: Material -> string,
    sessionId: nat -> string,
    services: Services,
    hasClient: bool,
    known: Material -> bool)
  {
    predicate Knows(t: Template, answers: Answers, states: States) {
      known(MaterialOf(t, answers, states))
    }

    function Key(t: Template, answers: Answers, states: States): string {
      digest(MaterialOf(t, answers, states))
    }
  }

  /** Never true of local, dev and synthetic templates. */
  predicate IsCacheable(t: Template) {
    t.properties.Some? && t.version > 0 && !("10ca1" <= t.id) && !("local-" <= t.id)
  }

  predicate IsExecutable(d: ResolvedDependency) { d.template.properties.Some? }

  function Executable(deps: seq<ResolvedDependency>): seq<ResolvedDependency> {
    if deps == [] then []
    else
      var n := |deps| - 1;
      if IsExecutable(deps[n]) then Executable(deps[..n]) + [deps[n]] else Executable(deps[..n])
  }

  function NamespacesOf(deps: seq<ResolvedDependency>): seq<string> {
    var executable := Executable(deps);
    seq(|executable|, i requires 0 <= i < |executable| => executable[i].template.id)
  }

  lemma {:induction false} ExecutableMembers(deps: seq<ResolvedDependency>)
    ensures forall d :: d in Executable(deps) <==> d in deps && IsExecutable(d)
  {
    if deps != [] {
      var n := |deps| - 1;
      ExecutableMembers(deps[..n]);
      assert deps == deps[..n] + [deps[n]];
    }
  }

  lemma ListsExecutableIds(deps: seq<ResolvedDependency>, d: ResolvedDependency)
    requires d in deps && IsExecutable(d)
    ensures d.template.id in NamespacesOf(deps)
  {
    ExecutableMembers(deps);
    var i :| 0 <= i < |Executable(deps)| && Executable(deps)[i] == d;
    assert NamespacesOf(deps)[i] == d.template.id;
  }

  /** What stays fixed during a run. */
  datatype Setting = Setting(namespaces: seq<string>, supplied: Answers, cacheOn: bool) {
    predicate Multi() { |namespaces| > 1 }
    function NamespaceFor(t: Template): Option<string> { if Multi() then Some(t.id) else None }
  }

  function SettingOf(deps: seq<ResolvedDependency>, initial: Shared, cacheOn: bool): Setting {
    Setting(NamespacesOf(deps), initial.answers, cacheOn)
  }

  type Entries = map<string, CacheEntry>

  /** What accumulates.  `orderFree` stays true while no scoping of answers depended on hash
      order. */
  datatype Acc = Acc(
    shared: Shared,
    layers: seq<Vfs>,
    sessions: seq<string>,
    cache: Entries,
    hits: nat,
    total: nat,
    generated: nat,
    ghost orderFree: bool)

  datatype Failure = SlashInId | ExecutorFailed | UnpackFailed | AnswerTypeConflict | LayeringFailed

  datatype Progress =
    | Running(acc: Acc)
    | Asked(acc: Acc)                    // stopped on an unanswered question
    | Stopped(failure: Failure, acc: Acc)

  /** What the environment decides at one dependency: whether its cache write, eviction and
      read took effect, and in which order its answers are iterated. */
  datatype Io = Io(stored: bool, evicted: bool, readable: bool, order: seq<string>)

  /** Merges a template's terminal state, scoped, into the shared state. */
  ghost function Contribute(setting: Setting, acc: Acc, t: Template, state: TemplateState,
                            order: seq<string>): Progress {
    var ns := setting.NamespaceFor(t);
    var next := acc.(orderFree := acc.orderFree && OrderFree(state, ns, setting.supplied));
    match Updated(acc.shared, NamespaceState(state, ns, setting.supplied, order), t.id)
    case None => Stopped(AnswerTypeConflict, next)
    case Some(shared) => if state.NeedInput? then Asked(next.(shared := shared)) else Running(next.(shared := shared))
  }

  lemma ContributeTouches(setting: Setting, acc: Acc, t: Template, state: TemplateState, order: seq<string>)
    ensures var p := Contribute(setting, acc, t, state, order);
            && p.acc == acc.(shared := p.acc.shared, orderFree := p.acc.orderFree)
            && (p.Running? ==> !state.NeedInput?)
  {
  }

  function HandOver(acc: Acc, session: string): Acc {
    acc.(sessions := acc.sessions + (if session == "" then [] else [session]))
  }

  /** Adds the layer and, for a complete result that may be cached, the cache entry. */
  function Deliver(acc: Acc, archive: Bytes, vfs: Vfs, state: TemplateState, key: Option<string>, io: Io): Acc {
    acc.(layers := acc.layers + [vfs],
         cache := if key.Some? && state.Complete? && io.stored
                  then acc.cache[key.value := CacheEntry(archive, state.answers)] else acc.cache)
  }

  /** What follows an execution whose session has been recorded. */
  ghost function Absorb(w: World, setting: Setting, acc: Acc, t: Template, archive: Bytes, state: TemplateState,
                        key: Option<string>, io: Io): Progress {
    if state.NeedInput? then Contribute(setting, acc, t, state, io.order)
    else match w.unpack(archive)
      case None => Stopped(UnpackFailed, acc)
      case Some(vfs) => Contribute(setting, Deliver(acc, archive, vfs, state, key, io), t, state, io.order)
  }

  /** Live execution; `key` is the cache key when the node may be cached. */
  ghost function Execute(w: World, setting: Setting, acc: Acc, t: Template, sid: string, answers: Answers,
                         key: Option<string>, io: Io): Progress {
    match w.execute(t, sid, answers, acc.shared.states)
    case ExecErr => Stopped(ExecutorFailed, acc)
    case ExecOk(archive, state, session) => Absorb(w, setting, HandOver(acc, session), t, archive, state, key, io)
  }

  /** Serves the node from its cache entry; None when the entry does not unpack. */
  ghost function Replay(w: World, setting: Setting, acc: Acc, t: Template, entry: CacheEntry,
                        order: seq<string>): Option<Progress> {
    match w.unpack(entry.archive)
    case None => None
    case Some(vfs) =>
      var r := Contribute(setting, acc.(layers := acc.layers + [vfs]), t, Complete(entry.state), order);
      Some(if r.Running? then Running(r.acc.(hits := r.acc.hits + 1)) else r)
  }

  function AnswersFor(setting: Setting, acc: Acc, dep: ResolvedDependency): Answers {
    TemplateAnswers(setting.NamespaceFor(dep.template), setting.namespaces, acc.shared.answers, dep.presetAnswers)
  }

  /** A cacheable node: look it up, serve it if it can be read and unpacks, else evict it and
      execute. */
  ghost function StepCached(w: World, setting: Setting, acc: Acc, t: Template, sid: string, answers: Answers,
                            io: Io): Progress {
    var key := w.Key(t, answers, acc.shared.states);
    var looked := acc.(total := acc.total + 1);
    if key !in looked.cache || !io.readable then Execute(w, setting, looked, t, sid, answers, Some(key), io)
    else match Replay(w, setting, looked, t, looked.cache[key], io.order)
      case Some(r) => r
      case None =>
        var healed := looked.(cache := if io.evicted then looked.cache - {key} else looked.cache);
        Execute(w, setting, healed, t, sid, answers, Some(key), io)
  }

  ghost function StepDep(w: World, setting: Setting, acc: Acc, dep: ResolvedDependency, io: Io): Progress {
    var t := dep.template;
    if !IsExecutable(dep) then
      Running(acc.(shared := acc.shared.(executionOrder := acc.shared.executionOrder + [t.id])))
    else
      var sid := w.sessionId(acc.generated);
      var begun := acc.(generated := acc.generated + 1);
      if setting.Multi() && '/' in t.id then Stopped(SlashInId, begun)
      else
        var answers := AnswersFor(setting, acc, dep);
        if setting.cacheOn && IsCacheable(t) then StepCached(w, setting, begun, t, sid, answers, io)
        else Execute(w, setting, begun, t, sid, answers, None, io)
  }

  /** The loop over the dependencies. */
  ghost function RunSteps(w: World, setting: Setting, start: Acc, deps: seq<ResolvedDependency>, ios: seq<Io>): Progress
    requires |ios| == |deps|
  {
    if deps == [] then Running(start)
    else
      var n := |deps| - 1;
      match RunSteps(w, setting, start, deps[..n], ios[..n])
      case Running(acc) => StepDep(w, setting, acc, deps[n], ios[n])
      case stopped => stopped
  }

  // ------------------------------------------------------------- layering

  function RegistryOf(deps: seq<ResolvedDependency>): Registry {
    if deps == [] then map[]
    else
      var n := |deps| - 1;
      var t := deps[n].template;
      if t.resolvers == [] then RegistryOf(deps[..n]) else RegistryOf(deps[..n])[t.id := t.resolvers]
  }

  /** One info per dependency, group templates included. */
  function TemplateInfos(deps: seq<ResolvedDependency>): seq<TemplateInfo> {
    seq(|deps|, i requires 0 <= i < |deps| => TemplateInfo(deps[i].template.id, deps[i].template.version, i))
  }

  function LayeringOf(w: World, deps: seq<ResolvedDependency>): Layering {
    Layering(TemplateInfos(deps), RegistryOf(deps), w.services)
  }

  // -------------------------------------------------------------- outcome

  /** What the caller sees: files, state and conflicts, or the failure. */
  datatype Visible =
    | Output(vfs: Vfs, shared: Shared, conflicts: map<FilePath, ConflictEntry>)
    | Error(failure: Failure)

  datatype Outcome = Outcome(visible: Visible, sessions: seq<string>, acc: Acc)

  ghost function Finish(w: World, deps: seq<ResolvedDependency>, p: Progress): Outcome {
    match p
    case Stopped(failure, acc) => Outcome(Error(failure), acc.sessions, acc)
    case Asked(acc) => Outcome(Output(map[], acc.shared, map[]), acc.sessions, acc)
    case Running(acc) =>
      if acc.layers == [] then Outcome(Output(map[], acc.shared, map[]), acc.sessions, acc)
      else if !w.hasClient then Outcome(Output(Overwrite(acc.layers), acc.shared, map[]), acc.sessions, acc)
      else
        var layering := LayeringOf(w, deps);
        match layering.Merge(acc.layers)
        case None => Outcome(Error(LayeringFailed), acc.sessions, acc)
        case Some(vfs) => Outcome(Output(vfs, acc.shared, layering.Conflicts(acc.layers)), acc.sessions, acc)
  }

  /** Where a run begins: the caller's state, the cache and its counters, and how many session
      ids have been generated before. */
  datatype Begin = Begin(initial: Shared, cache: Entries, hits: nat, total: nat, generated: nat)

  function StartAcc(b: Begin): Acc {
    Acc(b.initial, [], [], b.cache, b.hits, b.total, b.generated, true)
  }

  ghost function Run(w: World, deps: seq<ResolvedDependency>, b: Begin, cacheOn: bool, ios: seq<Io>): Outcome
    requires |ios| == |deps|
  {
    Finish(w, deps, RunSteps(w, SettingOf(deps, b.initial, cacheOn), StartAcc(b), deps, ios))
  }

  // --------------------------------------------------- whose layer is it

  /** Each layer is described by the info of the template that produced it. */
  ghost predicate InfosAligned(deps: seq<ResolvedDependency>) {
    forall i :: 0 <= i < |Executable(deps)| ==>
      InfoAt(TemplateInfos(deps), i).templateId == Executable(deps)[i].template.id
  }

  ghost predicate DistinctIds(deps: seq<ResolvedDependency>) {
    forall i, j :: 0 <= i < j < |deps| ==> deps[i].template.id != deps[j].template.id
  }

  /** No skipped group template comes before an executable one. */
  predicate GroupsLast(deps: seq<ResolvedDependency>) {
    forall i, j :: 0 <= i < j < |deps| && IsExecutable(deps[j]) ==> IsExecutable(deps[i])
  }

  lemma {:induction false} GroupsLastPrefix(deps: seq<ResolvedDependency>)
    requires GroupsLast(deps)
    ensures Executable(deps) <= deps
  {
    if deps != [] {
      var n := |deps| - 1;
      GroupsLastPrefix(deps[..n]);
      if IsExecutable(deps[n]) {
        AllExecutable(deps[..n]);
      }
      assert deps == deps[..n] + [deps[n]];
    }
  }

  lemma {:induction false} AllExecutable(deps: seq<ResolvedDependency>)
    requires forall i :: 0 <= i < |deps| ==> IsExecutable(deps[i])
    ensures Executable(deps) == deps
  {
    if deps != [] {
      AllExecutable(deps[..|deps| - 1]);
    }
  }

  lemma {:induction false} ExecutableBound(deps: seq<ResolvedDependency>)
    ensures |Executable(deps)| <= |deps|
    ensures (exists i :: 0 <= i < |deps| && !IsExecutable(deps[i])) ==> |Executable(deps)| < |deps|
  {
    if deps != [] {
      var n := |deps| - 1;
      ExecutableBound(deps[..n]);
      if i :| 0 <= i < |deps| && !IsExecutable(deps[i]) && i < n {
        assert !IsExecutable(deps[..n][i]);
      }
    }
  }

  lemma {:induction false} ExecutableOfPrefix(deps: seq<ResolvedDependency>, k: nat)
    requires k <= |deps|
    ensures Executable(deps[..k]) <= Executable(deps)
    ensures k < |deps| && IsExecutable(deps[k]) ==>
              |Executable(deps[..k])| < |Executable(deps)| && Executable(deps)[|Executable(deps[..k])|] == deps[k]
    decreases |deps|
  {
    var n := |deps| - 1;
    if k < |deps| {
      if k < n {
        ExecutableOfPrefix(deps[..n], k);
        assert deps[..n][..k] == deps[..k];
        assert deps[..n][k] == deps[k];
      }
    } else {
      assert deps[..k] == deps;
    }
  }

  /** Conflicts are attributed to the right templates if and only if no group template is
      listed before an executable one: infos are numbered over all dependencies, layers only
      over the executed ones. */
  lemma AttributionIff(deps: seq<ResolvedDependency>)
    requires DistinctIds(deps)
    ensures InfosAligned(deps) <==> GroupsLast(deps)
  {
    ExecutableBound(deps);
    if GroupsLast(deps) {
      GroupsLastPrefix(deps);
    } else {
      var i, j :| 0 <= i < j < |deps| && IsExecutable(deps[j]) && !IsExecutable(deps[i]);
      ExecutableOfPrefix(deps, j);
      ExecutableBound(deps[..j]);
      assert !IsExecutable(deps[..j][i]);
      var k := |Executable(deps[..j])|;
      assert k < j && Executable(deps)[k] == deps[j];
      assert InfoAt(TemplateInfos(deps), k).templateId == deps[k].template.id;
    }
  }
}
