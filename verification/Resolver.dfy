/** Flattening of a template's dependency graph, which may have cycles, into the post-order
    list that composition executes. */
module Resolver {
  import opened Wrappers
  import opened Models
  import opened CacheKey

  // ------------------------------------------------------- preset answers

  function AllStrings(items: seq<Json>): Option<seq<string>> {
    if items == [] then Some([])
    else if !items[0].JsonString? then None
    else match AllStrings(items[1..])
      case None => None
      case Some(rest) => Some([items[0].text] + rest)
  }

  /** None for the JSON types that answers do not support. */
  function ToAnswer(value: Json): Option<Answer> {
    match value
    case JsonString(text) => Some(StringAnswer(text))
    case JsonBool(flag) => Some(BoolAnswer(flag))
    case JsonArray(items) =>
      var strings := AllStrings(items);
      if strings.Some? then Some(StringArrayAnswer(strings.value)) else None
    case _ => None
  }

  function StringsAsJson(items: seq<string>): seq<Json> {
    seq(|items|, i requires 0 <= i < |items| => JsonString(items[i]))
  }

  /** The JSON that stands for an answer. */
  function AsJson(a: Answer): Json {
    match a
    case StringAnswer(text) => JsonString(text)
    case BoolAnswer(flag) => JsonBool(flag)
    case StringArrayAnswer(items) => JsonArray(StringsAsJson(items))
  }

  lemma {:induction false} AllStringsExact(items: seq<Json>, strings: seq<string>)
    ensures AllStrings(items) == Some(strings) <==> items == StringsAsJson(strings)
    decreases |items|
  {
    if items != [] && strings != [] {
      AllStringsExact(items[1..], strings[1..]);
      assert items == [items[0]] + items[1..] && strings == [strings[0]] + strings[1..];
      assert StringsAsJson(strings) == [JsonString(strings[0])] + StringsAsJson(strings[1..]);
    }
  }

  /** A value converts to an answer exactly when it is the JSON of that answer; other values are
      passed over. */
  lemma ToAnswerExact(value: Json, a: Answer)
    ensures ToAnswer(value) == Some(a) <==> value == AsJson(a)
  {
    if value.JsonArray? && a.StringArrayAnswer? {
      AllStringsExact(value.items, a.items);
    }
  }

  function PresetsOf(ref: DependencyRef): Answers {
    map k | k in ref.presetAnswers && ToAnswer(ref.presetAnswers[k]).Some? :: ToAnswer(ref.presetAnswers[k]).value
  }

  // ------------------------------------------- dependencies in id order

  function InsertById(x: DependencyRef, s: seq<DependencyRef>): seq<DependencyRef> {
    if s == [] || !CompareString(x.id, s[0].id).Greater? then [x] + s
    else [s[0]] + InsertById(x, s[1..])
  }

  /** A stable sort by id. */
  function SortById(s: seq<DependencyRef>): seq<DependencyRef> {
    if s == [] then [] else InsertById(s[0], SortById(s[1..]))
  }

  lemma {:induction false} InsertByIdPermutes(x: DependencyRef, s: seq<DependencyRef>)
    ensures multiset(InsertById(x, s)) == multiset(s) + multiset{x}
  {
    if s != [] && CompareString(x.id, s[0].id).Greater? {
      InsertByIdPermutes(x, s[1..]);
      assert s == [s[0]] + s[1..];
    }
  }

  lemma {:induction false} SortByIdPermutes(s: seq<DependencyRef>)
    ensures multiset(SortById(s)) == multiset(s)
  {
    if s != [] {
      SortByIdPermutes(s[1..]);
      InsertByIdPermutes(s[0], SortById(s[1..]));
      assert s == [s[0]] + s[1..];
    }
  }

  lemma {:induction false} SortByIdMembers(s: seq<DependencyRef>)
    ensures forall ref :: ref in SortById(s) <==> ref in s
  {
    SortByIdPermutes(s);
    forall ref ensures ref in SortById(s) <==> ref in s {
      assert ref in SortById(s) <==> ref in multiset(SortById(s));
      assert ref in s <==> ref in multiset(s);
    }
  }

  // ------------------------------------------------------------- the graph

  type Fetch = string -> Option<Template>

  /** The root template and the registry it is resolved against. */
  datatype Graph = Graph(root: Template, fetch: Fetch) {
    function At(id: string): Option<Template> {
      if id == root.id then Some(root) else fetch(id)
    }
  }

  predicate DependsOn(t: Template, id: string) {
    exists ref :: ref in t.templates && ref.id == id
  }

  ghost predicate Edge(g: Graph, u: string, v: string) {
    g.At(u).Some? && DependsOn(g.At(u).value, v)
  }

  ghost predicate IsPath(g: Graph, p: seq<string>) {
    p != [] && forall i :: 0 <= i < |p| - 1 ==> Edge(g, p[i], p[i + 1])
  }

  ghost predicate PathFromTo(g: Graph, p: seq<string>, u: string, v: string) {
    IsPath(g, p) && p[0] == u && p[|p| - 1] == v
  }

  ghost predicate Reaches(g: Graph, u: string, v: string) {
    exists p :: PathFromTo(g, p, u, v)
  }

  lemma ReachesSelf(g: Graph, u: string)
    ensures Reaches(g, u, u)
  {
    assert PathFromTo(g, [u], u, u);
  }

  lemma ReachesStep(g: Graph, u: string, v: string, w: string)
    requires Reaches(g, u, v) && Edge(g, v, w)
    ensures Reaches(g, u, w)
  {
    var p :| PathFromTo(g, p, u, v);
    assert PathFromTo(g, p + [w], u, w);
  }

  /** The registry answers with the template it was asked for. */
  ghost predicate Consistent(g: Graph) {
    forall id :: g.fetch(id).Some? ==> g.fetch(id).value.id == id
  }

  /** `universe` holds the targets of all its members: the graph is finite. */
  ghost predicate ClosedUnder(g: Graph, universe: set<string>) {
    && (forall ref :: ref in g.root.templates ==> ref.id in universe)
    && (forall id, ref :: id in universe && g.fetch(id).Some? && ref in g.fetch(id).value.templates ==>
        ref.id in universe)
  }

  // ------------------------------------------------------- the traversal

  /** A dependency reference that was examined; `kept` unless it was skipped because its
      target is still being processed. */
  datatype Examined = Examined(source: string, ref: DependencyRef, kept: bool)

  datatype Traversal = Traversal(visited: set<string>, flattened: seq<ResolvedDependency>,
                                 fetched: seq<string>, examined: seq<Examined>)

  datatype Outcome = Done(t: Traversal) | FetchFailed(id: string)

  function IndexOf(flattened: seq<ResolvedDependency>, id: string): (r: Option<nat>)
    ensures r.Some? ==> r.value < |flattened| && flattened[r.value].template.id == id
    ensures r.None? ==> forall i :: 0 <= i < |flattened| ==> flattened[i].template.id != id
  {
    if flattened == [] then None
    else if flattened[0].template.id == id then Some(0)
    else match IndexOf(flattened[1..], id)
      case None => None
      case Some(i) => Some(i + 1)
  }

  /** Entries already present win over the ones offered. */
  function FillGaps(present: Answers, offered: Answers): Answers { offered + present }

  function Merge(t: Traversal, i: nat, source: string, ref: DependencyRef): Traversal
    requires i < |t.flattened|
  {
    var existing := t.flattened[i];
    t.(flattened := t.flattened[i := existing.(presetAnswers := FillGaps(existing.presetAnswers, PresetsOf(ref)))],
       examined := t.examined + [Examined(source, ref, true)])
  }

  function Skip(t: Traversal, source: string, ref: DependencyRef): Traversal {
    t.(examined := t.examined + [Examined(source, ref, false)])
  }

  function Enter(t: Traversal, source: string, ref: DependencyRef): Traversal {
    t.(visited := t.visited + {ref.id}, fetched := t.fetched + [ref.id],
       examined := t.examined + [Examined(source, ref, true)])
  }

  function Leave(t: Traversal, template: Template, ref: DependencyRef): Traversal {
    t.(flattened := t.flattened + [ResolvedDependency(template, PresetsOf(ref))])
  }

  /** The recursion over the (sorted) dependencies of the template `source`. */
  ghost function FlattenDeps(g: Graph, source: string, deps: seq<DependencyRef>, t: Traversal,
                             universe: set<string>): (o: Outcome)
    requires ClosedUnder(g, universe) && forall ref :: ref in deps ==> ref.id in universe
    ensures o.Done? ==> t.visited <= o.t.visited
    decreases universe - t.visited, |deps|
  {
    if deps == [] then Done(t)
    else
      var ref := deps[0];
      var existing := IndexOf(t.flattened, ref.id);
      if existing.Some? then
        FlattenDeps(g, source, deps[1..], Merge(t, existing.value, source, ref), universe)
      else if ref.id in t.visited then
        FlattenDeps(g, source, deps[1..], Skip(t, source, ref), universe)
      else if g.fetch(ref.id).None? then FetchFailed(ref.id)
      else
        var template := g.fetch(ref.id).value;
        SortByIdMembers(template.templates);
        var inner := FlattenDeps(g, template.id, SortById(template.templates), Enter(t, source, ref), universe);
        if inner.FetchFailed? then inner
        else FlattenDeps(g, source, deps[1..], Leave(inner.t, template, ref), universe)
  }

  function Start(g: Graph): Traversal { Traversal({g.root.id}, [], [], []) }

  ghost function Flatten(g: Graph, universe: set<string>): Outcome
    requires ClosedUnder(g, universe)
  {
    SortByIdMembers(g.root.templates);
    FlattenDeps(g, g.root.id, SortById(g.root.templates), Start(g), universe)
  }

  // ---------------------------------------------------------- invariants

  function Templates(t: Traversal): seq<Template> {
    seq(|t.flattened|, i requires 0 <= i < |t.flattened| => t.flattened[i].template)
  }

  function FinishedIds(t: Traversal): set<string> {
    set i | 0 <= i < |t.flattened| :: t.flattened[i].template.id
  }

  /** Visited but not yet in the output: the root and the templates being processed. */
  function Open(t: Traversal): set<string> { t.visited - FinishedIds(t) }

  ghost predicate Shape(g: Graph, t: Traversal) {
    && g.root.id in Open(t)
    && FinishedIds(t) <= t.visited
    && (forall i, j :: 0 <= i < j < |t.flattened| ==> t.flattened[i].template.id != t.flattened[j].template.id)
    && (forall i :: 0 <= i < |t.flattened| ==> g.fetch(t.flattened[i].template.id) == Some(t.flattened[i].template))
  }

  ghost predicate FetchLog(g: Graph, t: Traversal) {
    && (forall i, j :: 0 <= i < j < |t.fetched| ==> t.fetched[i] != t.fetched[j])
    && (set id | id in t.fetched) == t.visited - {g.root.id}
    && (forall id :: id in t.fetched ==> g.fetch(id).Some?)
  }

  ghost predicate Grounded(g: Graph, t: Traversal) {
    forall v :: v in t.visited ==> Reaches(g, g.root.id, v)
  }

  ghost predicate Precedes(t: Traversal, v: string, i: nat)
    requires i <= |t.flattened|
  {
    exists j :: 0 <= j < i && t.flattened[j].template.id == v
  }

  /** What a finished template depends on is visited, and is listed before it unless it leads
      back to it. */
  ghost predicate Ordered(g: Graph, t: Traversal) {
    forall i, v :: 0 <= i < |t.flattened| && Edge(g, t.flattened[i].template.id, v) ==>
      v in t.visited && (Precedes(t, v, i) || Reaches(g, v, t.flattened[i].template.id))
  }

  ghost predicate Inv(g: Graph, t: Traversal) {
    Shape(g, t) && FetchLog(g, t) && Grounded(g, t) && Ordered(g, t)
  }

  /** `source` is being processed, everything open leads to it, and `deps` are its own. */
  ghost predicate Context(g: Graph, t: Traversal, source: string, deps: seq<DependencyRef>) {
    && source in Open(t)
    && (forall v :: v in Open(t) ==> Reaches(g, v, source))
    && (forall ref :: ref in deps ==> Edge(g, source, ref.id))
  }

  ghost predicate Grown(t: Traversal, t': Traversal, deps: seq<DependencyRef>) {
    && t.visited <= t'.visited
    && Open(t') == Open(t)
    && (forall ref :: ref in deps ==> ref.id in t'.visited)
  }

  lemma MergeKeeps(g: Graph, t: Traversal, i: nat, source: string, ref: DependencyRef)
    requires Inv(g, t) && i < |t.flattened|
    ensures Inv(g, Merge(t, i, source, ref)) && Open(Merge(t, i, source, ref)) == Open(t)
  {
    SameTemplates(g, t, Merge(t, i, source, ref));
  }

  lemma SameTemplates(g: Graph, t: Traversal, t': Traversal)
    requires Inv(g, t)
    requires |t'.flattened| == |t.flattened| && t'.visited == t.visited && t'.fetched == t.fetched
    requires forall i :: 0 <= i < |t.flattened| ==> t'.flattened[i].template == t.flattened[i].template
    ensures Inv(g, t') && Open(t') == Open(t)
  {
    assert FinishedIds(t') == FinishedIds(t);
    forall i, v | 0 <= i < |t'.flattened| && Edge(g, t'.flattened[i].template.id, v)
      ensures v in t'.visited && (Precedes(t', v, i) || Reaches(g, v, t'.flattened[i].template.id))
    {
      assert Edge(g, t.flattened[i].template.id, v);
      if Precedes(t, v, i) {
        var j :| 0 <= j < i && t.flattened[j].template.id == v;
        assert t'.flattened[j].template.id == v;
      }
    }
  }

  lemma EnterFetchLog(g: Graph, t: Traversal, source: string, ref: DependencyRef)
    requires FetchLog(g, t) && ref.id !in t.visited && g.root.id in t.visited && g.fetch(ref.id).Some?
    ensures FetchLog(g, Enter(t, source, ref))
  {
    var t' := Enter(t, source, ref);
    var before := set id | id in t.fetched;
    assert before == t.visited - {g.root.id};
    assert ref.id !in before;
    assert forall i :: 0 <= i < |t.fetched| ==> t.fetched[i] in before;
    assert (set id | id in t'.fetched) == before + {ref.id};
  }

  lemma EnterKeeps(g: Graph, t: Traversal, source: string, ref: DependencyRef)
    requires Inv(g, t) && Context(g, t, source, [ref]) && Consistent(g)
    requires ref.id !in t.visited && g.fetch(ref.id).Some?
    ensures var t' := Enter(t, source, ref);
            && Inv(g, t')
            && Open(t') == Open(t) + {ref.id}
            && Context(g, t', ref.id, g.fetch(ref.id).value.templates)
  {
    var t' := Enter(t, source, ref);
    assert FinishedIds(t') == FinishedIds(t);
    assert ref in [ref];
    assert Edge(g, source, ref.id);
    ReachesStep(g, g.root.id, source, ref.id);
    ReachesSelf(g, ref.id);
    assert Shape(g, t');
    EnterFetchLog(g, t, source, ref);
    forall v | v in Open(t') ensures Reaches(g, v, ref.id) {
      if v != ref.id { ReachesStep(g, v, source, ref.id); }
    }
    assert Ordered(g, t') by {
      forall i, v | 0 <= i < |t'.flattened| && Edge(g, t'.flattened[i].template.id, v)
        ensures v in t'.visited && (Precedes(t', v, i) || Reaches(g, v, t'.flattened[i].template.id))
      {
        assert Edge(g, t.flattened[i].template.id, v);
        assert Precedes(t, v, i) ==> Precedes(t', v, i);
      }
    }
  }

  lemma LeaveShape(g: Graph, t: Traversal, template: Template, ref: DependencyRef)
    requires Shape(g, t) && template.id == ref.id && g.fetch(ref.id) == Some(template)
    requires ref.id in Open(t) && ref.id != g.root.id
    ensures var t' := Leave(t, template, ref);
            Shape(g, t') && Open(t') == Open(t) - {ref.id}
  {
    var t' := Leave(t, template, ref);
    var n := |t.flattened|;
    assert FinishedIds(t') == FinishedIds(t) + {ref.id} by {
      assert t'.flattened[n].template.id == ref.id;
      forall id | id in FinishedIds(t) ensures id in FinishedIds(t') {
        var i :| 0 <= i < n && t.flattened[i].template.id == id;
        assert t'.flattened[i].template.id == id;
      }
    }
    assert forall i :: 0 <= i < n ==> t.flattened[i].template.id in FinishedIds(t);
  }

  lemma LeaveOrdered(g: Graph, t: Traversal, template: Template, ref: DependencyRef)
    requires Ordered(g, t) && template.id == ref.id && g.fetch(ref.id) == Some(template) && ref.id != g.root.id
    requires forall v :: v in Open(t) ==> Reaches(g, v, ref.id)
    requires forall r :: r in template.templates ==> r.id in t.visited
    ensures Ordered(g, Leave(t, template, ref))
  {
    var t' := Leave(t, template, ref);
    var n := |t.flattened|;
    forall i, v | 0 <= i < |t'.flattened| && Edge(g, t'.flattened[i].template.id, v)
      ensures v in t'.visited && (Precedes(t', v, i) || Reaches(g, v, t'.flattened[i].template.id))
    {
      if i < n {
        assert Edge(g, t.flattened[i].template.id, v);
        PrecedesInPrefix(t, t', v, i);
      } else {
        assert DependsOn(template, v);
        if v in FinishedIds(t) {
          var j :| 0 <= j < n && t.flattened[j].template.id == v;
          assert t'.flattened[j].template.id == v;
        }
      }
    }
  }

  lemma PrecedesInPrefix(t: Traversal, t': Traversal, v: string, i: nat)
    requires i <= |t.flattened| && t.flattened <= t'.flattened
    ensures Precedes(t, v, i) ==> Precedes(t', v, i)
  {
    if Precedes(t, v, i) {
      var j :| 0 <= j < i && t.flattened[j].template.id == v;
      assert t'.flattened[j].template.id == v;
    }
  }

  lemma LeaveKeeps(g: Graph, t: Traversal, template: Template, ref: DependencyRef)
    requires Inv(g, t) && Consistent(g) && g.fetch(ref.id) == Some(template)
    requires ref.id in Open(t) && ref.id != g.root.id
    requires forall v :: v in Open(t) ==> Reaches(g, v, ref.id)
    requires forall r :: r in template.templates ==> r.id in t.visited
    ensures var t' := Leave(t, template, ref);
            Inv(g, t') && Open(t') == Open(t) - {ref.id}
  {
    LeaveShape(g, t, template, ref);
    LeaveOrdered(g, t, template, ref);
  }

  /** What one call keeps and achieves; a failure names a reachable template that cannot be
      fetched. */
  lemma {:induction false} FlattenDepsKeeps(g: Graph, source: string, deps: seq<DependencyRef>, t: Traversal,
                                            universe: set<string>)
    requires ClosedUnder(g, universe) && forall ref :: ref in deps ==> ref.id in universe
    requires Inv(g, t) && Context(g, t, source, deps) && Consistent(g)
    ensures var o := FlattenDeps(g, source, deps, t, universe);
            && (o.Done? ==> Inv(g, o.t) && Grown(t, o.t, deps))
            && (o.FetchFailed? ==> o.id != g.root.id && g.fetch(o.id).None? && Reaches(g, g.root.id, o.id))
    decreases universe - t.visited, |deps|
  {
    if deps != [] {
      var ref, rest := deps[0], deps[1..];
      assert deps == [ref] + rest;
      var existing := IndexOf(t.flattened, ref.id);
      assert existing.Some? ==> ref.id in FinishedIds(t);
      if existing.Some? {
        MergeKeeps(g, t, existing.value, source, ref);
        FlattenDepsKeeps(g, source, rest, Merge(t, existing.value, source, ref), universe);
      } else if ref.id in t.visited {
        SameTemplates(g, t, Skip(t, source, ref));
        FlattenDepsKeeps(g, source, rest, Skip(t, source, ref), universe);
      } else {
        assert Edge(g, source, ref.id);
        ReachesStep(g, g.root.id, source, ref.id);
        if g.fetch(ref.id).Some? {
          FlattenFresh(g, source, deps, t, universe);
        }
      }
    }
  }

  lemma {:induction false} FlattenFresh(g: Graph, source: string, deps: seq<DependencyRef>, t: Traversal,
                                        universe: set<string>)
    requires ClosedUnder(g, universe) && deps != [] && forall ref :: ref in deps ==> ref.id in universe
    requires Inv(g, t) && Context(g, t, source, deps) && Consistent(g)
    requires IndexOf(t.flattened, deps[0].id).None? && deps[0].id !in t.visited && g.fetch(deps[0].id).Some?
    ensures var o := FlattenDeps(g, source, deps, t, universe);
            && (o.Done? ==> Inv(g, o.t) && Grown(t, o.t, deps))
            && (o.FetchFailed? ==> o.id != g.root.id && g.fetch(o.id).None? && Reaches(g, g.root.id, o.id))
    decreases universe - t.visited, |deps|, 0
  {
    var ref, rest := deps[0], deps[1..];
    assert deps == [ref] + rest;
    var template := g.fetch(ref.id).value;
    var entered := Enter(t, source, ref);
    SortByIdMembers(template.templates);
    EnterKeeps(g, t, source, ref);
    FlattenDepsKeeps(g, template.id, SortById(template.templates), entered, universe);
    var inner := FlattenDeps(g, template.id, SortById(template.templates), entered, universe);
    if inner.Done? {
      LeaveKeeps(g, inner.t, template, ref);
      var left := Leave(inner.t, template, ref);
      assert Open(left) == Open(t);
      FlattenDepsKeeps(g, source, rest, left, universe);
    }
  }

  // ------------------------------------------------------- main results

  lemma {:induction false} ClosedSetHoldsReachable(g: Graph, s: set<string>, p: seq<string>)
    requires IsPath(g, p) && p[0] in s
    requires forall u, v :: u in s && Edge(g, u, v) ==> v in s
    ensures p[|p| - 1] in s
    decreases |p|
  {
    if |p| > 1 {
      assert Edge(g, p[0], p[1]);
      forall i | 0 <= i < |p[1..]| - 1 ensures Edge(g, p[1..][i], p[1..][i + 1]) {
        assert Edge(g, p[i + 1], p[i + 2]);
      }
      ClosedSetHoldsReachable(g, s, p[1..]);
    }
  }

  lemma StartIsGood(g: Graph)
    ensures Inv(g, Start(g)) && Context(g, Start(g), g.root.id, SortById(g.root.templates))
  {
    SortByIdMembers(g.root.templates);
    ReachesSelf(g, g.root.id);
  }

  lemma FinishedAt(t: Traversal, u: string) returns (i: nat)
    requires u in t.visited && u !in Open(t)
    ensures i < |t.flattened| && t.flattened[i].template.id == u
  {
    assert u in FinishedIds(t);
    i :| 0 <= i < |t.flattened| && t.flattened[i].template.id == u;
  }

  lemma FlattenKeeps(g: Graph, universe: set<string>)
    requires ClosedUnder(g, universe) && Consistent(g) && Flatten(g, universe).Done?
    ensures var t := Flatten(g, universe).t;
            && Inv(g, t) && Open(t) == {g.root.id}
            && forall ref :: ref in SortById(g.root.templates) ==> ref.id in t.visited
  {
    hide Inv;
    SortByIdMembers(g.root.templates);
    StartIsGood(g);
    FlattenDepsKeeps(g, g.root.id, SortById(g.root.templates), Start(g), universe);
    assert FinishedIds(Start(g)) == {};
  }

  /** A traversal with only the root open has visited all that its visited templates lead to. */
  lemma VisitedIsClosed(g: Graph, t: Traversal, u: string, v: string)
    requires Inv(g, t) && Open(t) == {g.root.id} && u in t.visited && Edge(g, u, v)
    requires forall ref :: ref in SortById(g.root.templates) ==> ref.id in t.visited
    ensures v in t.visited
  {
    SortByIdMembers(g.root.templates);
    if u == g.root.id {
      assert DependsOn(g.root, v);
    } else {
      var i := FinishedAt(t, u);
      assert Edge(g, t.flattened[i].template.id, v);
    }
  }

  /** A finished traversal has visited exactly what the root reaches. */
  lemma FlattenVisitsReachable(g: Graph, universe: set<string>)
    requires ClosedUnder(g, universe) && Consistent(g) && Flatten(g, universe).Done?
    ensures var t := Flatten(g, universe).t;
            && Inv(g, t) && Open(t) == {g.root.id}
            && forall v :: v in t.visited <==> Reaches(g, g.root.id, v)
  {
    hide Flatten, SortById, Edge, FetchLog, Ordered;
    FlattenKeeps(g, universe);
    var t := Flatten(g, universe).t;
    forall u, v | u in t.visited && Edge(g, u, v) ensures v in t.visited {
      VisitedIsClosed(g, t, u, v);
    }
    forall v | Reaches(g, g.root.id, v) ensures v in t.visited {
      var p :| PathFromTo(g, p, g.root.id, v);
      ClosedSetHoldsReachable(g, t.visited, p);
    }
  }

  /** Flattening succeeds exactly when every reachable template other than the root can be
      fetched. */
  lemma FlattenSucceedsIff(g: Graph, universe: set<string>)
    requires ClosedUnder(g, universe) && Consistent(g)
    ensures Flatten(g, universe).Done? <==>
            forall v :: Reaches(g, g.root.id, v) && v != g.root.id ==> g.fetch(v).Some?
  {
    var o := Flatten(g, universe);
    SortByIdMembers(g.root.templates);
    StartIsGood(g);
    FlattenDepsKeeps(g, g.root.id, SortById(g.root.templates), Start(g), universe);
    if o.Done? {
      FlattenVisitsReachable(g, universe);
      forall v | Reaches(g, g.root.id, v) && v != g.root.id ensures g.fetch(v).Some? {
        assert v in o.t.visited - {g.root.id};
        assert v in (set id | id in o.t.fetched);
      }
    }
  }

  /** The list handed to composition: the flattened dependencies, then the root. */
  function WithRoot(g: Graph, t: Traversal): seq<ResolvedDependency> {
    t.flattened + [ResolvedDependency(g.root, map[])]
  }

  ghost predicate ListedBefore(list: seq<ResolvedDependency>, u: string, v: string) {
    exists i, j :: 0 <= i < j < |list| && list[i].template.id == u && list[j].template.id == v
  }

  /** On any finite graph, cycles included: the output is exactly the reachable templates,
      each once, root last; each reachable template but the root is fetched once. */
  lemma FlattenOutput(g: Graph, universe: set<string>)
    requires ClosedUnder(g, universe) && Consistent(g) && Flatten(g, universe).Done?
    ensures var t := Flatten(g, universe).t;
            var list := WithRoot(g, t);
            && (forall i, j :: 0 <= i < j < |list| ==> list[i].template.id != list[j].template.id)
            && (forall v :: Reaches(g, g.root.id, v) <==> exists i :: 0 <= i < |list| && list[i].template.id == v)
            && (forall i :: 0 <= i < |list| ==> g.At(list[i].template.id) == Some(list[i].template))
            && (forall i, j :: 0 <= i < j < |t.fetched| ==> t.fetched[i] != t.fetched[j])
            && (forall v :: v in t.fetched <==> Reaches(g, g.root.id, v) && v != g.root.id)
  {
    FlattenVisitsReachable(g, universe);
    var t := Flatten(g, universe).t;
    var list := WithRoot(g, t);
    var n := |t.flattened|;
    assert list[n].template.id == g.root.id;
    forall i | 0 <= i < n ensures list[i].template.id in t.visited && list[i].template.id != g.root.id {
      assert t.flattened[i].template.id in FinishedIds(t);
    }
    forall v | Reaches(g, g.root.id, v) ensures exists i :: 0 <= i < |list| && list[i].template.id == v {
      if v != g.root.id {
        var i := FinishedAt(t, v);
        assert list[i].template.id == v;
      }
    }
    forall v ensures v in t.fetched <==> Reaches(g, g.root.id, v) && v != g.root.id {
      assert v in (set id | id in t.fetched) <==> v in t.visited - {g.root.id};
    }
  }

  /** Dependencies come first: whenever `u` depends on `v` and `v` does not lead back to
      `u`, `v` is listed before `u`. */
  lemma FlattenOrder(g: Graph, universe: set<string>, u: string, v: string)
    requires ClosedUnder(g, universe) && Consistent(g) && Flatten(g, universe).Done?
    requires Reaches(g, g.root.id, u) && Edge(g, u, v) && !Reaches(g, v, u)
    ensures ListedBefore(WithRoot(g, Flatten(g, universe).t), v, u)
  {
    FlattenVisitsReachable(g, universe);
    var t := Flatten(g, universe).t;
    var list := WithRoot(g, t);
    var n := |t.flattened|;
    assert list[n].template.id == g.root.id;
    ReachesStep(g, g.root.id, u, v);
    ReachesSelf(g, u);
    if u == g.root.id {
      var j := FinishedAt(t, v);
      assert list[j].template.id == v;
    } else {
      var i := FinishedAt(t, u);
      assert Precedes(t, v, i);
      var j :| 0 <= j < i && t.flattened[j].template.id == v;
      assert list[j].template.id == v && list[i].template.id == u;
    }
  }
}
