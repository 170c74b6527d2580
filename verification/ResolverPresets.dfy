/** Which preset answers a dependency ends up with, and that every edge of the graph is
    examined exactly once. */
module ResolverPresets {
  import opened Wrappers
  import opened Models
  import opened Resolver

  // ------------------------------------------------------ examining edges

  /** The references to `v` that were not skipped, in traversal order. */
  function KeptTo(examined: seq<Examined>, v: string): seq<DependencyRef> {
    if examined == [] then []
    else
      var e, before := examined[|examined| - 1], KeptTo(examined[..|examined| - 1], v);
      if e.kept && e.ref.id == v then before + [e.ref] else before
  }

  lemma {:induction false} KeptToSnoc(examined: seq<Examined>, e: Examined, v: string)
    ensures KeptTo(examined + [e], v) ==
            if e.kept && e.ref.id == v then KeptTo(examined, v) + [e.ref] else KeptTo(examined, v)
  {
    assert (examined + [e])[..|examined|] == examined;
  }

  type EdgeRef = (string, DependencyRef)

  function EdgesOf(source: string, deps: seq<DependencyRef>): multiset<EdgeRef> {
    if deps == [] then multiset{} else multiset{(source, deps[0])} + EdgesOf(source, deps[1..])
  }

  /** All edges leaving the given templates. */
  function EdgesOfAll(templates: seq<Template>): multiset<EdgeRef> {
    if templates == [] then multiset{}
    else
      var last := templates[|templates| - 1];
      EdgesOfAll(templates[..|templates| - 1]) + EdgesOf(last.id, last.templates)
  }

  function PairList(examined: seq<Examined>): seq<EdgeRef> {
    seq(|examined|, i requires 0 <= i < |examined| => (examined[i].source, examined[i].ref))
  }

  function Pairs(examined: seq<Examined>): multiset<EdgeRef> { multiset(PairList(examined)) }

  lemma PairsSnoc(examined: seq<Examined>, e: Examined)
    ensures Pairs(examined + [e]) == Pairs(examined) + multiset{(e.source, e.ref)}
  {
    assert PairList(examined + [e]) == PairList(examined) + [(e.source, e.ref)];
  }

  lemma {:induction false} EdgesOfMultiplicity(source: string, deps: seq<DependencyRef>, e: EdgeRef)
    ensures EdgesOf(source, deps)[e] == if e.0 == source then multiset(deps)[e.1] else 0
  {
    if deps != [] {
      EdgesOfMultiplicity(source, deps[1..], e);
      assert deps == [deps[0]] + deps[1..];
    }
  }

  lemma {:induction false} EdgesOfPermuted(source: string, a: seq<DependencyRef>, b: seq<DependencyRef>)
    requires multiset(a) == multiset(b)
    ensures EdgesOf(source, a) == EdgesOf(source, b)
  {
    forall e: EdgeRef ensures EdgesOf(source, a)[e] == EdgesOf(source, b)[e] {
      EdgesOfMultiplicity(source, a, e);
      EdgesOfMultiplicity(source, b, e);
    }
  }

  lemma {:induction false} EdgesOfAllSnoc(templates: seq<Template>, last: Template)
    ensures EdgesOfAll(templates + [last]) == EdgesOfAll(templates) + EdgesOf(last.id, last.templates)
  {
    assert (templates + [last])[..|templates|] == templates;
  }

  /** `deps` of `source` were examined on the way from `t` to `t'`, and so were all edges of
      the templates finished in between, each exactly once. */
  ghost predicate Accounted(t: Traversal, t': Traversal, source: string, deps: seq<DependencyRef>) {
    Pairs(t'.examined) + EdgesOfAll(Templates(t))
    == Pairs(t.examined) + EdgesOf(source, deps) + EdgesOfAll(Templates(t'))
  }

  lemma AccountedChain(t: Traversal, next: Traversal, t': Traversal, source: string, deps: seq<DependencyRef>)
    requires deps != [] && Accounted(next, t', source, deps[1..])
    requires Pairs(next.examined) + EdgesOfAll(Templates(t)) == Pairs(t.examined) + multiset{(source, deps[0])}
             + EdgesOfAll(Templates(next))
    ensures Accounted(t, t', source, deps)
  {
    var edge := multiset{(source, deps[0])};
    assert EdgesOf(source, deps) == edge + EdgesOf(source, deps[1..]);
    AddUp(Pairs(t.examined), Pairs(next.examined), Pairs(t'.examined), EdgesOfAll(Templates(t)),
          EdgesOfAll(Templates(next)), EdgesOfAll(Templates(t')), edge, EdgesOf(source, deps[1..]));
  }

  lemma AddUp<T>(p: multiset<T>, p1: multiset<T>, p2: multiset<T>, e: multiset<T>, e1: multiset<T>, e2: multiset<T>,
                 x: multiset<T>, y: multiset<T>)
    requires p1 + e == p + x + e1
    requires p2 + e1 == p1 + y + e2
    ensures p2 + e == p + (x + y) + e2
  {
    forall k ensures (p2 + e)[k] == (p + (x + y) + e2)[k] {
      assert (p1 + e)[k] == (p + x + e1)[k] && (p2 + e1)[k] == (p1 + y + e2)[k];
    }
  }

  lemma LeaveAccounts(t: Traversal, inner: Traversal, source: string, template: Template, ref: DependencyRef)
    requires Accounted(Enter(t, source, ref), inner, template.id, SortById(template.templates))
    ensures var next := Leave(inner, template, ref);
            Pairs(next.examined) + EdgesOfAll(Templates(t)) == Pairs(t.examined) + multiset{(source, ref)}
              + EdgesOfAll(Templates(next))
  {
    hide EdgesOf, EdgesOfAll, Pairs, SortById;
    var entered, next := Enter(t, source, ref), Leave(inner, template, ref);
    PairsSnoc(t.examined, Examined(source, ref, true));
    assert Templates(entered) == Templates(t);
    SortByIdPermutes(template.templates);
    EdgesOfPermuted(template.id, SortById(template.templates), template.templates);
    assert Templates(next) == Templates(inner) + [template];
    EdgesOfAllSnoc(Templates(inner), template);
    Regroup(Pairs(inner.examined), EdgesOfAll(Templates(t)), Pairs(t.examined), multiset{(source, ref)},
            EdgesOf(template.id, template.templates), EdgesOfAll(Templates(inner)));
  }

  lemma Regroup<T>(p': multiset<T>, e: multiset<T>, p: multiset<T>, x: multiset<T>, y: multiset<T>, e': multiset<T>)
    requires p' + e == p + x + y + e'
    ensures p' + e == p + x + (e' + y)
  {
    forall k ensures (p' + e)[k] == (p + x + (e' + y))[k] {
      assert (p' + e)[k] == (p + x + y + e')[k];
    }
  }

  /** One call examines the given edges and all edges of the templates it finishes, each
      exactly once. */
  lemma {:induction false} ExaminesOnce(g: Graph, source: string, deps: seq<DependencyRef>, t: Traversal,
                                        universe: set<string>)
    requires ClosedUnder(g, universe) && forall ref :: ref in deps ==> ref.id in universe
    requires FlattenDeps(g, source, deps, t, universe).Done?
    ensures Accounted(t, FlattenDeps(g, source, deps, t, universe).t, source, deps)
    decreases universe - t.visited, |deps|
  {
    if deps != [] {
      var ref, rest := deps[0], deps[1..];
      var t' := FlattenDeps(g, source, deps, t, universe).t;
      var existing := IndexOf(t.flattened, ref.id);
      var next;
      if existing.Some? {
        next := Merge(t, existing.value, source, ref);
        PairsSnoc(t.examined, Examined(source, ref, true));
        assert Templates(next) == Templates(t);
      } else if ref.id in t.visited {
        next := Skip(t, source, ref);
        PairsSnoc(t.examined, Examined(source, ref, false));
        assert Templates(next) == Templates(t);
      } else {
        var template := g.fetch(ref.id).value;
        SortByIdMembers(template.templates);
        var inner := FlattenDeps(g, template.id, SortById(template.templates), Enter(t, source, ref), universe).t;
        ExaminesOnce(g, template.id, SortById(template.templates), Enter(t, source, ref), universe);
        LeaveAccounts(t, inner, source, template, ref);
        next := Leave(inner, template, ref);
      }
      ExaminesOnce(g, source, rest, next, universe);
      AccountedChain(t, next, t', source, deps);
    }
  }

  // -------------------------------------------------------- preset answers

  function Merged(refs: seq<DependencyRef>): Answers {
    if refs == [] then map[]
    else FillGaps(Merged(refs[..|refs| - 1]), PresetsOf(refs[|refs| - 1]))
  }

  /** The reference sets the key to the JSON of this answer. */
  ghost predicate Sets(ref: DependencyRef, key: string, a: Answer) {
    key in ref.presetAnswers && ref.presetAnswers[key] == AsJson(a)
  }

  /** Reference `i` is the first to set the key to the JSON of any answer, and sets it to `a`. */
  ghost predicate FirstSets(refs: seq<DependencyRef>, key: string, i: nat, a: Answer) {
    i < |refs| && Sets(refs[i], key, a) && forall j, b :: 0 <= j < i ==> !Sets(refs[j], key, b)
  }

  lemma PresetsExact(ref: DependencyRef, key: string, a: Answer)
    ensures key in PresetsOf(ref) && PresetsOf(ref)[key] == a <==> Sets(ref, key, a)
  {
    if key in ref.presetAnswers { ToAnswerExact(ref.presetAnswers[key], a); }
  }

  /** The merged presets hold an answer under a key exactly when the first reference that sets
      the key to the JSON of an answer sets it to that answer's. */
  lemma {:induction false} MergedMeaning(refs: seq<DependencyRef>, key: string, a: Answer)
    ensures key in Merged(refs) && Merged(refs)[key] == a <==> exists i: nat :: FirstSets(refs, key, i, a)
  {
    hide Sets;
    if refs != [] {
      var n := |refs| - 1;
      var prefix, last := refs[..n], refs[n];
      MergedMeaning(prefix, key, a);
      PresetsExact(last, key, a);
      if i: nat :| FirstSets(refs, key, i, a) {
        if i < n {
          assert FirstSets(prefix, key, i, a);
        } else if key in Merged(prefix) {
          EarlierSets(prefix, key);
        }
      }
      if key in Merged(refs) && Merged(refs)[key] == a {
        if key in Merged(prefix) {
          var i: nat :| FirstSets(prefix, key, i, a);
          assert FirstSets(refs, key, i, a);
        } else {
          forall j, b | 0 <= j < n ensures !Sets(refs[j], key, b) {
            if Sets(prefix[j], key, b) { SomeoneSets(prefix, key, j, b); }
          }
          assert FirstSets(refs, key, n, a);
        }
      }
    }
  }

  lemma {:induction false} EarlierSets(refs: seq<DependencyRef>, key: string)
    requires key in Merged(refs)
    ensures exists i: nat, b :: i < |refs| && Sets(refs[i], key, b)
  {
    MergedMeaning(refs, key, Merged(refs)[key]);
  }

  lemma {:induction false} SomeoneSets(refs: seq<DependencyRef>, key: string, j: nat, b: Answer)
    requires j < |refs| && Sets(refs[j], key, b)
    ensures key in Merged(refs)
  {
    var n := |refs| - 1;
    if j < n {
      SomeoneSets(refs[..n], key, j, b);
    } else {
      PresetsExact(refs[n], key, b);
    }
  }

  ghost predicate PresetInv(g: Graph, t: Traversal) {
    && (forall i :: 0 <= i < |t.flattened| ==>
          t.flattened[i].presetAnswers == Merged(KeptTo(t.examined, t.flattened[i].template.id)))
    && (forall v :: v !in t.visited ==> KeptTo(t.examined, v) == [])
    && (forall e :: e in t.examined && !e.kept ==> Reaches(g, e.ref.id, e.source))
  }

  ghost predicate OpenUntouched(t: Traversal, t': Traversal) {
    forall v :: v in Open(t) ==> KeptTo(t'.examined, v) == KeptTo(t.examined, v)
  }

  lemma MergePresets(g: Graph, t: Traversal, i: nat, source: string, ref: DependencyRef)
    requires Inv(g, t) && PresetInv(g, t) && i < |t.flattened| && t.flattened[i].template.id == ref.id
    ensures var t' := Merge(t, i, source, ref); PresetInv(g, t') && OpenUntouched(t, t')
  {
    var t' := Merge(t, i, source, ref);
    assert ref.id in FinishedIds(t);
    forall v ensures KeptTo(t'.examined, v) == if v == ref.id then KeptTo(t.examined, v) + [ref]
      else KeptTo(t.examined, v) {
      KeptToSnoc(t.examined, Examined(source, ref, true), v);
    }
    MergedSnoc(KeptTo(t.examined, ref.id), ref);
    forall k | 0 <= k < |t'.flattened|
      ensures t'.flattened[k].presetAnswers == Merged(KeptTo(t'.examined, t'.flattened[k].template.id))
    {
      assert k != i ==> t.flattened[k].template.id != ref.id;
      assert t.flattened[k].presetAnswers == Merged(KeptTo(t.examined, t.flattened[k].template.id));
    }
  }

  lemma {:induction false} MergedSnoc(refs: seq<DependencyRef>, ref: DependencyRef)
    ensures Merged(refs + [ref]) == FillGaps(Merged(refs), PresetsOf(ref))
  {
    assert (refs + [ref])[..|refs|] == refs;
  }

  lemma SkipPresets(g: Graph, t: Traversal, source: string, ref: DependencyRef)
    requires PresetInv(g, t) && Reaches(g, ref.id, source)
    ensures var t' := Skip(t, source, ref); PresetInv(g, t') && OpenUntouched(t, t')
  {
    forall v { KeptToSnoc(t.examined, Examined(source, ref, false), v); }
  }

  lemma EnterPresets(g: Graph, t: Traversal, source: string, ref: DependencyRef)
    requires Shape(g, t) && PresetInv(g, t) && ref.id !in t.visited
    ensures var t' := Enter(t, source, ref);
            PresetInv(g, t') && OpenUntouched(t, t') && KeptTo(t'.examined, ref.id) == [ref]
  {
    var t' := Enter(t, source, ref);
    forall v ensures KeptTo(t'.examined, v) == if v == ref.id then [ref] else KeptTo(t.examined, v) {
      KeptToSnoc(t.examined, Examined(source, ref, true), v);
    }
    forall i | 0 <= i < |t.flattened| ensures t.flattened[i].template.id != ref.id {
      assert t.flattened[i].template.id in FinishedIds(t);
    }
  }

  lemma LeavePresets(g: Graph, t: Traversal, template: Template, ref: DependencyRef)
    requires PresetInv(g, t) && KeptTo(t.examined, template.id) == [ref]
    ensures PresetInv(g, Leave(t, template, ref))
  {
    assert [ref][..0] == [];
    assert Merged([ref]) == PresetsOf(ref);
  }

  lemma {:induction false} FlattenDepsPresets(g: Graph, source: string, deps: seq<DependencyRef>, t: Traversal,
                                              universe: set<string>)
    requires ClosedUnder(g, universe) && forall ref :: ref in deps ==> ref.id in universe
    requires Inv(g, t) && Context(g, t, source, deps) && Consistent(g) && PresetInv(g, t)
    requires FlattenDeps(g, source, deps, t, universe).Done?
    ensures var t' := FlattenDeps(g, source, deps, t, universe).t;
            PresetInv(g, t') && OpenUntouched(t, t')
    decreases universe - t.visited, |deps|, 1
  {
    if deps != [] {
      var ref, rest := deps[0], deps[1..];
      assert deps == [ref] + rest;
      var existing := IndexOf(t.flattened, ref.id);
      assert existing.Some? ==> ref.id in FinishedIds(t);
      if existing.Some? {
        var next := Merge(t, existing.value, source, ref);
        MergeKeeps(g, t, existing.value, source, ref);
        MergePresets(g, t, existing.value, source, ref);
        FlattenDepsPresets(g, source, rest, next, universe);
      } else if ref.id in t.visited {
        var next := Skip(t, source, ref);
        SameTemplates(g, t, next);
        SkipPresets(g, t, source, ref);
        FlattenDepsPresets(g, source, rest, next, universe);
      } else {
        FreshPresets(g, source, deps, t, universe);
      }
    }
  }

  lemma {:induction false} FreshPresets(g: Graph, source: string, deps: seq<DependencyRef>, t: Traversal,
                                        universe: set<string>)
    requires ClosedUnder(g, universe) && deps != [] && forall ref :: ref in deps ==> ref.id in universe
    requires Inv(g, t) && Context(g, t, source, deps) && Consistent(g) && PresetInv(g, t)
    requires FlattenDeps(g, source, deps, t, universe).Done?
    requires IndexOf(t.flattened, deps[0].id).None? && deps[0].id !in t.visited
    ensures var t' := FlattenDeps(g, source, deps, t, universe).t;
            PresetInv(g, t') && OpenUntouched(t, t')
    decreases universe - t.visited, |deps|, 0
  {
    var ref, rest := deps[0], deps[1..];
    assert deps == [ref] + rest;
    SortByIdMembers(g.fetch(ref.id).value.templates);
    var left := NestedPresets(g, source, ref, t, universe);
    FlattenDepsPresets(g, source, rest, left, universe);
  }

  /** The nested call for a template not seen before, up to its addition to the output. */
  lemma {:induction false} NestedPresets(g: Graph, source: string, ref: DependencyRef, t: Traversal,
                                         universe: set<string>)
      returns (left: Traversal)
    requires ClosedUnder(g, universe) && ref.id in universe
    requires Inv(g, t) && Context(g, t, source, [ref]) && Consistent(g) && PresetInv(g, t)
    requires ref.id !in t.visited && g.fetch(ref.id).Some?
    requires var template := g.fetch(ref.id).value;
             && (forall r :: r in SortById(template.templates) ==> r.id in universe)
             && FlattenDeps(g, template.id, SortById(template.templates), Enter(t, source, ref), universe).Done?
    ensures var template := g.fetch(ref.id).value;
            left == Leave(FlattenDeps(g, template.id, SortById(template.templates), Enter(t, source, ref),
                                      universe).t, template, ref)
    ensures Inv(g, left) && PresetInv(g, left) && Open(left) == Open(t) && OpenUntouched(t, left)
    ensures t.visited < left.visited
    decreases universe - t.visited, 0
  {
    var template := g.fetch(ref.id).value;
    var sorted := SortById(template.templates);
    EnterKeeps(g, t, source, ref);
    EnterPresets(g, t, source, ref);
    SortByIdMembers(template.templates);
    var inner := InnerPresets(g, template, sorted, Enter(t, source, ref), universe);
    left := LeftPresets(g, t, source, ref, template, inner);
  }

  lemma {:induction false} InnerPresets(g: Graph, template: Template, sorted: seq<DependencyRef>, entered: Traversal,
                                        universe: set<string>)
      returns (inner: Traversal)
    requires ClosedUnder(g, universe) && Consistent(g) && forall r :: r in sorted ==> r.id in universe
    requires Inv(g, entered) && PresetInv(g, entered) && Context(g, entered, template.id, sorted)
    requires FlattenDeps(g, template.id, sorted, entered, universe).Done?
    ensures inner == FlattenDeps(g, template.id, sorted, entered, universe).t
    ensures Inv(g, inner) && PresetInv(g, inner) && Grown(entered, inner, sorted) && OpenUntouched(entered, inner)
    decreases universe - entered.visited, |sorted|, 2
  {
    inner := FlattenDeps(g, template.id, sorted, entered, universe).t;
    FlattenDepsKeeps(g, template.id, sorted, entered, universe);
    FlattenDepsPresets(g, template.id, sorted, entered, universe);
  }

  lemma LeftPresets(g: Graph, t: Traversal, source: string, ref: DependencyRef, template: Template, inner: Traversal)
      returns (left: Traversal)
    requires Consistent(g) && g.fetch(ref.id) == Some(template) && ref.id !in t.visited && g.root.id in t.visited
    requires Inv(g, inner) && PresetInv(g, inner)
    requires var entered := Enter(t, source, ref);
             && Open(entered) == Open(t) + {ref.id} && Grown(entered, inner, SortById(template.templates))
             && OpenUntouched(t, entered) && OpenUntouched(entered, inner)
             && KeptTo(entered.examined, ref.id) == [ref]
             && (forall v :: v in Open(entered) ==> Reaches(g, v, ref.id))
    ensures left == Leave(inner, template, ref)
    ensures Inv(g, left) && PresetInv(g, left) && Open(left) == Open(t) && OpenUntouched(t, left)
    ensures t.visited < left.visited
  {
    SortByIdMembers(template.templates);
    LeaveKeeps(g, inner, template, ref);
    LeavePresets(g, inner, template, ref);
    left := Leave(inner, template, ref);
    assert ref.id in left.visited;
  }

  /** On every graph: each dependency's presets are the first-wins merge of the references to
      it that were kept; a reference was skipped only if it closes a cycle; and the examined
      references are the edges of all reachable templates, each exactly once. */
  lemma FlattenPresets(g: Graph, universe: set<string>)
    requires ClosedUnder(g, universe) && Consistent(g) && Flatten(g, universe).Done?
    ensures var t := Flatten(g, universe).t;
            && (forall i :: 0 <= i < |t.flattened| ==>
                  t.flattened[i].presetAnswers == Merged(KeptTo(t.examined, t.flattened[i].template.id)))
            && (forall e :: e in t.examined && !e.kept ==> Reaches(g, e.ref.id, e.source))
            && Pairs(t.examined) == EdgesOf(g.root.id, g.root.templates) + EdgesOfAll(Templates(t))
  {
    SortByIdMembers(g.root.templates);
    StartIsGood(g);
    var sorted := SortById(g.root.templates);
    FlattenDepsPresets(g, g.root.id, sorted, Start(g), universe);
    FlattenAccounts(g, universe);
  }

  lemma FlattenAccounts(g: Graph, universe: set<string>)
    requires ClosedUnder(g, universe) && Flatten(g, universe).Done?
    ensures var t := Flatten(g, universe).t;
            Pairs(t.examined) == EdgesOf(g.root.id, g.root.templates) + EdgesOfAll(Templates(t))
  {
    SortByIdMembers(g.root.templates);
    var sorted := SortById(g.root.templates);
    ExaminesOnce(g, g.root.id, sorted, Start(g), universe);
    SortByIdPermutes(g.root.templates);
    EdgesOfPermuted(g.root.id, sorted, g.root.templates);
    assert Templates(Start(g)) == [] && PairList([]) == [];
    assert EdgesOfAll(Templates(Start(g))) == multiset{} && Pairs(Start(g).examined) == multiset{};
    var t := Flatten(g, universe).t;
    var all, own, others := Pairs(t.examined), EdgesOf(g.root.id, sorted), EdgesOfAll(Templates(t));
    assert all + multiset{} == multiset{} + own + others;
    forall e ensures all[e] == (own + others)[e] {
      assert (all + multiset{})[e] == (multiset{} + own + others)[e];
    }
  }

  ghost predicate Acyclic(g: Graph) {
    forall u, v :: Reaches(g, g.root.id, u) && Edge(g, u, v) ==> !Reaches(g, v, u)
  }

  function RefsTo(examined: seq<Examined>, v: string): seq<DependencyRef> {
    if examined == [] then []
    else
      var e, before := examined[|examined| - 1], RefsTo(examined[..|examined| - 1], v);
      if e.ref.id == v then before + [e.ref] else before
  }

  lemma {:induction false} AllKept(examined: seq<Examined>, v: string)
    requires forall e :: e in examined ==> e.kept
    ensures KeptTo(examined, v) == RefsTo(examined, v)
  {
    if examined != [] {
      AllKept(examined[..|examined| - 1], v);
    }
  }

  /** The source of an examined reference is reachable and really has that edge. */
  lemma ExaminedIsEdge(g: Graph, universe: set<string>, e: Examined)
    requires ClosedUnder(g, universe) && Consistent(g) && Flatten(g, universe).Done?
    requires e in Flatten(g, universe).t.examined
    ensures Reaches(g, g.root.id, e.source) && Edge(g, e.source, e.ref.id)
  {
    var t := Flatten(g, universe).t;
    FlattenPresets(g, universe);
    FlattenOutput(g, universe);
    var list := PairList(t.examined);
    var k :| 0 <= k < |t.examined| && t.examined[k] == e;
    assert list[k] == (e.source, e.ref);
    assert (e.source, e.ref) in Pairs(t.examined);
    if (e.source, e.ref) in EdgesOf(g.root.id, g.root.templates) {
      EdgesOfMultiplicity(g.root.id, g.root.templates, (e.source, e.ref));
      ReachesSelf(g, g.root.id);
    } else {
      var i := EdgeSource(Templates(t), (e.source, e.ref));
      var d := WithRoot(g, t)[i];
      assert d.template == Templates(t)[i];
    }
  }

  lemma {:induction false} EdgeSource(templates: seq<Template>, e: EdgeRef) returns (i: nat)
    requires e in EdgesOfAll(templates)
    ensures i < |templates| && templates[i].id == e.0 && e.1 in templates[i].templates
  {
    var n := |templates| - 1;
    if e in EdgesOf(templates[n].id, templates[n].templates) {
      EdgesOfMultiplicity(templates[n].id, templates[n].templates, e);
      i := n;
    } else {
      i := EdgeSource(templates[..n], e);
    }
  }

  /** On acyclic graphs nothing is skipped: each dependency's presets are the first-wins merge
      over all references to it from reachable templates, in traversal order. */
  lemma AcyclicPresets(g: Graph, universe: set<string>)
    requires ClosedUnder(g, universe) && Consistent(g) && Flatten(g, universe).Done? && Acyclic(g)
    ensures var t := Flatten(g, universe).t;
            && (forall e :: e in t.examined ==> e.kept)
            && (forall i :: 0 <= i < |t.flattened| ==>
                  t.flattened[i].presetAnswers == Merged(RefsTo(t.examined, t.flattened[i].template.id)))
  {
    var t := Flatten(g, universe).t;
    FlattenPresets(g, universe);
    forall e | e in t.examined ensures e.kept {
      ExaminedIsEdge(g, universe, e);
    }
    forall v { AllKept(t.examined, v); }
  }

  /** So the list handed to composition holds a preset for a dependency exactly when the first
      kept reference to it that sets the key to the JSON of an answer sets it to that answer's;
      the root, last, has none. */
  lemma ListedPresets(g: Graph, universe: set<string>, i: nat, key: string, a: Answer)
    requires ClosedUnder(g, universe) && Consistent(g) && Flatten(g, universe).Done?
    requires i < |WithRoot(g, Flatten(g, universe).t)|
    ensures var t := Flatten(g, universe).t;
            var d := WithRoot(g, t)[i];
            key in d.presetAnswers && d.presetAnswers[key] == a <==>
              i < |WithRoot(g, t)| - 1 && exists k: nat :: FirstSets(KeptTo(t.examined, d.template.id), key, k, a)
  {
    var t := Flatten(g, universe).t;
    FlattenPresets(g, universe);
    if i < |t.flattened| {
      MergedMeaning(KeptTo(t.examined, t.flattened[i].template.id), key, a);
    }
  }

  // ------------------------------------------------ the code in its own form

  /** The two accumulators that the recursion updates in place. */
  class Flattener {
    const graph: Graph
    var visited: set<string>
    var flattened: seq<ResolvedDependency>
    ghost var fetched: seq<string>
    ghost var examined: seq<Examined>

    constructor (graph: Graph)
      ensures this.graph == graph && Snapshot() == Start(graph)
    {
      this.graph := graph;
      visited, flattened, fetched, examined := {graph.root.id}, [], [], [];
    }

    ghost function Snapshot(): Traversal
      reads this
    {
      Traversal(visited, flattened, fetched, examined)
    }

    /** Returns the id that could not be fetched, if any. */
    method FlattenImpl(template: Template, ghost universe: set<string>) returns (failed: Option<string>)
      requires ClosedUnder(graph, universe)
      requires forall ref :: ref in template.templates ==> ref.id in universe
      requires forall ref :: ref in SortById(template.templates) ==> ref.id in universe
      modifies this
      ensures old(visited) <= visited
      ensures var o := FlattenDeps(graph, template.id, SortById(template.templates), old(Snapshot()), universe);
              if failed.Some? then o == FetchFailed(failed.value) else o == Done(Snapshot())
      decreases universe - visited
    {
      var sortedDeps := SortById(template.templates);
      ghost var start := Snapshot();
      assert sortedDeps[0..] == sortedDeps;
      for i := 0 to |sortedDeps|
        invariant start.visited <= visited
        invariant FlattenDeps(graph, template.id, sortedDeps, start, universe)
                  == FlattenDeps(graph, template.id, sortedDeps[i..], Snapshot(), universe)
      {
        var ref := sortedDeps[i];
        assert sortedDeps[i..][0] == ref && sortedDeps[i..][1..] == sortedDeps[i + 1..];
        var presets := PresetsOf(ref);
        var existing := IndexOf(flattened, ref.id);
        if existing.Some? {
          var k := existing.value;
          flattened := flattened[k := flattened[k].(presetAnswers := FillGaps(flattened[k].presetAnswers, presets))];
          examined := examined + [Examined(template.id, ref, true)];
          continue;
        }
        if ref.id in visited {
          examined := examined + [Examined(template.id, ref, false)];
          continue;
        }
        var fetchedTemplate := graph.fetch(ref.id);
        if fetchedTemplate.None? {
          return Some(ref.id);
        }
        visited := visited + {ref.id};
        fetched := fetched + [ref.id];
        examined := examined + [Examined(template.id, ref, true)];
        SortByIdMembers(fetchedTemplate.value.templates);
        assert universe - visited < universe - start.visited by {
          assert ref.id in universe - start.visited && ref.id !in universe - visited;
        }
        var innerFailed := FlattenImpl(fetchedTemplate.value, universe);
        if innerFailed.Some? {
          return innerFailed;
        }
        flattened := flattened + [ResolvedDependency(fetchedTemplate.value, presets)];
      }
      return None;
    }
  }

  method ResolveDependencies(graph: Graph, ghost universe: set<string>)
      returns (r: Result<seq<ResolvedDependency>, string>)
    requires ClosedUnder(graph, universe)
    ensures match Flatten(graph, universe)
            case Done(t) => r == Ok(WithRoot(graph, t))
            case FetchFailed(id) => r == Err(id)
  {
    var flattener := new Flattener(graph);
    SortByIdMembers(graph.root.templates);
    var failed := flattener.FlattenImpl(graph.root, universe);
    if failed.Some? {
      return Err(failed.value);
    }
    r := Ok(flattener.flattened + [ResolvedDependency(graph.root, map[])]);
  }
}
