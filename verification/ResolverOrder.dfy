/** Flattening does not depend on the order in which the registry lists dependencies. */
module ResolverOrder {
  import opened Models
  import opened CacheKey
  import opened Resolver

  predicate NotAfter(a: DependencyRef, b: DependencyRef) { !CompareString(a.id, b.id).Greater? }

  ghost predicate SortedById(s: seq<DependencyRef>) {
    forall i, j :: 0 <= i <= j < |s| ==> NotAfter(s[i], s[j])
  }

  predicate DistinctRefs(s: seq<DependencyRef>) {
    forall i, j :: 0 <= i < j < |s| ==> s[i].id != s[j].id
  }

  lemma NotAfterLaws(a: DependencyRef, b: DependencyRef)
    ensures NotAfter(a, a) && (NotAfter(a, b) || NotAfter(b, a))
    ensures NotAfter(a, b) && NotAfter(b, a) ==> a.id == b.id
  {
    CompareStringLaws(a.id, a.id);
    CompareStringLaws(a.id, b.id);
  }

  lemma {:induction false} InsertByIdSorts(x: DependencyRef, s: seq<DependencyRef>)
    requires SortedById(s)
    ensures SortedById(InsertById(x, s))
  {
    NotAfterLaws(x, x);
    if s != [] {
      NotAfterLaws(x, s[0]);
      if NotAfter(x, s[0]) {
        forall j | 0 <= j < |s| ensures NotAfter(x, s[j]) { CompareStringTransitive(x.id, s[0].id, s[j].id); }
      } else {
        var rest := InsertById(x, s[1..]);
        InsertByIdSorts(x, s[1..]);
        InsertByIdPermutes(x, s[1..]);
        NotAfterLaws(s[0], s[0]);
        forall j | 0 <= j < |rest| ensures NotAfter(s[0], rest[j]) {
          assert rest[j] in multiset(rest);
          if rest[j] != x {
            var k :| 0 <= k < |s[1..]| && s[1..][k] == rest[j];
            assert NotAfter(s[0], s[k + 1]);
          }
        }
      }
    }
  }

  /** The list that is traversed is in id order and holds the same references. */
  lemma {:induction false} SortByIdSorts(s: seq<DependencyRef>)
    ensures SortedById(SortById(s)) && multiset(SortById(s)) == multiset(s)
  {
    SortByIdPermutes(s);
    if s != [] {
      SortByIdSorts(s[1..]);
      InsertByIdSorts(s[0], SortById(s[1..]));
    }
  }

  lemma SameIdSameRef(s: seq<DependencyRef>, a: DependencyRef, b: DependencyRef)
    requires DistinctRefs(s) && a in s && b in s && a.id == b.id
    ensures a == b
  {
    var i :| 0 <= i < |s| && s[i] == a;
    var j :| 0 <= j < |s| && s[j] == b;
    assert !(i < j) && !(j < i);
  }

  lemma SameHeads(a: seq<DependencyRef>, b: seq<DependencyRef>)
    requires SortedById(a) && SortedById(b) && multiset(a) == multiset(b) && DistinctRefs(a) && a != [] && b != []
    ensures a[0] == b[0]
  {
    hide NotAfter;
    assert a[0] in multiset(b) && b[0] in multiset(a);
    var i :| 0 <= i < |b| && b[i] == a[0];
    var j :| 0 <= j < |a| && a[j] == b[0];
    assert NotAfter(a[0], a[j]) && NotAfter(b[0], b[i]);
    NotAfterLaws(a[0], b[0]);
    SameIdSameRef(a, a[0], b[0]);
  }

  lemma {:induction false} SortedByIdUnique(a: seq<DependencyRef>, b: seq<DependencyRef>)
    requires SortedById(a) && SortedById(b) && multiset(a) == multiset(b) && DistinctRefs(a)
    ensures a == b
    decreases |a|
  {
    hide NotAfter;
    assert |a| == |multiset(a)| == |multiset(b)| == |b|;
    if a != [] {
      SameHeads(a, b);
      assert a == [a[0]] + a[1..] && b == [b[0]] + b[1..];
      assert multiset(a[1..]) == multiset(a) - multiset{a[0]};
      assert multiset(b[1..]) == multiset(b) - multiset{b[0]};
      SortedByIdUnique(a[1..], b[1..]);
    }
  }

  lemma {:induction false} DistinctByIds(a: seq<DependencyRef>, b: seq<DependencyRef>)
    requires multiset(a) == multiset(b) && DistinctRefs(a)
    ensures DistinctRefs(b)
  {
    forall i, j | 0 <= i < j < |b| ensures b[i].id != b[j].id {
      if b[i].id == b[j].id {
        assert b[i] in multiset(a) && b[j] in multiset(a);
        SameIdSameRef(a, b[i], b[j]);
        Twice(b, i, j);
        Once(a, b[i]);
      }
    }
  }

  lemma Twice(s: seq<DependencyRef>, i: nat, j: nat)
    requires i < j < |s| && s[i] == s[j]
    ensures multiset(s)[s[i]] >= 2
  {
    assert s == s[..j] + [s[j]] + s[j + 1..];
    assert s[i] in s[..j];
  }

  lemma {:induction false} Once(s: seq<DependencyRef>, x: DependencyRef)
    requires DistinctRefs(s)
    ensures multiset(s)[x] <= 1
  {
    if s != [] {
      Once(s[1..], x);
      assert s == [s[0]] + s[1..];
      forall k | 0 <= k < |s[1..]| ensures s[1..][k] != s[0] {
        assert s[k + 1].id != s[0].id;
      }
    }
  }

  /** With distinct ids, sorting forgets the order of the list. */
  lemma {:induction false} SortByIdIsCanonical(a: seq<DependencyRef>, b: seq<DependencyRef>)
    requires DistinctRefs(a) && multiset(a) == multiset(b)
    ensures SortById(a) == SortById(b)
  {
    SortByIdSorts(a);
    SortByIdSorts(b);
    DistinctByIds(a, SortById(a));
    SortedByIdUnique(SortById(a), SortById(b));
  }

  // ------------------------------------------------------------- traversals

  /** The same template with its dependencies listed in another order. */
  ghost predicate Rearranged(a: Template, b: Template) {
    && a.(templates := []) == b.(templates := [])
    && DistinctRefs(a.templates) && multiset(a.templates) == multiset(b.templates)
  }

  ghost predicate RearrangedAt(g: Graph, g': Graph, id: string) {
    && (g.fetch(id).Some? <==> g'.fetch(id).Some?)
    && (g.fetch(id).Some? ==> Rearranged(g.fetch(id).value, g'.fetch(id).value))
  }

  ghost predicate RearrangedGraph(g: Graph, g': Graph) {
    Rearranged(g.root, g'.root) && forall id :: RearrangedAt(g, g', id)
  }

  ghost predicate SameEntry(a: ResolvedDependency, b: ResolvedDependency) {
    Rearranged(a.template, b.template) && a.presetAnswers == b.presetAnswers
  }

  ghost predicate SameLists(a: seq<ResolvedDependency>, b: seq<ResolvedDependency>) {
    |a| == |b| && forall i :: 0 <= i < |a| ==> SameEntry(a[i], b[i])
  }

  ghost predicate SameTraversal(t: Traversal, t': Traversal) {
    && t.visited == t'.visited && t.fetched == t'.fetched && t.examined == t'.examined
    && SameLists(t.flattened, t'.flattened)
  }

  ghost predicate SameOutcome(o: Outcome, o': Outcome) {
    match o
    case FetchFailed(id) => o' == FetchFailed(id)
    case Done(t) => o'.Done? && SameTraversal(t, o'.t)
  }

  lemma {:induction false} SameIndex(a: seq<ResolvedDependency>, b: seq<ResolvedDependency>, id: string)
    requires SameLists(a, b)
    ensures IndexOf(a, id) == IndexOf(b, id)
  {
    if a != [] {
      assert SameEntry(a[0], b[0]);
      forall i | 0 <= i < |a[1..]| ensures SameEntry(a[1..][i], b[1..][i]) {
        assert SameEntry(a[i + 1], b[i + 1]);
      }
      SameIndex(a[1..], b[1..], id);
    }
  }

  lemma MergeAlike(t: Traversal, t': Traversal, i: nat, source: string, ref: DependencyRef)
    requires SameTraversal(t, t') && i < |t.flattened|
    ensures SameTraversal(Merge(t, i, source, ref), Merge(t', i, source, ref))
  {
    assert SameEntry(t.flattened[i], t'.flattened[i]);
  }

  lemma {:induction false} FlattenAlike(g: Graph, g': Graph, source: string, deps: seq<DependencyRef>, t: Traversal,
                                        t': Traversal,
                                        universe: set<string>)
    requires ClosedUnder(g, universe) && ClosedUnder(g', universe) && forall ref :: ref in deps ==> ref.id in universe
    requires RearrangedGraph(g, g') && SameTraversal(t, t')
    ensures SameOutcome(FlattenDeps(g, source, deps, t, universe), FlattenDeps(g', source, deps, t', universe))
    decreases universe - t.visited, |deps|, 1
  {
    hide Rearranged;
    if deps != [] {
      var ref, rest := deps[0], deps[1..];
      assert forall r :: r in rest ==> r in deps;
      SameIndex(t.flattened, t'.flattened, ref.id);
      var existing := IndexOf(t.flattened, ref.id);
      if existing.Some? {
        MergeAlike(t, t', existing.value, source, ref);
        FlattenAlike(g, g', source, rest, Merge(t, existing.value, source, ref),
                     Merge(t', existing.value, source, ref), universe);
      } else if ref.id in t.visited {
        FlattenAlike(g, g', source, rest, Skip(t, source, ref), Skip(t', source, ref), universe);
      } else {
        assert RearrangedAt(g, g', ref.id);
        if g.fetch(ref.id).Some? {
          FreshAlike(g, g', source, deps, t, t', universe);
        }
      }
    }
  }

  /** A template not seen before: its dependencies are traversed in the same order. */
  lemma {:induction false} FreshAlike(g: Graph, g': Graph, source: string, deps: seq<DependencyRef>, t: Traversal,
                                      t': Traversal,
                                      universe: set<string>)
    requires ClosedUnder(g, universe) && ClosedUnder(g', universe) && deps != [] && forall ref :: ref in deps ==>
               ref.id in universe
    requires RearrangedGraph(g, g') && SameTraversal(t, t')
    requires IndexOf(t.flattened, deps[0].id).None? && IndexOf(t'.flattened, deps[0].id).None?
             && deps[0].id !in t.visited
    requires g.fetch(deps[0].id).Some? && g'.fetch(deps[0].id).Some?
    ensures SameOutcome(FlattenDeps(g, source, deps, t, universe), FlattenDeps(g', source, deps, t', universe))
    decreases universe - t.visited, |deps|, 0
  {
    var ref, rest := deps[0], deps[1..];
    assert RearrangedAt(g, g', ref.id);
    var template, template' := g.fetch(ref.id).value, g'.fetch(ref.id).value;
    assert template.id == template.(templates := []).id == template'.id;
    SortByIdIsCanonical(template.templates, template'.templates);
    SortByIdMembers(template.templates);
    SortByIdMembers(template'.templates);
    hide Rearranged;
    var sorted := SortById(template.templates);
    FlattenAlike(g, g', template.id, sorted, Enter(t, source, ref), Enter(t', source, ref), universe);
    var inner, inner' := FlattenDeps(g, template.id, sorted, Enter(t, source, ref), universe),
                         FlattenDeps(g', template'.id, sorted, Enter(t', source, ref), universe);
    if inner.Done? {
      assert forall r :: r in rest ==> r in deps;
      FlattenAlike(g, g', source, rest, Leave(inner.t, template, ref), Leave(inner'.t, template', ref), universe);
    }
  }

  /** However the registry orders the dependency lists, flattening fails on the same id or gives
      the same ids with the same presets in the same order. */
  lemma ListingOrderIsIrrelevant(g: Graph, g': Graph, universe: set<string>)
    requires ClosedUnder(g, universe) && ClosedUnder(g', universe) && RearrangedGraph(g, g')
    ensures var o, o' := Flatten(g, universe), Flatten(g', universe);
            && SameOutcome(o, o')
            && (o.Done? ==> SameLists(WithRoot(g, o.t), WithRoot(g', o'.t)))
  {
    assert g.root.id == g.root.(templates := []).id == g'.root.id;
    SortByIdIsCanonical(g.root.templates, g'.root.templates);
    SortByIdMembers(g.root.templates);
    FlattenAlike(g, g', g.root.id, SortById(g.root.templates), Start(g), Start(g'), universe);
  }
}
