/** Canonical key material of one node execution.

    The published key is the hex SHA-256 digest of the JSON serialization of this material.
    A serialized ordered map is the list of its entries in key order, so the material is
    modelled with those lists. */
module CacheKey {
  import opened Wrappers
  import opened Models

  const CACHE_FORMAT_VERSION := 1

  // ------------------------------------------------------------- orderings

  datatype Ordering = Less | Equal | Greater {
    /** Lexicographic combination: this decides unless it is Equal. */
    function Then(next: Ordering): Ordering { if Equal? then next else this }
    function Flip(): Ordering { match this case Less => Greater case Equal => Equal case Greater => Less }
  }

  function CompareInt(a: int, b: int): Ordering {
    if a < b then Less else if a == b then Equal else Greater
  }

  function CompareString(a: string, b: string): Ordering {
    if a == "" || b == "" then CompareInt(|a|, |b|)
    else CompareInt(a[0] as int, b[0] as int).Then(CompareString(a[1..], b[1..]))
  }

  function CompareArtifact(a: Artifact, b: Artifact): Ordering {
    CompareString(a.id, b.id)
    .Then(CompareInt(a.version, b.version))
    .Then(CompareString(a.dockerReference, b.dockerReference))
    .Then(CompareString(a.dockerTag, b.dockerTag))
  }

  lemma {:induction false} CompareStringLaws(a: string, b: string)
    ensures CompareString(a, b).Equal? <==> a == b
    ensures CompareString(b, a) == CompareString(a, b).Flip()
  {
    if a != "" && b != "" {
      CompareStringLaws(a[1..], b[1..]);
      assert a == [a[0]] + a[1..] && b == [b[0]] + b[1..];
    }
  }

  lemma {:induction false} CompareStringTransitive(a: string, b: string, c: string)
    requires !CompareString(a, b).Greater? && !CompareString(b, c).Greater?
    ensures !CompareString(a, c).Greater?
    ensures CompareString(a, b).Less? || CompareString(b, c).Less? ==> CompareString(a, c).Less?
  {
    if a != "" && b != "" && c != "" && a[0] == b[0] == c[0] {
      CompareStringTransitive(a[1..], b[1..], c[1..]);
    }
  }

  ghost predicate DiffersAt(a: string, b: string, k: nat) {
    k < |a| && k < |b| && a[..k] == b[..k] && a[k] < b[k]
  }

  /** The order of strings: a proper prefix comes first, else the first different character
      decides. */
  lemma {:induction false} CompareStringMeaning(a: string, b: string)
    ensures CompareString(a, b).Less? <==> a < b || exists k: nat :: DiffersAt(a, b, k)
  {
    if a != "" && b != "" {
      CompareStringMeaning(a[1..], b[1..]);
      assert a == [a[0]] + a[1..] && b == [b[0]] + b[1..];
      if a[0] == b[0] {
        if k: nat :| DiffersAt(a[1..], b[1..], k) {
          assert a[..k + 1] == [a[0]] + a[1..][..k] && b[..k + 1] == [b[0]] + b[1..][..k];
          assert DiffersAt(a, b, k + 1);
        }
        if k: nat :| DiffersAt(a, b, k) {
          assert a[1..][..k - 1] == a[..k][1..] && b[1..][..k - 1] == b[..k][1..];
          assert DiffersAt(a[1..], b[1..], k - 1);
        }
      } else if a[0] < b[0] {
        assert DiffersAt(a, b, 0);
      } else {
        forall k: nat ensures !DiffersAt(a, b, k) {
          if 0 < k <= |a| && k <= |b| { assert a[..k][0] == a[0] && b[..k][0] == b[0]; }
        }
      }
    }
  }

  /** Artifacts are ordered by id, then version, then image reference, then tag. */
  lemma CompareArtifactMeaning(a: Artifact, b: Artifact)
    ensures CompareArtifact(a, b).Less? <==>
            || CompareString(a.id, b.id).Less?
            || (a.id == b.id
                && (|| a.version < b.version
                    || (a.version == b.version
                        && (|| CompareString(a.dockerReference, b.dockerReference).Less?
                            || (a.dockerReference == b.dockerReference
                                && CompareString(a.dockerTag, b.dockerTag).Less?)))))
  {
    CompareStringLaws(a.id, b.id);
    CompareStringLaws(a.dockerReference, b.dockerReference);
  }

  predicate AtMost(a: Artifact, b: Artifact) { !CompareArtifact(a, b).Greater? }

  lemma AtMostTotal(a: Artifact, b: Artifact)
    ensures AtMost(a, b) || AtMost(b, a)
    ensures AtMost(a, b) && AtMost(b, a) ==> a == b
  {
    CompareStringLaws(a.id, b.id);
    CompareStringLaws(a.dockerReference, b.dockerReference);
    CompareStringLaws(a.dockerTag, b.dockerTag);
  }

  lemma AtMostTransitive(a: Artifact, b: Artifact, c: Artifact)
    requires AtMost(a, b) && AtMost(b, c)
    ensures AtMost(a, c)
  {
    CompareStringTransitive(a.id, b.id, c.id);
    CompareStringLaws(a.id, b.id);
    CompareStringLaws(b.id, c.id);
    CompareStringLaws(a.id, c.id);
    if a.id == b.id == c.id && a.version == b.version == c.version {
      CompareStringTransitive(a.dockerReference, b.dockerReference, c.dockerReference);
      CompareStringLaws(a.dockerReference, b.dockerReference);
      CompareStringLaws(b.dockerReference, c.dockerReference);
      CompareStringLaws(a.dockerReference, c.dockerReference);
      if a.dockerReference == b.dockerReference == c.dockerReference {
        CompareStringTransitive(a.dockerTag, b.dockerTag, c.dockerTag);
      }
    }
  }

  // --------------------------------------------------- sorting the artifacts

  ghost predicate Sorted(s: seq<Artifact>) {
    forall i, j :: 0 <= i <= j < |s| ==> AtMost(s[i], s[j])
  }

  lemma SortedHead(a: seq<Artifact>, x: Artifact)
    requires Sorted(a) && x in a
    ensures AtMost(a[0], x)
  {
    var j :| 0 <= j < |a| && a[j] == x;
  }

  /** A list has one sorted arrangement. */
  lemma {:induction false} SortedUnique(a: seq<Artifact>, b: seq<Artifact>)
    requires Sorted(a) && Sorted(b) && multiset(a) == multiset(b)
    ensures a == b
    decreases |a|
  {
    assert |a| == |multiset(a)| == |multiset(b)| == |b|;
    if a != [] {
      assert a[0] in multiset(b) && b[0] in multiset(a);
      SortedHead(a, b[0]);
      SortedHead(b, a[0]);
      AtMostTotal(a[0], b[0]);
      SortedTails(a, b);
    }
  }

  lemma {:induction false} SortedTails(a: seq<Artifact>, b: seq<Artifact>)
    requires Sorted(a) && Sorted(b) && multiset(a) == multiset(b)
    requires a != [] && b != [] && a[0] == b[0]
    ensures a == b
    decreases |a|, 0
  {
    hide AtMost;
    assert a == [a[0]] + a[1..] && b == [b[0]] + b[1..];
    assert multiset(a[1..]) == multiset(a) - multiset{a[0]};
    assert multiset(b[1..]) == multiset(b) - multiset{b[0]};
    SortedUnique(a[1..], b[1..]);
  }

  function Insert(x: Artifact, s: seq<Artifact>): seq<Artifact> {
    if s == [] || AtMost(x, s[0]) then [x] + s else [s[0]] + Insert(x, s[1..])
  }

  function SortArtifacts(s: seq<Artifact>): seq<Artifact> {
    if s == [] then [] else Insert(s[0], SortArtifacts(s[1..]))
  }

  lemma {:induction false} InsertSorts(x: Artifact, s: seq<Artifact>)
    requires Sorted(s)
    ensures Sorted(Insert(x, s)) && multiset(Insert(x, s)) == multiset(s) + multiset{x}
  {
    hide AtMost;
    if s == [] {
      AtMostTotal(x, x);
    } else if AtMost(x, s[0]) {
      AtMostTotal(x, x);
      forall j | 0 <= j < |s| ensures AtMost(x, s[j]) { AtMostTransitive(x, s[0], s[j]); }
    } else {
      var rest := Insert(x, s[1..]);
      InsertSorts(x, s[1..]);
      AtMostTotal(x, s[0]);
      assert s == [s[0]] + s[1..];
      forall j | 0 <= j < |rest| ensures AtMost(s[0], rest[j]) {
        assert rest[j] in multiset(rest);
        if rest[j] != x {
          assert rest[j] in multiset(s[1..]);
          var k :| 0 <= k < |s[1..]| && s[1..][k] == rest[j];
          assert AtMost(s[0], s[k + 1]);
        }
      }
      AtMostTotal(s[0], s[0]);
    }
  }

  lemma {:induction false} SortArtifactsSorts(s: seq<Artifact>)
    ensures Sorted(SortArtifacts(s)) && multiset(SortArtifacts(s)) == multiset(s)
  {
    if s != [] {
      SortArtifactsSorts(s[1..]);
      InsertSorts(s[0], SortArtifacts(s[1..]));
      assert s == [s[0]] + s[1..];
    }
  }

  /** Equal sorted lists mean equal contents, and the other way round. */
  lemma {:induction false} SortIsCanonical(a: seq<Artifact>, b: seq<Artifact>)
    ensures SortArtifacts(a) == SortArtifacts(b) <==> multiset(a) == multiset(b)
  {
    SortArtifactsSorts(a);
    SortArtifactsSorts(b);
    if multiset(a) == multiset(b) {
      SortedUnique(SortArtifacts(a), SortArtifacts(b));
    }
  }

  /** Placing `x` at `j` in a sorted list between its smaller and larger neighbours. */
  lemma PlaceSorted(s: seq<Artifact>, x: Artifact, j: nat)
    requires Sorted(s) && j <= |s|
    requires j > 0 ==> AtMost(s[j - 1], x)
    requires j < |s| ==> AtMost(x, s[j])
    ensures Sorted(s[..j] + [x] + s[j..])
  {
    var r := s[..j] + [x] + s[j..];
    AtMostTotal(x, x);
    forall i | 0 <= i < j ensures AtMost(s[i], x) { AtMostTransitive(s[i], s[j - 1], x); }
    forall i | j <= i < |s| ensures AtMost(x, s[i]) { AtMostTransitive(x, s[j], s[i]); }
    forall p, q | 0 <= p <= q < |r| ensures AtMost(r[p], r[q]) {
      assert r[p] == if p < j then s[p] else if p == j then x else s[p - 1];
      assert r[q] == if q < j then s[q] else if q == j then x else s[q - 1];
    }
  }

  /** A list with `x` lifted out of `pre + [x] + rest` and put at `j`. */
  function Placed(pre: seq<Artifact>, x: Artifact, rest: seq<Artifact>, j: nat): seq<Artifact>
    requires j <= |pre|
  {
    pre[..j] + [x] + pre[j..] + rest
  }

  lemma PlacedSwap(pre: seq<Artifact>, x: Artifact, rest: seq<Artifact>, j: nat)
    requires 0 < j <= |pre|
    ensures var s := Placed(pre, x, rest, j);
            s[j - 1] == pre[j - 1] && s[j] == x && s[j - 1 := x][j := pre[j - 1]] == Placed(pre, x, rest, j - 1)
  {
  }

  /** Moves `a[i]` down into the sorted range below it. */
  method SiftDown(a: array<Artifact>, i: nat)
    requires i < a.Length && Sorted(a[..i])
    modifies a
    ensures Sorted(a[..i + 1])
    ensures multiset(a[..]) == multiset(old(a[..]))
  {
    ghost var pre, x, rest := a[..i], a[i], a[i + 1..];
    assert a[..] == Placed(pre, x, rest, i);
    var j := i;
    while j > 0 && CompareArtifact(a[j - 1], a[j]).Greater?
      invariant 0 <= j <= i
      invariant a[..] == Placed(pre, x, rest, j)
      invariant j < i ==> AtMost(x, pre[j])
    {
      PlacedSwap(pre, x, rest, j);
      assert a[..][j - 1] == pre[j - 1] && a[..][j] == x;
      AtMostTotal(pre[j - 1], x);
      ghost var s := a[..];
      a[j - 1], a[j] := a[j], a[j - 1];
      assert a[..] == s[j - 1 := x][j := pre[j - 1]];
      j := j - 1;
    }
    assert j > 0 ==> AtMost(pre[j - 1], x) by {
      if j > 0 {
        PlacedSwap(pre, x, rest, j);
        assert a[..][j - 1] == pre[j - 1] && a[..][j] == x;
      }
    }
    PlacedSorted(a[..], pre, x, rest, j);
  }

  lemma PlacedSorted(s: seq<Artifact>, pre: seq<Artifact>, x: Artifact, rest: seq<Artifact>, j: nat)
    requires Sorted(pre) && j <= |pre| && s == Placed(pre, x, rest, j)
    requires j > 0 ==> AtMost(pre[j - 1], x)
    requires j < |pre| ==> AtMost(x, pre[j])
    ensures Sorted(s[..|pre| + 1])
    ensures multiset(s) == multiset(Placed(pre, x, rest, |pre|))
  {
    PlaceSorted(pre, x, j);
    assert s[..|pre| + 1] == pre[..j] + [x] + pre[j..];
    PlacedMultiset(pre, x, rest, j);
    PlacedMultiset(pre, x, rest, |pre|);
  }

  lemma PlacedMultiset(pre: seq<Artifact>, x: Artifact, rest: seq<Artifact>, j: nat)
    requires j <= |pre|
    ensures multiset(Placed(pre, x, rest, j)) == multiset(pre) + multiset{x} + multiset(rest)
  {
    assert pre == pre[..j] + pre[j..];
  }

  /** Sorts a copy of the pinned plugins or processors in place. */
  method PinnedArtifacts(items: seq<Artifact>) returns (out: seq<Artifact>)
    ensures out == SortArtifacts(items)
    ensures Sorted(out) && multiset(out) == multiset(items)
  {
    var a := new Artifact[|items|](i requires 0 <= i < |items| => items[i]);
    assert a[..] == items;
    for i := 0 to a.Length
      invariant Sorted(a[..i]) && multiset(a[..]) == multiset(items)
    {
      SiftDown(a, i);
    }
    out := a[..];
    assert a[..a.Length] == a[..];
    SortArtifactsSorts(items);
    SortedUnique(out, SortArtifacts(items));
  }

  // ------------------------------------------------------ ordered map entries

  predicate IsMinKey(k: string, keys: set<string>) {
    k in keys && forall j | j in keys :: !CompareString(k, j).Greater?
  }

  lemma {:induction false} MinKeyExists(keys: set<string>)
    requires keys != {}
    ensures exists k :: IsMinKey(k, keys)
    decreases |keys|
  {
    var x :| x in keys;
    CompareStringLaws(x, x);
    if keys == {x} {
      assert IsMinKey(x, keys);
    } else {
      MinKeyExists(keys - {x});
      var m :| IsMinKey(m, keys - {x});
      CompareStringLaws(x, m);
      if CompareString(x, m).Less? {
        forall j | j in keys ensures !CompareString(x, j).Greater? {
          if j != x { CompareStringTransitive(x, m, j); }
        }
        assert IsMinKey(x, keys);
      } else {
        assert IsMinKey(m, keys);
      }
    }
  }

  function MinKey(keys: set<string>): (k: string)
    requires keys != {}
    ensures IsMinKey(k, keys)
  {
    MinKeyExists(keys);
    assert forall a, b :: IsMinKey(a, keys) && IsMinKey(b, keys) ==> a == b by {
      forall a, b | IsMinKey(a, keys) && IsMinKey(b, keys) ensures a == b { CompareStringLaws(a, b); }
    }
    var k :| IsMinKey(k, keys);
    k
  }

  /** The entries of a map in key order, as an ordered map serializes them. */
  function Entries<V>(m: map<string, V>): seq<(string, V)>
    decreases |m|
  {
    if m == map[] then []
    else
      var k := MinKey(m.Keys);
      [(k, m[k])] + Entries(m - {k})
  }

  function FromEntries<V>(entries: seq<(string, V)>): map<string, V> {
    if entries == [] then map[] else FromEntries(entries[1..])[entries[0].0 := entries[0].1]
  }

  lemma {:induction false} EntriesDetermineMap<V>(m: map<string, V>)
    ensures FromEntries(Entries(m)) == m
    decreases |m|
  {
    if m != map[] {
      var k := MinKey(m.Keys);
      EntriesDetermineMap(m - {k});
      assert Entries(m)[1..] == Entries(m - {k});
      assert (m - {k})[k := m[k]] == m;
    }
  }

  // -------------------------------------------------------------- material

  datatype Material = Material(
    formatVersion: nat,
    templateId: string,
    templateVersion: int,
    images: Option<Images>,
    answers: seq<(string, Answer)>,
    deterministicStates: seq<(string, string)>,
    plugins: seq<Artifact>,
    processors: seq<Artifact>)

  function MaterialOf(template: Template, answers: Answers, states: States): Material {
    Material(CACHE_FORMAT_VERSION, template.id, template.version, template.properties,
             Entries(answers), Entries(states),
             SortArtifacts(template.plugins), SortArtifacts(template.processors))
  }

  method ComputeMaterial(template: Template, answers: Answers, states: States) returns (material: Material)
    ensures material == MaterialOf(template, answers, states)
  {
    var plugins := PinnedArtifacts(template.plugins);
    var processors := PinnedArtifacts(template.processors);
    material := Material(CACHE_FORMAT_VERSION, template.id, template.version, template.properties,
                         Entries(answers), Entries(states), plugins, processors);
  }

  /** What a node's output may depend on: everything keyed, and nothing about order. */
  ghost predicate SameInput(t1: Template, a1: Answers, s1: States, t2: Template, a2: Answers, s2: States) {
    && t1.id == t2.id && t1.version == t2.version && t1.properties == t2.properties
    && a1 == a2 && s1 == s2
    && multiset(t1.plugins) == multiset(t2.plugins)
    && multiset(t1.processors) == multiset(t2.processors)
  }

  /** Canonicalisation is exact: two executions share their material if and only if they
      have the same input. */
  lemma MaterialExact(t1: Template, a1: Answers, s1: States, t2: Template, a2: Answers, s2: States)
    ensures MaterialOf(t1, a1, s1) == MaterialOf(t2, a2, s2) <==> SameInput(t1, a1, s1, t2, a2, s2)
  {
    SortIsCanonical(t1.plugins, t2.plugins);
    SortIsCanonical(t1.processors, t2.processors);
    EntriesDetermineMap(a1);
    EntriesDetermineMap(a2);
    EntriesDetermineMap(s1);
    EntriesDetermineMap(s2);
  }
}
