/** Scoping of question ids and answers.  In a composition of several executable templates an
    answer key is global, or scoped to one template as `{template id}/{raw id}`. */
module Namespace {
  import opened Wrappers
  import opened Models

  const SEPARATOR := "/"

  function Scoped(ns: string, raw: string): string { ns + SEPARATOR + raw }

  predicate InNamespace(ns: string, key: string) { ns + SEPARATOR <= key }

  function StripNamespace(ns: string, key: string): (r: Option<string>)
    ensures r.Some? <==> InNamespace(ns, key)
    ensures r.Some? ==> key == Scoped(ns, r.value)
  {
    if InNamespace(ns, key) then Some(key[|ns| + 1..]) else None
  }

  lemma ScopedStrips(ns: string, raw: string)
    ensures StripNamespace(ns, Scoped(ns, raw)) == Some(raw)
  {
    assert Scoped(ns, raw)[|ns| + 1..] == raw;
  }

  lemma ScopedInjective(ns: string, a: string, b: string)
    ensures Scoped(ns, a) == Scoped(ns, b) ==> a == b
  {
    ScopedStrips(ns, a);
    ScopedStrips(ns, b);
  }

  /** The first listed namespace the key is scoped under; None for a global key. */
  function Classify(key: string, namespaces: seq<string>): Option<string> {
    if namespaces == [] then None
    else if StripNamespace(namespaces[0], key).Some? then Some(namespaces[0])
    else Classify(key, namespaces[1..])
  }

  predicate SlashFree(s: string) { '/' !in s }

  ghost predicate AllSlashFree(namespaces: seq<string>) {
    forall ns :: ns in namespaces ==> SlashFree(ns)
  }

  /** The namespace of a key ends at the key's first slash. */
  lemma EndsAtFirstSlash(ns: string, key: string)
    requires SlashFree(ns) && InNamespace(ns, key)
    ensures |ns| < |key| && ns == key[..|ns|] && key[|ns|] == '/'
    ensures forall i :: 0 <= i < |ns| ==> key[i] != '/'
  {
    assert key[|ns|] == (ns + SEPARATOR)[|ns|];
    assert ns == (ns + SEPARATOR)[..|ns|];
    forall i | 0 <= i < |ns| ensures key[i] != '/' { assert key[i] == ns[i]; }
  }

  lemma OnePrefix(a: string, b: string, key: string)
    requires SlashFree(a) && SlashFree(b) && InNamespace(a, key) && InNamespace(b, key)
    ensures a == b
  {
    EndsAtFirstSlash(a, key);
    EndsAtFirstSlash(b, key);
  }

  /** With slash-free ids, classification is exactly "scoped under a listed namespace". */
  lemma {:induction false} ClassifyExact(key: string, namespaces: seq<string>, ns: string)
    requires AllSlashFree(namespaces)
    ensures Classify(key, namespaces) == Some(ns) <==> ns in namespaces && InNamespace(ns, key)
    ensures Classify(key, namespaces) == None <==> forall n :: n in namespaces ==> !InNamespace(n, key)
  {
    if namespaces != [] {
      assert namespaces[0] in namespaces;
      ClassifyExact(key, namespaces[1..], ns);
      if InNamespace(namespaces[0], key) && ns in namespaces && InNamespace(ns, key) {
        OnePrefix(namespaces[0], ns, key);
      }
      assert forall n :: n in namespaces <==> n == namespaces[0] || n in namespaces[1..];
    }
  }

  /** So it depends only on which namespaces are listed, not on their order. */
  lemma {:induction false} ClassifyIgnoresOrder(key: string, a: seq<string>, b: seq<string>)
    requires AllSlashFree(a) && forall ns :: ns in a <==> ns in b
    ensures Classify(key, a) == Classify(key, b)
  {
    match Classify(key, a)
    case Some(ns) =>
      ClassifyExact(key, a, ns);
      ClassifyExact(key, b, ns);
    case None =>
      ClassifyExact(key, a, "");
      ClassifyExact(key, b, "");
  }

  // ------------------------------------------------------- answer routing

  function Globals(namespaces: seq<string>, shared: Answers): Answers {
    map key | key in shared && Classify(key, namespaces).None? :: shared[key]
  }

  function RawKeys(ns: string, namespaces: seq<string>, shared: Answers): set<string> {
    set key | key in shared && Classify(key, namespaces) == Some(ns) && StripNamespace(ns, key).Some? ::
        StripNamespace(ns, key).value
  }

  /** The answers scoped to `ns`, under their raw ids. */
  function OwnAnswers(ns: string, namespaces: seq<string>, shared: Answers): Answers {
    map raw | raw in RawKeys(ns, namespaces, shared) && Scoped(ns, raw) in shared :: shared[Scoped(ns, raw)]
  }

  /** The answers one dependency sees: its own scoped ones over the globals over its presets. */
  function TemplateAnswers(ns: Option<string>, namespaces: seq<string>, shared: Answers, presets: Answers): Answers {
    match ns
    case None => presets + shared
    case Some(n) => presets + Globals(namespaces, shared) + OwnAnswers(n, namespaces, shared)
  }

  lemma {:induction false} OwnAnswersMeaning(ns: string, namespaces: seq<string>, shared: Answers, raw: string)
    ensures raw in OwnAnswers(ns, namespaces, shared) <==>
              Scoped(ns, raw) in shared && Classify(Scoped(ns, raw), namespaces) == Some(ns)
    ensures raw in OwnAnswers(ns, namespaces, shared) ==>
              OwnAnswers(ns, namespaces, shared)[raw] == shared[Scoped(ns, raw)]
  {
    ScopedStrips(ns, raw);
    if raw in RawKeys(ns, namespaces, shared) {
      var key :| key in shared && Classify(key, namespaces) == Some(ns) && StripNamespace(ns, key) == Some(raw);
      assert key == Scoped(ns, raw);
    }
    if Scoped(ns, raw) in shared && Classify(Scoped(ns, raw), namespaces) == Some(ns) {
      assert raw in RawKeys(ns, namespaces, shared);
    }
  }

  function Lookup(m: Answers, key: string): Option<Answer> {
    if key in m then Some(m[key]) else None
  }

  /** The three routing classes: a dependency's answer for a raw id is its scoped entry, else
      the global one, else the preset, else absent. */
  lemma AnswerRouting(ns: string, namespaces: seq<string>, shared: Answers, presets: Answers, raw: string)
    requires AllSlashFree(namespaces) && ns in namespaces
    ensures Lookup(TemplateAnswers(Some(ns), namespaces, shared, presets), raw) ==
            if Scoped(ns, raw) in shared then Some(shared[Scoped(ns, raw)])
            else if raw in shared && (forall n :: n in namespaces ==> !InNamespace(n, raw)) then Some(shared[raw])
            else Lookup(presets, raw)
  {
    OwnAnswersMeaning(ns, namespaces, shared, raw);
    ClassifyExact(Scoped(ns, raw), namespaces, ns);
    ClassifyExact(raw, namespaces, ns);
  }

  /** In a composition with one executable template: the caller's answer, else the preset, else
      absent. */
  lemma AnswerRoutingAlone(namespaces: seq<string>, shared: Answers, presets: Answers, raw: string)
    ensures Lookup(TemplateAnswers(None, namespaces, shared, presets), raw) ==
            if raw in shared then Some(shared[raw]) else if raw in presets then Some(presets[raw]) else None
  {
  }

  /** Entries scoped to other templates never influence a dependency. */
  lemma SiblingsDoNotInterfere(ns: string, namespaces: seq<string>, shared: Answers, shared': Answers, presets: Answers)
    requires AllSlashFree(namespaces) && ns in namespaces
    requires forall key :: Lookup(shared, key) != Lookup(shared', key) ==>
               exists sibling :: sibling in namespaces && sibling != ns && InNamespace(sibling, key)
    ensures TemplateAnswers(Some(ns), namespaces, shared, presets) ==
            TemplateAnswers(Some(ns), namespaces, shared', presets)
  {
    var a, b := TemplateAnswers(Some(ns), namespaces, shared, presets),
      TemplateAnswers(Some(ns), namespaces, shared', presets);
    forall raw ensures Lookup(a, raw) == Lookup(b, raw) {
      AnswerRouting(ns, namespaces, shared, presets, raw);
      AnswerRouting(ns, namespaces, shared', presets, raw);
      ScopedStrips(ns, raw);
      if Lookup(shared, Scoped(ns, raw)) != Lookup(shared', Scoped(ns, raw)) {
        var sibling :| sibling in namespaces && sibling != ns && InNamespace(sibling, Scoped(ns, raw));
        OnePrefix(ns, sibling, Scoped(ns, raw));
      }
      if Lookup(shared, raw) != Lookup(shared', raw) {
        var sibling :| sibling in namespaces && sibling != ns && InNamespace(sibling, raw);
      }
    }
    SameLookups(a, b);
  }

  lemma SameLookups(a: Answers, b: Answers)
    requires forall key :: Lookup(a, key) == Lookup(b, key)
    ensures a == b
  {
    forall key ensures key in a <==> key in b {
      assert Lookup(a, key) == Lookup(b, key);
    }
    forall key | key in a ensures a[key] == b[key] {
      assert Lookup(a, key) == Lookup(b, key);
    }
  }

  /** The two passes over the shared answers and the pass over the presets, each in hash
      order. */
  method BuildTemplateAnswers(ns: Option<string>, namespaces: seq<string>, shared: Answers, presets: Answers)
      returns (answers: Answers)
    ensures answers == TemplateAnswers(ns, namespaces, shared, presets)
  {
    match ns {
      case Some(n) =>
        answers := CollectGlobals(namespaces, shared);
        answers := CollectOwn(n, namespaces, shared, answers);
      case None =>
        answers := shared;
    }
    answers := FillGaps(answers, presets);
  }

  method CollectGlobals(namespaces: seq<string>, shared: Answers) returns (answers: Answers)
    ensures answers == Globals(namespaces, shared)
  {
    answers := map[];
    var todo := shared.Keys;
    while todo != {}
      invariant todo <= shared.Keys
      invariant answers == Globals(namespaces, shared - todo)
      decreases |todo|
    {
      var key :| key in todo;
      todo := todo - {key};
      if Classify(key, namespaces).None? {
        answers := answers[key := shared[key]];
      }
    }
    assert shared - todo == shared;
  }

  method CollectOwn(ns: string, namespaces: seq<string>, shared: Answers, base: Answers) returns (answers: Answers)
    ensures answers == base + OwnAnswers(ns, namespaces, shared)
  {
    answers := base;
    var todo := shared.Keys;
    while todo != {}
      invariant todo <= shared.Keys
      invariant answers == base + OwnAnswers(ns, namespaces, shared - todo)
      decreases |todo|
    {
      var key :| key in todo;
      OwnStep(ns, namespaces, shared, todo, key);
      ghost var own := OwnAnswers(ns, namespaces, shared - todo);
      todo := todo - {key};
      if Classify(key, namespaces) == Some(ns) {
        ClassifiedStrips(key, namespaces, ns);
        var raw := StripNamespace(ns, key).value;
        PlusUpdate(base, own, raw, shared[key]);
        answers := answers[raw := shared[key]];
      }
    }
    assert shared - todo == shared;
  }

  lemma PlusUpdate(base: Answers, m: Answers, key: string, value: Answer)
    ensures (base + m)[key := value] == base + m[key := value]
  {
  }

  lemma {:induction false} OwnStep(ns: string, namespaces: seq<string>, shared: Answers, todo: set<string>, key: string)
    requires key in todo && key in shared
    ensures var before, after := OwnAnswers(ns, namespaces, shared - todo),
            OwnAnswers(ns, namespaces, shared - (todo - {key}));
            && (Classify(key, namespaces) == Some(ns) ==>
                  StripNamespace(ns, key).Some? && after == before[StripNamespace(ns, key).value := shared[key]])
            && (Classify(key, namespaces) != Some(ns) ==> after == before)
  {
    var before, after := OwnAnswers(ns, namespaces, shared - todo), OwnAnswers(ns, namespaces, shared - (todo - {key}));
    if Classify(key, namespaces) == Some(ns) { ClassifiedStrips(key, namespaces, ns); }
    var expected := if Classify(key, namespaces) == Some(ns)
      then before[StripNamespace(ns, key).value := shared[key]] else before;
    forall raw ensures Lookup(after, raw) == Lookup(expected, raw) {
      OwnAnswersMeaning(ns, namespaces, shared - todo, raw);
      OwnAnswersMeaning(ns, namespaces, shared - (todo - {key}), raw);
      if InNamespace(ns, key) { ScopedInjective(ns, raw, StripNamespace(ns, key).value); }
      ScopedStrips(ns, raw);
    }
    SameLookups(after, expected);
  }

  lemma {:induction false} ClassifiedStrips(key: string, namespaces: seq<string>, ns: string)
    requires Classify(key, namespaces) == Some(ns)
    ensures StripNamespace(ns, key).Some? && ns in namespaces
  {
    if StripNamespace(namespaces[0], key).None? {
      ClassifiedStrips(key, namespaces[1..], ns);
    }
  }

  method FillGaps(base: Answers, presets: Answers) returns (answers: Answers)
    ensures answers == presets + base
  {
    answers := base;
    var todo := presets.Keys;
    while todo != {}
      invariant todo <= presets.Keys && answers == (presets - todo) + base
      decreases |todo|
    {
      var key :| key in todo;
      FillStep(base, presets, todo, key);
      todo := todo - {key};
      if key !in answers {
        answers := answers[key := presets[key]];
      }
    }
    assert presets - {} == presets;
  }

  lemma FillStep(base: Answers, presets: Answers, todo: set<string>, key: string)
    requires key in todo && key in presets
    ensures var answers := (presets - todo) + base;
            (presets - (todo - {key})) + base == if key in answers then answers else answers[key := presets[key]]
  {
  }

  // ------------------------------------- scoping a template's own answers

  /** Where an answer of template `ns` goes in the shared map: it stays scoped if the caller
      supplied it scoped, and is shared under its raw id otherwise. */
  function Target(ns: string, supplied: Answers, key: string): string {
    if Scoped(ns, key) in supplied then Scoped(ns, key) else key
  }

  /** Two answers with the same target and different values. */
  ghost predicate Collide(ns: string, answers: Answers, supplied: Answers, k: string, k': string) {
    k in answers && k' in answers && Target(ns, supplied, k) == Target(ns, supplied, k') && answers[k] != answers[k']
  }

  ghost predicate Collides(ns: string, answers: Answers, supplied: Answers) {
    exists k, k' :: Collide(ns, answers, supplied, k, k')
  }

  /** Collecting the answers in a given iteration order; a later key overwrites. */
  function Collect(ns: string, answers: Answers, supplied: Answers, order: seq<string>): Answers {
    if order == [] then map[]
    else
      var n := |order| - 1;
      var before := Collect(ns, answers, supplied, order[..n]);
      if order[n] in answers then before[Target(ns, supplied, order[n]) := answers[order[n]]] else before
  }

  ghost predicate IterationOrder(order: seq<string>, keys: set<string>) {
    && (forall key :: key in order <==> key in keys)
    && (forall i, j :: 0 <= i < j < |order| ==> order[i] != order[j])
  }

  /** The collected answers when no two collide. */
  function Namespaced(ns: Option<string>, answers: Answers, supplied: Answers): Answers {
    match ns
    case None => answers
    case Some(n) =>
      (map k | k in answers && Scoped(n, k) !in supplied :: answers[k])
      + ScopedPart(n, answers, supplied)
  }

  /** The answers collected in a given hash order; any other list stands for no order. */
  ghost function ScopedIn(ns: string, answers: Answers, supplied: Answers, order: seq<string>): Answers {
    if IterationOrder(order, answers.Keys) then Collect(ns, answers, supplied, order)
      else Namespaced(Some(ns), answers, supplied)
  }

  function ScopedPart(ns: string, answers: Answers, supplied: Answers): Answers {
    map key | key in supplied && StripNamespace(ns, key).Some? && StripNamespace(ns, key).value in answers ::
        answers[StripNamespace(ns, key).value]
  }

  lemma ScopedPartMeaning(ns: string, answers: Answers, supplied: Answers, k: string)
    ensures Scoped(ns, k) in ScopedPart(ns, answers, supplied) <==> Scoped(ns, k) in supplied && k in answers
    ensures Scoped(ns, k) in ScopedPart(ns, answers, supplied) ==>
              ScopedPart(ns, answers, supplied)[Scoped(ns, k)] == answers[k]
  {
    ScopedStrips(ns, k);
  }

  /** Every key of the result comes from an answer, and every answer reaches its target. */
  lemma NamespacedTargets(ns: string, answers: Answers, supplied: Answers)
    ensures forall k :: k in answers ==> Target(ns, supplied, k) in Namespaced(Some(ns), answers, supplied)
    ensures forall t :: t in Namespaced(Some(ns), answers, supplied) ==>
              exists k :: k in answers && Target(ns, supplied, k) == t
                && Namespaced(Some(ns), answers, supplied)[t] == answers[k]
  {
    var r := Namespaced(Some(ns), answers, supplied);
    forall k | k in answers ensures Target(ns, supplied, k) in r { ScopedPartMeaning(ns, answers, supplied, k); }
    forall t | t in r
      ensures exists k :: k in answers && Target(ns, supplied, k) == t && r[t] == answers[k]
    {
      if t in ScopedPart(ns, answers, supplied) {
        var k := StripNamespace(ns, t).value;
        assert Target(ns, supplied, k) == t && r[t] == answers[k];
      } else {
        assert Target(ns, supplied, t) == t && r[t] == answers[t];
      }
    }
  }

  lemma {:induction false} CollectMeaning(ns: string, answers: Answers, supplied: Answers, order: seq<string>,
                                          t: string)
    ensures t in Collect(ns, answers, supplied, order) <==>
              exists k :: k in order && k in answers && Target(ns, supplied, k) == t
    ensures t in Collect(ns, answers, supplied, order) ==>
              exists k :: k in order && k in answers && Target(ns, supplied, k) == t
                && Collect(ns, answers, supplied, order)[t] == answers[k]
  {
    if order != [] {
      var n := |order| - 1;
      CollectMeaning(ns, answers, supplied, order[..n], t);
      assert order == order[..n] + [order[n]];
      assert forall k :: k in order <==> k in order[..n] || k == order[n];
    }
  }

  /** Without collisions the iteration order does not matter. */
  lemma {:induction false} CollectWithoutCollisions(ns: string, answers: Answers, supplied: Answers, order: seq<string>)
    requires !Collides(ns, answers, supplied) && IterationOrder(order, answers.Keys)
    ensures Collect(ns, answers, supplied, order) == Namespaced(Some(ns), answers, supplied)
  {
    var a, b := Collect(ns, answers, supplied, order), Namespaced(Some(ns), answers, supplied);
    NamespacedTargets(ns, answers, supplied);
    forall t ensures Lookup(a, t) == Lookup(b, t) {
      CollectMeaning(ns, answers, supplied, order, t);
      if t in a {
        var k :| k in order && k in answers && Target(ns, supplied, k) == t && a[t] == answers[k];
        assert t in b;
        var k' :| k' in answers && Target(ns, supplied, k') == t && b[t] == answers[k'];
        assert !Collide(ns, answers, supplied, k, k');
      } else {
        forall k | k in answers ensures Target(ns, supplied, k) != t { assert k in order; }
      }
    }
    SameLookups(a, b);
  }

  lemma {:induction false} OrderExists(keys: set<string>) returns (order: seq<string>)
    ensures IterationOrder(order, keys)
    decreases |keys|
  {
    if keys == {} {
      order := [];
    } else {
      var k :| k in keys;
      var rest := OrderExists(keys - {k});
      order := rest + [k];
    }
  }

  /** An iteration order whose last key is `k`: its answer is the one that stays. */
  lemma LastKeyStays(ns: string, answers: Answers, supplied: Answers, k: string) returns (order: seq<string>)
    requires k in answers
    ensures IterationOrder(order, answers.Keys)
    ensures Lookup(Collect(ns, answers, supplied, order), Target(ns, supplied, k)) == Some(answers[k])
  {
    var rest := OrderExists(answers.Keys - {k});
    order := rest + [k];
    assert order[..|rest|] == rest;
  }

  /** The result of scoping a template's answers is independent of hash order if and only if
      no two of them collide. */
  lemma {:induction false} OrderFreeIffNoCollision(ns: string, answers: Answers, supplied: Answers)
    ensures !Collides(ns, answers, supplied) <==>
            forall o1, o2 :: IterationOrder(o1, answers.Keys) && IterationOrder(o2, answers.Keys) ==>
              Collect(ns, answers, supplied, o1) == Collect(ns, answers, supplied, o2)
  {
    if Collides(ns, answers, supplied) {
      var k, k' :| Collide(ns, answers, supplied, k, k');
      var o1 := LastKeyStays(ns, answers, supplied, k);
      var o2 := LastKeyStays(ns, answers, supplied, k');
      assert Collect(ns, answers, supplied, o1) != Collect(ns, answers, supplied, o2);
    } else {
      forall o1, o2 | IterationOrder(o1, answers.Keys) && IterationOrder(o2, answers.Keys)
        ensures Collect(ns, answers, supplied, o1) == Collect(ns, answers, supplied, o2)
      {
        CollectWithoutCollisions(ns, answers, supplied, o1);
        CollectWithoutCollisions(ns, answers, supplied, o2);
      }
    }
  }

  /** A concrete collision: template `a` returns both `x` and `a/x`, and the caller supplied
      `a/x`. */
  lemma CollisionExample()
    ensures Collides("a", map["x" := StringAnswer("1"), "a/x" := StringAnswer("2")], map["a/x" := StringAnswer("1")])
  {
    var answers: Answers := map["x" := StringAnswer("1"), "a/x" := StringAnswer("2")];
    var supplied: Answers := map["a/x" := StringAnswer("1")];
    assert Scoped("a", "x") == "a/x";
    assert Scoped("a", "a/x") == "a/a/x";
    assert |Scoped("a", "a/x")| == 5 && |"a/x"| == 3;
    assert Collide("a", answers, supplied, "x", "a/x");
  }

  /** A supplied scoped key that is not itself scoped further by another supplied key. */
  lemma {:induction false} LastScoped(ns: string, supplied: Answers, keys: set<string>, k: string)
      returns (last: string)
    requires keys <= supplied.Keys && Scoped(ns, k) in keys
    requires forall key :: key in supplied && |key| >= |Scoped(ns, k)| ==> key in keys
    ensures Scoped(ns, last) in supplied && Scoped(ns, Scoped(ns, last)) !in supplied
    decreases |keys|
  {
    var key := Scoped(ns, k);
    if Scoped(ns, key) !in supplied {
      last := k;
    } else {
      assert |Scoped(ns, key)| > |key|;
      var longer := set l | l in keys && |l| > |key|;
      assert key !in longer && key in keys && longer < keys;
      SmallerSet(longer, keys);
      last := LastScoped(ns, supplied, longer, key);
    }
  }

  lemma SmallerSet<T>(a: set<T>, b: set<T>)
    requires a < b
    ensures |a| < |b|
  {
    assert b == a + (b - a) && b - a != {};
  }

  /** No answers a template can return collide, if and only if the caller supplied no key
      scoped to it. */
  lemma NeverCollidesIff(ns: string, supplied: Answers)
    ensures (forall answers: Answers :: !Collides(ns, answers, supplied)) <==> (forall k :: Scoped(ns, k) !in supplied)
  {
    if k :| Scoped(ns, k) in supplied {
      var last := LastScoped(ns, supplied, supplied.Keys, k);
      var key := Scoped(ns, last);
      assert |key| > |last|;
      var answers: Answers := map[last := StringAnswer("1"), key := StringAnswer("2")];
      assert Collide(ns, answers, supplied, last, key) && Collides(ns, answers, supplied);
    } else {
      forall answers: Answers, k, k' ensures !Collide(ns, answers, supplied, k, k') {
        assert Scoped(ns, k) !in supplied && Scoped(ns, k') !in supplied;
      }
    }
  }

  method NamespaceAnswers(ns: Option<string>, answers: Answers, supplied: Answers)
      returns (r: Answers, ghost order: seq<string>)
    ensures IterationOrder(order, answers.Keys)
    ensures r == if ns.Some? then Collect(ns.value, answers, supplied, order) else answers
    ensures (ns.None? || !Collides(ns.value, answers, supplied)) ==> r == Namespaced(ns, answers, supplied)
  {
    order := [];
    if ns.None? {
      order := OrderExists(answers.Keys);
      return answers, order;
    }
    var n := ns.value;
    r := map[];
    var todo := answers.Keys;
    while todo != {}
      invariant todo <= answers.Keys
      invariant IterationOrder(order, answers.Keys - todo)
      invariant r == Collect(n, answers, supplied, order)
      decreases |todo|
    {
      var key :| key in todo;
      assert key !in order;
      assert (order + [key])[..|order|] == order;
      order := order + [key];
      todo := todo - {key};
      var scoped := Scoped(n, key);
      if scoped in supplied {
        r := r[scoped := answers[key]];
      } else {
        r := r[key := answers[key]];
      }
    }
    assert answers.Keys - todo == answers.Keys;
    if !Collides(n, answers, supplied) {
      CollectWithoutCollisions(n, answers, supplied, order);
    }
  }
}
