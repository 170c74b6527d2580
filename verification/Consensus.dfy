/** Consensus among the templates that produce the same file.  Having no resolver is a choice
    like any other. */
module Consensus {
  import opened Models

  datatype TemplateInfo = TemplateInfo(templateId: string, templateVersion: int, layer: int)

  datatype ResolverChoice = NoResolver | Use(resolver: ResolverInstance)

  type Choice = (TemplateInfo, ResolverChoice)
  type Configured = (TemplateInfo, ResolverInstance)

  /** Resolver instances are compared by image and by a 64-bit hash of their configuration. */
  datatype ResolverKey = ResolverKey(dockerRef: string, dockerTag: string, configHash: nat)

  type ConfigHash = Json -> nat

  function KeyOf(r: ResolverInstance, hash: ConfigHash): ResolverKey {
    ResolverKey(r.dockerRef, r.dockerTag, hash(r.config))
  }

  datatype ConsensusResult =
    | Agreed(resolver: ResolverInstance)
    | AllNone
    | NoConsensus(withResolver: seq<Configured>, withoutResolver: seq<TemplateInfo>)
    | Ambiguous(resolvers: seq<Configured>)

  // ---------------------------------------------------------- the reference

  /** The choices that name a resolver, in order. */
  function With(choices: seq<Choice>): seq<Configured> {
    if choices == [] then []
    else
      var last, before := choices[|choices| - 1], With(choices[..|choices| - 1]);
      match last.1 case NoResolver => before case Use(r) => before + [(last.0, r)]
  }

  function Without(choices: seq<Choice>): seq<TemplateInfo> {
    if choices == [] then []
    else
      var last, before := choices[|choices| - 1], Without(choices[..|choices| - 1]);
      match last.1 case NoResolver => before + [last.0] case Use(r) => before
  }

  predicate AnyResolver(choices: seq<Choice>) { exists c :: c in choices && c.1.Use? }
  predicate AnyNone(choices: seq<Choice>) { exists c :: c in choices && c.1.NoResolver? }

  /** All named resolvers have the same key. */
  predicate OneKey(choices: seq<Choice>, hash: ConfigHash) {
    forall c, d :: c in choices && d in choices && c.1.Use? && d.1.Use? ==>
      KeyOf(c.1.resolver, hash) == KeyOf(d.1.resolver, hash)
  }

  datatype Class = Unanimous | NobodyHasOne | Mixed | Many

  function ClassOf(choices: seq<Choice>, hash: ConfigHash): Class {
    if !AnyResolver(choices) then NobodyHasOne
    else if AnyNone(choices) then Mixed
    else if OneKey(choices, hash) then Unanimous
    else Many
  }

  /** `r` is the consensus among `choices`. */
  ghost predicate IsConsensus(choices: seq<Choice>, hash: ConfigHash, r: ConsensusResult) {
    match ClassOf(choices, hash)
    case Unanimous => With(choices) != [] && r == Agreed(With(choices)[0].1)
    case NobodyHasOne => r == AllNone
    case Mixed => r == NoConsensus(With(choices), Without(choices))
    case Many => r.Ambiguous? && multiset(r.resolvers) == multiset(With(choices))
  }

  lemma {:induction false} WithMembers(choices: seq<Choice>)
    ensures forall t, r :: (t, r) in With(choices) <==> (t, Use(r)) in choices
    ensures forall t :: t in Without(choices) <==> (t, NoResolver) in choices
    ensures |With(choices)| + |Without(choices)| == |choices|
  {
    if choices != [] {
      var n := |choices| - 1;
      WithMembers(choices[..n]);
      assert choices == choices[..n] + [choices[n]];
    }
  }

  lemma {:induction false} EmptyWhenNone(choices: seq<Choice>)
    ensures With(choices) == [] <==> !AnyResolver(choices)
    ensures Without(choices) == [] <==> !AnyNone(choices)
  {
    WithMembers(choices);
    if With(choices) != [] {
      var c := With(choices)[0];
      assert (c.0, Use(c.1)) in choices;
    }
    if Without(choices) != [] {
      assert (Without(choices)[0], NoResolver) in choices;
    }
  }

  function Lift(configured: seq<Configured>, plain: seq<TemplateInfo>): seq<Choice> {
    seq(|configured|, i requires 0 <= i < |configured| => (configured[i].0, Use(configured[i].1)))
    + seq(|plain|, i requires 0 <= i < |plain| => (plain[i], NoResolver))
  }

  /** The two lists partition the choices. */
  lemma {:induction false} ListsPartitionChoices(choices: seq<Choice>)
    ensures multiset(Lift(With(choices), Without(choices))) == multiset(choices)
  {
    if choices != [] {
      var n := |choices| - 1;
      var before, last := choices[..n], choices[n];
      ListsPartitionChoices(before);
      assert choices == before + [last];
      var w, wo := With(before), Without(before);
      match last.1
      case NoResolver =>
        assert Lift(w, wo + [last.0]) == Lift(w, wo) + [last];
      case Use(r) =>
        assert Lift(w + [(last.0, r)], wo) == Lift(w, []) + [last] + Lift([], wo);
        assert Lift(w, wo) == Lift(w, []) + Lift([], wo);
    }
  }

  /** The class does not depend on the order in which templates are considered. */
  lemma ClassIgnoresOrder(a: seq<Choice>, b: seq<Choice>, hash: ConfigHash)
    requires multiset(a) == multiset(b)
    ensures ClassOf(a, hash) == ClassOf(b, hash)
  {
    assert forall c :: c in a <==> c in multiset(a);
    assert forall c :: c in b <==> c in multiset(b);
    assert forall c :: c in a <==> c in b;
  }

  // ------------------------------------------------------------- the code

  type Groups = map<ResolverKey, seq<Configured>>

  function Grouped(configured: seq<Configured>, key: ResolverKey, hash: ConfigHash): seq<Configured> {
    if configured == [] then []
    else
      var last, before := configured[|configured| - 1], Grouped(configured[..|configured| - 1], key, hash);
      if KeyOf(last.1, hash) == key then before + [last] else before
  }

  ghost predicate AreGroups(groups: Groups, configured: seq<Configured>, hash: ConfigHash) {
    && (forall key :: key in groups <==> Grouped(configured, key, hash) != [])
    && (forall key :: key in groups ==> groups[key] == Grouped(configured, key, hash))
  }

  lemma {:induction false} GroupedSnoc(configured: seq<Configured>, c: Configured, key: ResolverKey, hash: ConfigHash)
    ensures Grouped(configured + [c], key, hash) ==
            if KeyOf(c.1, hash) == key then Grouped(configured, key, hash) + [c] else Grouped(configured, key, hash)
  {
    assert (configured + [c])[..|configured|] == configured;
  }

  lemma {:induction false} GroupedCount(configured: seq<Configured>, key: ResolverKey, hash: ConfigHash, c: Configured)
    ensures multiset(Grouped(configured, key, hash))[c] == if KeyOf(c.1, hash) == key then multiset(configured)[c]
            else 0
  {
    if configured != [] {
      var n := |configured| - 1;
      GroupedCount(configured[..n], key, hash, c);
      assert configured == configured[..n] + [configured[n]];
    }
  }

  method DetermineConsensus(choices: seq<Choice>, hash: ConfigHash) returns (r: ConsensusResult)
    ensures IsConsensus(choices, hash, r)
  {
    EmptyWhenNone(choices);
    WithMembers(choices);
    if choices == [] {
      return AllNone;
    }
    var withResolver, withoutResolver := [], [];
    var groups: Groups := map[];
    for i := 0 to |choices|
      invariant withResolver == With(choices[..i]) && withoutResolver == Without(choices[..i])
      invariant AreGroups(groups, withResolver, hash)
    {
      assert choices[..i + 1][..i] == choices[..i];
      var (info, choice) := choices[i];
      match choice {
        case NoResolver =>
          withoutResolver := withoutResolver + [info];
        case Use(resolver) =>
          var key := KeyOf(resolver, hash);
          forall k { GroupedSnoc(withResolver, (info, resolver), k, hash); }
          withResolver := withResolver + [(info, resolver)];
          groups := groups[key := (if key in groups then groups[key] else []) + [(info, resolver)]];
      }
    }
    assert choices[..|choices|] == choices;
    GroupsCountKeys(choices, groups, hash);
    if withoutResolver == [] && |groups| == 1 {
      var key :| key in groups;
      var group := groups[key];
      SingleGroup(withResolver, groups, key, hash);
      if |group| == |withResolver| {
        return Agreed(group[0].1);
      }
    }
    if groups == map[] {
      return AllNone;
    }
    if withResolver != [] && withoutResolver != [] {
      return NoConsensus(withResolver, withoutResolver);
    }
    var flat := FlattenGroups(groups, withResolver, hash);
    return Ambiguous(flat);
  }

  lemma {:induction false} GroupedNonEmpty(configured: seq<Configured>, hash: ConfigHash)
    ensures forall c :: c in configured ==> Grouped(configured, KeyOf(c.1, hash), hash) != []
    ensures forall key :: Grouped(configured, key, hash) != [] ==> exists c ::
              c in configured && KeyOf(c.1, hash) == key
  {
    forall c | c in configured ensures Grouped(configured, KeyOf(c.1, hash), hash) != [] {
      GroupedCount(configured, KeyOf(c.1, hash), hash, c);
      assert c in multiset(Grouped(configured, KeyOf(c.1, hash), hash));
    }
    forall key | Grouped(configured, key, hash) != [] ensures exists c :: c in configured && KeyOf(c.1, hash) == key {
      var c := Grouped(configured, key, hash)[0];
      GroupedCount(configured, key, hash, c);
      assert c in multiset(Grouped(configured, key, hash));
      assert c in multiset(configured);
    }
  }

  lemma {:induction false} GroupsCountKeys(choices: seq<Choice>, groups: Groups, hash: ConfigHash)
    requires AreGroups(groups, With(choices), hash)
    ensures groups == map[] <==> !AnyResolver(choices)
    ensures AnyResolver(choices) ==> (|groups| == 1 <==> OneKey(choices, hash))
  {
    var configured := With(choices);
    EmptyWhenNone(choices);
    GroupedNonEmpty(configured, hash);
    if configured == [] {
      assert forall key :: Grouped(configured, key, hash) == [];
    } else {
      assert configured[0] in configured;
      assert KeyOf(configured[0].1, hash) in groups;
      if OneKey(choices, hash) {
        OneKeyOneGroup(choices, groups, hash);
      } else {
        TwoKeysTwoGroups(choices, groups, hash);
      }
    }
  }

  lemma {:induction false} OneKeyOneGroup(choices: seq<Choice>, groups: Groups, hash: ConfigHash)
    requires AreGroups(groups, With(choices), hash) && With(choices) != [] && OneKey(choices, hash)
    ensures |groups| == 1
  {
    var configured := With(choices);
    WithMembers(choices);
    GroupedNonEmpty(configured, hash);
    var c0 := configured[0];
    assert c0 in configured;
    forall key | key in groups ensures key == KeyOf(c0.1, hash) {
      var c :| c in configured && KeyOf(c.1, hash) == key;
      assert (c.0, Use(c.1)) in choices && (c0.0, Use(c0.1)) in choices;
    }
    assert groups.Keys == {KeyOf(c0.1, hash)};
  }

  lemma {:induction false} TwoKeysTwoGroups(choices: seq<Choice>, groups: Groups, hash: ConfigHash)
    requires AreGroups(groups, With(choices), hash) && !OneKey(choices, hash)
    ensures |groups| != 1
  {
    var configured := With(choices);
    WithMembers(choices);
    GroupedNonEmpty(configured, hash);
    var c, d :| c in choices && d in choices && c.1.Use? && d.1.Use?
      && KeyOf(c.1.resolver, hash) != KeyOf(d.1.resolver, hash);
    assert (c.0, c.1.resolver) in configured && (d.0, d.1.resolver) in configured;
    if |groups| == 1 {
      SingletonKeys(groups.Keys, KeyOf(c.1.resolver, hash), KeyOf(d.1.resolver, hash));
    }
  }

  lemma SingletonKeys<T>(s: set<T>, a: T, b: T)
    requires |s| == 1 && a in s && b in s
    ensures a == b
  {
    assert |s - {a}| == 0;
  }

  lemma {:induction false} SingleGroup(configured: seq<Configured>, groups: Groups, key: ResolverKey, hash: ConfigHash)
    requires AreGroups(groups, configured, hash) && |groups| == 1 && key in groups
    ensures groups[key] == configured != []
  {
    GroupedNonEmpty(configured, hash);
    forall c | c in configured ensures KeyOf(c.1, hash) == key {
      SingletonKeys(groups.Keys, key, KeyOf(c.1, hash));
    }
    AllGrouped(configured, key, hash);
  }

  lemma {:induction false} AllGrouped(configured: seq<Configured>, key: ResolverKey, hash: ConfigHash)
    requires forall c :: c in configured ==> KeyOf(c.1, hash) == key
    ensures Grouped(configured, key, hash) == configured
  {
    if configured != [] {
      var n := |configured| - 1;
      assert configured[n] in configured;
      AllGrouped(configured[..n], key, hash);
    }
  }

  /** Joins the groups in an arbitrary order. */
  method FlattenGroups(groups: Groups, ghost configured: seq<Configured>, ghost hash: ConfigHash)
      returns (flat: seq<Configured>)
    requires AreGroups(groups, configured, hash)
    ensures multiset(flat) == multiset(configured)
  {
    flat := [];
    var todo := groups.Keys;
    while todo != {}
      invariant todo <= groups.Keys
      invariant forall c :: multiset(flat)[c] ==
                            (if KeyOf(c.1, hash) in groups.Keys - todo then multiset(configured)[c] else 0)
      decreases |todo|
    {
      var key :| key in todo;
      forall c { GroupedCount(configured, key, hash, c); }
      flat := flat + groups[key];
      todo := todo - {key};
    }
    forall c ensures multiset(flat)[c] == multiset(configured)[c] {
      if c in configured {
        GroupedCount(configured, KeyOf(c.1, hash), hash, c);
        assert c in multiset(Grouped(configured, KeyOf(c.1, hash), hash));
      }
    }
  }
}
