/** Layering of template outputs.  The plain layerer overwrites layer by layer; the
    resolver-aware one goes path by path and lets an agreed resolver merge the contents. */
module Layerer {
  import opened Wrappers
  import opened Models
  import opened Consensus

  // ----------------------------------------------------- last writer wins

  /** Layers in order, later ones overwriting. */
  function Overwrite(layers: seq<Vfs>): Vfs {
    if layers == [] then map[] else Overwrite(layers[..|layers| - 1]) + layers[|layers| - 1]
  }

  /** Adds the files of one layer, in hash order. */
  method AddFiles(base: Vfs, layer: Vfs) returns (result: Vfs)
    ensures result == base + layer
  {
    result := base;
    var paths := layer.Keys;
    while paths != {}
      invariant paths <= layer.Keys
      invariant result.Keys == base.Keys + (layer.Keys - paths)
      invariant forall p :: p in result ==> result[p] == if p in layer && p !in paths then layer[p] else base[p]
      decreases |paths|
    {
      var path :| path in paths;
      result := result[path := layer[path]];
      paths := paths - {path};
    }
    assert result == base + layer;
  }

  method DefaultLayerMerge(layers: seq<Vfs>) returns (result: Vfs)
    ensures result == Overwrite(layers)
  {
    if layers == [] {
      return map[];
    }
    result := layers[0];
    assert layers[..1][..0] == [];
    for i := 1 to |layers|
      invariant result == Overwrite(layers[..i])
    {
      result := AddFiles(result, layers[i]);
      assert layers[..i + 1][..i] == layers[..i];
    }
    assert layers[..|layers|] == layers;
  }

  // -------------------------------------------------------- the registry

  type Registry = map<string, seq<ResolverInstance>>

  /** What layering asks of the outside: glob matching, configuration hashing, and the call to
      a resolver, which may fail. */
  datatype Services = Services(
    matches: (string, FilePath) -> bool,
    configHash: ConfigHash,
    resolve: (ResolverInstance, FilePath, seq<(TemplateInfo, Bytes)>) -> Option<Bytes>)

  function FirstMatching(resolvers: seq<ResolverInstance>, path: FilePath, services: Services): ResolverChoice {
    if resolvers == [] then NoResolver
    else if exists i :: 0 <= i < |resolvers[0].filePatterns| && services.matches(resolvers[0].filePatterns[i], path)
    then Use(resolvers[0])
    else FirstMatching(resolvers[1..], path, services)
  }

  function ChoiceFor(registry: Registry, templateId: string, path: FilePath, services: Services): ResolverChoice {
    if templateId in registry then FirstMatching(registry[templateId], path, services) else NoResolver
  }

  // ------------------------------------------------------ file variations

  datatype Variation = Variation(info: TemplateInfo, choice: ResolverChoice, content: Bytes)

  function Digits(n: nat): string {
    if n < 10 then [(('0' as int) + n) as char] else Digits(n / 10) + [(('0' as int) + n % 10) as char]
  }

  function InfoAt(infos: seq<TemplateInfo>, i: nat): TemplateInfo {
    if i < |infos| then infos[i] else TemplateInfo("unknown-" + Digits(i), 0, i)
  }

  /** One variation per layer that has the file, in layer order. */
  function Variations(infos: seq<TemplateInfo>, registry: Registry, path: FilePath, layers: seq<Vfs>,
                      services: Services): seq<Variation> {
    if layers == [] then []
    else
      var n := |layers| - 1;
      var before := Variations(infos, registry, path, layers[..n], services);
      if path !in layers[n] then before
      else
        var info := InfoAt(infos, n);
        before + [Variation(info, ChoiceFor(registry, info.templateId, path, services), layers[n][path])]
  }

  function Choices(variations: seq<Variation>): seq<Choice> {
    seq(|variations|, i requires 0 <= i < |variations| => (variations[i].info, variations[i].choice))
  }

  function Contents(variations: seq<Variation>): seq<(TemplateInfo, Bytes)> {
    seq(|variations|, i requires 0 <= i < |variations| => (variations[i].info, variations[i].content))
  }

  // ------------------------------------------------------ conflict entries

  datatype Resolution = ByResolver | LwwAllNoResolver | LwwNoConsensus | LwwAmbiguousResolver

  datatype ConflictEntry = ConflictEntry(
    path: FilePath,
    resolution: Resolution,
    resolverUsed: Option<ResolverInstance>,
    withResolver: Option<seq<Configured>>,
    withoutResolver: Option<seq<TemplateInfo>>,
    winner: Option<string>,
    variations: seq<string>)

  function VariationIds(variations: seq<Variation>): seq<string> {
    seq(|variations|, i requires 0 <= i < |variations| => variations[i].info.templateId)
  }

  /** The record of a conflict settled among two or more variations. */
  function EntryFor(path: FilePath, variations: seq<Variation>, hash: ConfigHash): ConflictEntry
    requires variations != []
  {
    var choices, ids := Choices(variations), VariationIds(variations);
    var winner := Some(variations[|variations| - 1].info.templateId);
    match ClassOf(choices, hash)
    case Unanimous =>
      var used := if With(choices) == [] then None else Some(With(choices)[0].1);
      ConflictEntry(path, ByResolver, used, None, None, None, ids)
    case NobodyHasOne => ConflictEntry(path, LwwAllNoResolver, None, None, None, winner, ids)
    case Mixed => ConflictEntry(path, LwwNoConsensus, None, Some(With(choices)), Some(Without(choices)), winner, ids)
    case Many => ConflictEntry(path, LwwAmbiguousResolver, None, None, None, winner, ids)
  }

  predicate AgreeOnResolver(variations: seq<Variation>, hash: ConfigHash) {
    |variations| > 1 && ClassOf(Choices(variations), hash).Unanimous?
  }

  /** Contents of one path, None when the agreed resolver fails. */
  function ContentFor(path: FilePath, variations: seq<Variation>, services: Services): Option<Bytes>
    requires variations != []
  {
    var choices := Choices(variations);
    if AgreeOnResolver(variations, services.configHash) then
      if With(choices) == [] then None
      else services.resolve(With(choices)[0].1, path, Contents(variations))
    else Some(variations[|variations| - 1].content)
  }

  // -------------------------------------------------- the reference result

  function AllPaths(layers: seq<Vfs>): set<FilePath> {
    if layers == [] then {} else AllPaths(layers[..|layers| - 1]) + layers[|layers| - 1].Keys
  }

  datatype Layering = Layering(infos: seq<TemplateInfo>, registry: Registry, services: Services) {
    function At(path: FilePath, layers: seq<Vfs>): seq<Variation> {
      Variations(infos, registry, path, layers, services)
    }

    /** The final contents of a path; None when nobody has it or its resolver fails. */
    function Settled(path: FilePath, layers: seq<Vfs>): Option<Bytes> {
      var variations := At(path, layers);
      if variations == [] then None else ContentFor(path, variations, services)
    }

    /** None when some path cannot be resolved. */
    function Merge(layers: seq<Vfs>): Option<Vfs> {
      if forall p :: p in AllPaths(layers) ==> Settled(p, layers).Some?
      then Some(map p | p in AllPaths(layers) :: Settled(p, layers).value)
      else None
    }

    /** The settled conflicts: one entry for each path with two or more producers. */
    function Conflicts(layers: seq<Vfs>): map<FilePath, ConflictEntry> {
      map p | p in AllPaths(layers) && |At(p, layers)| > 1 :: EntryFor(p, At(p, layers), services.configHash)
    }
  }

  /** `entries` lists the values of `ledger`, each once. */
  ghost predicate Lists(entries: seq<ConflictEntry>, ledger: map<FilePath, ConflictEntry>) {
    && |entries| == |ledger|
    && (forall i :: 0 <= i < |entries| ==> entries[i].path in ledger && ledger[entries[i].path] == entries[i])
    && (forall i, j :: 0 <= i < j < |entries| ==> entries[i].path != entries[j].path)
  }

  // ------------------------------------------------------------- the code

  /** `paths` enumerates the set `seen`. */
  ghost predicate Enumerates(paths: seq<FilePath>, seen: set<FilePath>) {
    && (forall p :: p in paths <==> p in seen)
    && (forall i, j :: 0 <= i < j < |paths| ==> paths[i] != paths[j])
  }

  /** Appends the unseen paths of one layer, in an order that depends on hashing. */
  method CollectPaths(layer: Vfs, paths0: seq<FilePath>, seen0: set<FilePath>)
      returns (paths: seq<FilePath>, seen: set<FilePath>)
    requires Enumerates(paths0, seen0)
    ensures Enumerates(paths, seen) && seen == seen0 + layer.Keys
  {
    paths, seen := paths0, seen0;
    var todo := layer.Keys;
    while todo != {}
      invariant todo <= layer.Keys
      invariant Enumerates(paths, seen)
      invariant seen == seen0 + (layer.Keys - todo)
      decreases |todo|
    {
      var path :| path in todo;
      todo := todo - {path};
      if path !in seen {
        seen := seen + {path};
        paths := paths + [path];
      }
    }
  }

  /** All paths, each once. */
  method CollectAllPaths(layers: seq<Vfs>) returns (paths: seq<FilePath>)
    ensures Enumerates(paths, AllPaths(layers))
  {
    paths := [];
    var seen: set<FilePath> := {};
    for i := 0 to |layers|
      invariant Enumerates(paths, seen)
      invariant seen == AllPaths(layers[..i])
    {
      paths, seen := CollectPaths(layers[i], paths, seen);
      assert layers[..i + 1][..i] == layers[..i];
    }
    assert layers[..|layers|] == layers;
  }

  method GetFileVariations(l: Layering, path: FilePath, layers: seq<Vfs>) returns (variations: seq<Variation>)
    ensures variations == l.At(path, layers)
  {
    variations := [];
    for i := 0 to |layers|
      invariant variations == l.At(path, layers[..i])
    {
      assert layers[..i + 1][..i] == layers[..i];
      if path in layers[i] {
        var info := InfoAt(l.infos, i);
        var choice := ChoiceFor(l.registry, info.templateId, path, l.services);
        variations := variations + [Variation(info, choice, layers[i][path])];
      }
    }
    assert layers[..|layers|] == layers;
  }

  class ResolverAwareLayerer {
    const layering: Layering
    var conflicts: seq<ConflictEntry>

    constructor (layering: Layering)
      ensures this.layering == layering && conflicts == []
    {
      this.layering := layering;
      conflicts := [];
    }

    /** Settles one path: its contents, and the conflict entry when it has several producers. */
    method MergePath(path: FilePath, variations: seq<Variation>) returns (content: Option<Bytes>)
      requires variations != []
      modifies this
      ensures content == ContentFor(path, variations, layering.services)
      ensures conflicts == if content.Some? && |variations| > 1
                           then old(conflicts) + [EntryFor(path, variations, layering.services.configHash)]
                           else old(conflicts)
    {
      if |variations| == 1 {
        return Some(variations[0].content);
      }
      var choices := Choices(variations);
      var consensus := DetermineConsensus(choices, layering.services.configHash);
      var last := variations[|variations| - 1];
      var ids := VariationIds(variations);
      match consensus {
        case Agreed(resolver) =>
          content := layering.services.resolve(resolver, path, Contents(variations));
          if content.None? {
            return;
          }
          conflicts := conflicts + [ConflictEntry(path, ByResolver, Some(resolver), None, None, None, ids)];
        case AllNone =>
          content := Some(last.content);
          conflicts := conflicts + [ConflictEntry(path, LwwAllNoResolver, None, None, None,
                                                  Some(last.info.templateId), ids)];
        case NoConsensus(withResolver, withoutResolver) =>
          content := Some(last.content);
          conflicts := conflicts + [ConflictEntry(path, LwwNoConsensus, None, Some(withResolver), Some(withoutResolver),
                                                  Some(last.info.templateId), ids)];
        case Ambiguous(_) =>
          content := Some(last.content);
          conflicts := conflicts + [ConflictEntry(path, LwwAmbiguousResolver, None, None, None,
                                                  Some(last.info.templateId), ids)];
      }
    }

    method LayerMerge(layers: seq<Vfs>) returns (result: Option<Vfs>)
      modifies this
      ensures result == layering.Merge(layers)
      ensures result.Some? ==> Lists(conflicts, layering.Conflicts(layers))
    {
      conflicts := [];
      if |layers| <= 1 {
        SingleLayer(layering, layers);
        return Some(if layers == [] then map[] else layers[0]);
      }
      var allPaths := CollectAllPaths(layers);
      result := MergePaths(layers, allPaths);
    }

    method MergePaths(layers: seq<Vfs>, allPaths: seq<FilePath>) returns (result: Option<Vfs>)
      requires Enumerates(allPaths, AllPaths(layers)) && conflicts == []
      modifies this
      ensures result == layering.Merge(layers)
      ensures result.Some? ==> Lists(conflicts, layering.Conflicts(layers))
    {
      var merged: Vfs := map[];
      assert IsProgress(layering, layers, {}, merged, conflicts);
      for i := 0 to |allPaths|
        invariant IsProgress(layering, layers, Elements(allPaths[..i]), merged, conflicts)
      {
        var path := allPaths[i];
        NextElement(allPaths, i);
        PathsProduced(layering, layers, path);
        var variations := GetFileVariations(layering, path, layers);
        ghost var before := conflicts;
        var content := MergePath(path, variations);
        if content.None? {
          assert path in AllPaths(layers);
          return None;
        }
        ProgressStep(layering, layers, Elements(allPaths[..i]), path, merged, content.value, before, conflicts);
        merged := merged[path := content.value];
      }
      assert Elements(allPaths[..|allPaths|]) == AllPaths(layers);
      WholeMerge(layering, layers, merged, conflicts);
      return Some(merged);
    }
  }

  function Elements(paths: seq<FilePath>): set<FilePath> { set p | p in paths }

  lemma NextElement(paths: seq<FilePath>, i: nat)
    requires i < |paths| && forall j, k :: 0 <= j < k < |paths| ==> paths[j] != paths[k]
    ensures paths[i] !in Elements(paths[..i])
    ensures Elements(paths[..i + 1]) == Elements(paths[..i]) + {paths[i]}
    ensures paths[i] in paths
  {
  }

  /** The paths in `done` are settled, nothing else is, and their conflicts are listed. */
  ghost predicate IsProgress(l: Layering, layers: seq<Vfs>, done: set<FilePath>, merged: Vfs,
                             conflicts: seq<ConflictEntry>) {
    && merged.Keys == done
    && (forall p :: p in done ==> l.Settled(p, layers) == Some(merged[p]))
    && Lists(conflicts, LedgerOn(l, layers, done))
  }

  lemma ProgressStep(l: Layering, layers: seq<Vfs>, done: set<FilePath>, path: FilePath, merged: Vfs, content: Bytes,
                     before: seq<ConflictEntry>, after: seq<ConflictEntry>)
    requires IsProgress(l, layers, done, merged, before)
    requires path !in done && l.Settled(path, layers) == Some(content)
    requires after == if |l.At(path, layers)| > 1
                      then before + [EntryFor(path, l.At(path, layers), l.services.configHash)] else before
    ensures IsProgress(l, layers, done + {path}, merged[path := content], after)
  {
    hide Lists, LedgerOn, EntryFor, Variations, ContentFor;
    var next := merged[path := content];
    assert next.Keys == done + {path};
    forall p | p in done + {path} ensures l.Settled(p, layers) == Some(next[p]) {
      if p != path { assert next[p] == merged[p]; }
    }
    ListsNext(l, layers, done, path, before, after);
  }

  lemma {:induction false} WholeMerge(l: Layering, layers: seq<Vfs>, merged: Vfs, conflicts: seq<ConflictEntry>)
    requires IsProgress(l, layers, AllPaths(layers), merged, conflicts)
    ensures l.Merge(layers) == Some(merged)
    ensures Lists(conflicts, l.Conflicts(layers))
  {
    assert LedgerOn(l, layers, AllPaths(layers)) == l.Conflicts(layers);
    assert l.Merge(layers).Some?;
    assert l.Merge(layers).value == merged;
  }

  ghost function LedgerOn(l: Layering, layers: seq<Vfs>, paths: set<FilePath>): map<FilePath, ConflictEntry> {
    map p | p in paths && |l.At(p, layers)| > 1 :: EntryFor(p, l.At(p, layers), l.services.configHash)
  }

  lemma ListsNext(l: Layering, layers: seq<Vfs>, done: set<FilePath>, path: FilePath,
                  before: seq<ConflictEntry>, after: seq<ConflictEntry>)
    requires path !in done && Lists(before, LedgerOn(l, layers, done))
    requires after == if |l.At(path, layers)| > 1
                      then before + [EntryFor(path, l.At(path, layers), l.services.configHash)] else before
    ensures Lists(after, LedgerOn(l, layers, done + {path}))
  {
    hide Lists, Variations, VariationIds, AgreeOnResolver;
    var ledger, next := LedgerOn(l, layers, done), LedgerOn(l, layers, done + {path});
    assert path !in ledger;
    if |l.At(path, layers)| > 1 {
      var entry := EntryFor(path, l.At(path, layers), l.services.configHash);
      assert next == ledger[path := entry];
      ListsSnoc(before, ledger, path, entry);
    } else {
      assert next == ledger;
    }
  }

  lemma ListsSnoc(entries: seq<ConflictEntry>, ledger: map<FilePath, ConflictEntry>, path: FilePath,
                  entry: ConflictEntry)
    requires Lists(entries, ledger) && path !in ledger && entry.path == path
    ensures Lists(entries + [entry], ledger[path := entry])
  {
    assert ledger[path := entry].Keys == ledger.Keys + {path};
  }

  // --------------------------------------------------------- properties

  /** A path belongs to the union exactly when some layer has it, and then it has variations. */
  lemma {:induction false} PathsProduced(l: Layering, layers: seq<Vfs>, p: FilePath)
    ensures p in AllPaths(layers) <==> exists i :: 0 <= i < |layers| && p in layers[i]
    ensures p in AllPaths(layers) <==> l.At(p, layers) != []
  {
    if layers != [] {
      var n := |layers| - 1;
      PathsProduced(l, layers[..n], p);
      assert layers == layers[..n] + [layers[n]];
    }
  }

  lemma SingleLayer(l: Layering, layers: seq<Vfs>)
    requires |layers| <= 1
    ensures l.Merge(layers) == Some(if layers == [] then map[] else layers[0])
    ensures l.Conflicts(layers) == map[]
  {
    if layers != [] {
      assert layers[..0] == [] && AllPaths(layers) == layers[0].Keys;
      forall p | p in layers[0] ensures |l.At(p, layers)| == 1 && l.At(p, layers)[0].content == layers[0][p] {
        assert l.At(p, layers[..0]) == [];
      }
      assert l.Merge(layers).value == layers[0];
    }
  }

  ghost predicate IsLastProducer(layers: seq<Vfs>, p: FilePath, i: nat) {
    i < |layers| && p in layers[i] && forall j :: i < j < |layers| ==> p !in layers[j]
  }

  /** Overwriting leaves, at each path, the contents of its last producer. */
  lemma {:induction false} OverwriteIsLastProducer(layers: seq<Vfs>, p: FilePath)
    ensures p in Overwrite(layers) <==> p in AllPaths(layers)
    ensures p in AllPaths(layers) ==>
              exists i: nat :: IsLastProducer(layers, p, i) && Overwrite(layers)[p] == layers[i][p]
  {
    if layers != [] {
      var n := |layers| - 1;
      OverwriteIsLastProducer(layers[..n], p);
      if p in layers[n] {
        assert IsLastProducer(layers, p, n);
      } else if p in AllPaths(layers[..n]) {
        var i: nat :| IsLastProducer(layers[..n], p, i) && Overwrite(layers[..n])[p] == layers[..n][i][p];
        assert IsLastProducer(layers, p, i);
      }
    }
  }

  /** The last variation comes from the last producer. */
  lemma {:induction false} LastVariation(l: Layering, layers: seq<Vfs>, p: FilePath, i: nat)
    requires IsLastProducer(layers, p, i)
    ensures var v := l.At(p, layers);
            v != [] && v[|v| - 1].content == layers[i][p] && v[|v| - 1].info == InfoAt(l.infos, i)
  {
    var n := |layers| - 1;
    if i < n {
      LastVariation(l, layers[..n], p, i);
    }
  }

  /** Going path by path agrees with overwriting layer by layer on every path whose producers
      do not agree on a resolver; both cover the union of all paths. */
  lemma {:induction false} MergeAgreesWithOverwrite(l: Layering, layers: seq<Vfs>)
    requires l.Merge(layers).Some?
    ensures var merged := l.Merge(layers).value;
            && merged.Keys == Overwrite(layers).Keys == AllPaths(layers)
            && forall p :: p in merged && !AgreeOnResolver(l.At(p, layers), l.services.configHash) ==>
                 merged[p] == Overwrite(layers)[p]
  {
    var merged := l.Merge(layers).value;
    forall p ensures p in Overwrite(layers) <==> p in AllPaths(layers) { OverwriteIsLastProducer(layers, p); }
    forall p | p in merged && !AgreeOnResolver(l.At(p, layers), l.services.configHash)
      ensures merged[p] == Overwrite(layers)[p]
    {
      SettledByLastWriter(l, layers, p);
    }
  }

  lemma {:induction false} SettledByLastWriter(l: Layering, layers: seq<Vfs>, p: FilePath)
    requires p in AllPaths(layers) && !AgreeOnResolver(l.At(p, layers), l.services.configHash)
    ensures p in Overwrite(layers) && l.Settled(p, layers) == Some(Overwrite(layers)[p])
  {
    OverwriteIsLastProducer(layers, p);
    var i: nat :| IsLastProducer(layers, p, i) && Overwrite(layers)[p] == layers[i][p];
    LastVariation(l, layers, p, i);
  }

  lemma {:induction false} NoResolversRegistered(l: Layering, layers: seq<Vfs>, p: FilePath)
    requires l.registry == map[]
    ensures forall v :: v in l.At(p, layers) ==> v.choice.NoResolver?
  {
    if layers != [] {
      NoResolversRegistered(l, layers[..|layers| - 1], p);
    }
  }

  /** Without resolvers the two layerers are equal, on every list of layers. */
  lemma {:induction false} EmptyRegistryIsOverwrite(l: Layering, layers: seq<Vfs>)
    requires l.registry == map[]
    ensures l.Merge(layers) == Some(Overwrite(layers))
  {
    forall p ensures p in Overwrite(layers) <==> p in AllPaths(layers) { OverwriteIsLastProducer(layers, p); }
    forall p | p in AllPaths(layers) ensures l.Settled(p, layers) == Some(Overwrite(layers)[p]) {
      NobodyAgrees(l, layers, p);
      SettledByLastWriter(l, layers, p);
    }
    assert l.Merge(layers).Some?;
    assert l.Merge(layers).value == Overwrite(layers);
  }

  lemma NobodyAgrees(l: Layering, layers: seq<Vfs>, p: FilePath)
    requires l.registry == map[]
    ensures !AgreeOnResolver(l.At(p, layers), l.services.configHash)
  {
    NoResolversRegistered(l, layers, p);
    var choices := Choices(l.At(p, layers));
    assert forall c :: c in choices ==> c.1.NoResolver?;
  }

  /** The ledger after a merge: an entry for exactly the paths with several producers, naming
      the last producer as winner in each last-writer-wins class. */
  lemma LedgerNamesLastProducer(l: Layering, layers: seq<Vfs>, p: FilePath, i: nat)
    requires IsLastProducer(layers, p, i)
    ensures p in l.Conflicts(layers) <==> exists j :: 0 <= j < i && p in layers[j]
    ensures p in l.Conflicts(layers) ==>
              var entry := l.Conflicts(layers)[p];
              && entry.path == p
              && (entry.resolution.ByResolver? <==> AgreeOnResolver(l.At(p, layers), l.services.configHash))
              && (!entry.resolution.ByResolver? ==> entry.winner == Some(InfoAt(l.infos, i).templateId))
              && (entry.resolution.ByResolver? ==> entry.winner == None && entry.resolverUsed.Some?)
  {
    PathsProduced(l, layers, p);
    LastVariation(l, layers, p, i);
    ManyVariations(l, layers, p, i);
    EmptyWhenNone(Choices(l.At(p, layers)));
  }

  lemma {:induction false} ManyVariations(l: Layering, layers: seq<Vfs>, p: FilePath, i: nat)
    requires IsLastProducer(layers, p, i)
    ensures |l.At(p, layers)| > 1 <==> exists j :: 0 <= j < i && p in layers[j]
  {
    var n := |layers| - 1;
    if i < n {
      ManyVariations(l, layers[..n], p, i);
    } else {
      PathsProduced(l, layers[..n], p);
    }
  }

  // ------------------------------------------- what a resolver gets to see

  ghost predicate MatchesPath(r: ResolverInstance, path: FilePath, services: Services) {
    exists i :: 0 <= i < |r.filePatterns| && services.matches(r.filePatterns[i], path)
  }

  /** Of the resolvers registered for the template, the one at `i` is the first that matches. */
  ghost predicate FirstAt(registry: Registry, templateId: string, path: FilePath, services: Services, i: nat) {
    && templateId in registry && i < |registry[templateId]| && MatchesPath(registry[templateId][i], path, services)
    && forall j :: 0 <= j < i ==> !MatchesPath(registry[templateId][j], path, services)
  }

  /** Some registered resolver matches, and `r` is the first that does. */
  ghost predicate Chosen(registry: Registry, templateId: string, path: FilePath, services: Services,
                         r: ResolverInstance) {
    exists i: nat :: FirstAt(registry, templateId, path, services, i) && registry[templateId][i] == r
  }

  lemma {:induction false} FirstMatchingExact(resolvers: seq<ResolverInstance>, path: FilePath, services: Services,
                                              r: ResolverInstance)
    ensures FirstMatching(resolvers, path, services) == Use(r) <==>
            exists i: nat :: FirstAt(map["" := resolvers], "", path, services, i) && resolvers[i] == r
  {
    if resolvers != [] {
      var all, tail := map["" := resolvers], map["" := resolvers[1..]];
      FirstMatchingExact(resolvers[1..], path, services, r);
      if MatchesPath(resolvers[0], path, services) {
        assert FirstAt(all, "", path, services, 0);
      } else {
        if i: nat :| FirstAt(tail, "", path, services, i) && resolvers[1..][i] == r {
          assert FirstAt(all, "", path, services, i + 1);
        }
        if i: nat :| FirstAt(all, "", path, services, i) && resolvers[i] == r {
          assert FirstAt(tail, "", path, services, i - 1);
        }
      }
    }
  }

  /** The choice for a template and a path is the first of its registered resolvers with a
      matching pattern. */
  lemma ChoiceExact(registry: Registry, templateId: string, path: FilePath, services: Services, r: ResolverInstance)
    ensures ChoiceFor(registry, templateId, path, services) == Use(r) <==>
            Chosen(registry, templateId, path, services, r)
  {
    if templateId in registry {
      var alone := map["" := registry[templateId]];
      FirstMatchingExact(registry[templateId], path, services, r);
      forall i: nat ensures FirstAt(alone, "", path, services, i) <==>
          FirstAt(registry, templateId, path, services, i) {}
    }
  }

  /** The layers that have the path, in order. */
  function Producers(layers: seq<Vfs>, p: FilePath): seq<nat> {
    if layers == [] then []
    else
      var n := |layers| - 1;
      Producers(layers[..n], p) + (if p in layers[n] then [n] else [])
  }

  lemma {:induction false} ProducersExact(layers: seq<Vfs>, p: FilePath)
    ensures forall i: nat :: i in Producers(layers, p) <==> i < |layers| && p in layers[i]
    ensures forall j, k :: 0 <= j < k < |Producers(layers, p)| ==> Producers(layers, p)[j] < Producers(layers, p)[k]
  {
    if layers != [] {
      var n := |layers| - 1;
      ProducersExact(layers[..n], p);
      assert layers == layers[..n] + [layers[n]];
      forall k | 0 <= k < |Producers(layers[..n], p)| ensures Producers(layers[..n], p)[k] < n {
        assert Producers(layers[..n], p)[k] in Producers(layers[..n], p);
      }
    }
  }

  /** What each producer contributes, in layer order. */
  function Inputs(l: Layering, layers: seq<Vfs>, p: FilePath): seq<(TemplateInfo, Bytes)>
    requires |layers| <= |l.infos|
  {
    var order := Producers(layers, p);
    seq(|order|, k requires 0 <= k < |order| =>
      var i := order[k]; ProducersExact(layers, p); assert i in order; (l.infos[i], layers[i][p]))
  }

  lemma {:induction false} VariationsAre(l: Layering, layers: seq<Vfs>, p: FilePath)
    requires |layers| <= |l.infos|
    ensures var inputs := Inputs(l, layers, p);
            && |l.At(p, layers)| == |inputs| == |Producers(layers, p)|
            && forall k :: 0 <= k < |inputs| ==>
                 l.At(p, layers)[k] == Variation(inputs[k].0, ChoiceFor(l.registry, inputs[k].0.templateId, p,
                                                                        l.services), inputs[k].1)
  {
    if layers != [] {
      var n := |layers| - 1;
      VariationsAre(l, layers[..n], p);
      ProducersExact(layers[..n], p);
      var before, order := Producers(layers[..n], p), Producers(layers, p);
      forall k | 0 <= k < |before| ensures Inputs(l, layers, p)[k] == Inputs(l, layers[..n], p)[k] {
        assert order[k] == before[k] && before[k] in before;
      }
    }
  }

  /** Same image, tag and configuration hash. */
  ghost predicate SameResolver(a: ResolverInstance, b: ResolverInstance, hash: ConfigHash) {
    a.dockerRef == b.dockerRef && a.dockerTag == b.dockerTag && hash(a.config) == hash(b.config)
  }

  ghost predicate HasResolver(l: Layering, info: TemplateInfo, p: FilePath) {
    exists r :: Chosen(l.registry, info.templateId, p, l.services, r)
  }

  ghost predicate AllHaveOne(l: Layering, inputs: seq<(TemplateInfo, Bytes)>, p: FilePath) {
    forall k :: 0 <= k < |inputs| ==> HasResolver(l, inputs[k].0, p)
  }

  ghost predicate SomeHasOne(l: Layering, inputs: seq<(TemplateInfo, Bytes)>, p: FilePath) {
    exists k :: 0 <= k < |inputs| && HasResolver(l, inputs[k].0, p)
  }

  /** The resolvers that producers have for the path are all the same. */
  ghost predicate AllTheSame(l: Layering, inputs: seq<(TemplateInfo, Bytes)>, p: FilePath) {
    forall j, k, r, q :: 0 <= j < |inputs| && 0 <= k < |inputs|
                         && Chosen(l.registry, inputs[j].0.templateId, p, l.services, r)
                         && Chosen(l.registry, inputs[k].0.templateId, p, l.services, q) ==>
                         SameResolver(r, q, l.services.configHash)
  }

  lemma ChoicesAre(l: Layering, layers: seq<Vfs>, p: FilePath)
    requires |layers| <= |l.infos|
    ensures var choices, inputs := Choices(l.At(p, layers)), Inputs(l, layers, p);
            && |choices| == |inputs|
            && forall k :: 0 <= k < |inputs| ==>
                 && choices[k].0 == inputs[k].0
                 && (choices[k].1.Use? <==> HasResolver(l, inputs[k].0, p))
                 && forall r :: choices[k].1 == Use(r) <==> Chosen(l.registry, inputs[k].0.templateId, p, l.services, r)
  {
    hide FirstMatching, Chosen;
    VariationsAre(l, layers, p);
    var choices, inputs := Choices(l.At(p, layers)), Inputs(l, layers, p);
    forall k, r | 0 <= k < |inputs|
      ensures choices[k].1 == Use(r) <==> Chosen(l.registry, inputs[k].0.templateId, p, l.services, r)
    {
      ChoiceExact(l.registry, inputs[k].0.templateId, p, l.services, r);
    }
    forall k | 0 <= k < |inputs| ensures choices[k].1.Use? <==> HasResolver(l, inputs[k].0, p) {
      if choices[k].1.Use? {
        ChoiceExact(l.registry, inputs[k].0.templateId, p, l.services, choices[k].1.resolver);
      }
      if r :| Chosen(l.registry, inputs[k].0.templateId, p, l.services, r) {
        ChoiceExact(l.registry, inputs[k].0.templateId, p, l.services, r);
      }
    }
  }

  /** How a path with several producers is settled, from layers, infos and registry alone: by a
      resolver exactly when all have one and it is the same, else by the last writer, in the
      class that says who has one. */
  lemma {:induction false} LedgerExact(l: Layering, layers: seq<Vfs>, p: FilePath)
    requires |layers| <= |l.infos| && |Producers(layers, p)| > 1
    ensures p in l.Conflicts(layers)
    ensures var resolution, inputs := l.Conflicts(layers)[p].resolution, Inputs(l, layers, p);
            && (resolution == ByResolver <==> AllHaveOne(l, inputs, p) && AllTheSame(l, inputs, p))
            && (resolution == LwwAllNoResolver <==> !SomeHasOne(l, inputs, p))
            && (resolution == LwwNoConsensus <==> SomeHasOne(l, inputs, p) && !AllHaveOne(l, inputs, p))
            && (resolution == LwwAmbiguousResolver <==>
                  AllHaveOne(l, inputs, p) && SomeHasOne(l, inputs, p) && !AllTheSame(l, inputs, p))
  {
    hide Variations, Inputs, AllHaveOne, SomeHasOne, AllTheSame, AnyResolver, AnyNone, OneKey, Choices, With, Without;
    PathsProduced(l, layers, p);
    VariationsAre(l, layers, p);
    ClassExact(l, layers, p);
  }

  /** Where some producers have a resolver and others none, the ledger lists who has which, and
      who has none; nowhere else does it.  It always names all producers, in layer order. */
  lemma {:induction false} LedgerListsWho(l: Layering, layers: seq<Vfs>, p: FilePath)
    requires |layers| <= |l.infos| && |Producers(layers, p)| > 1
    ensures p in l.Conflicts(layers)
    ensures var entry, inputs := l.Conflicts(layers)[p], Inputs(l, layers, p);
            && entry.variations == seq(|inputs|, k requires 0 <= k < |inputs| => inputs[k].0.templateId)
            && (entry.withResolver.Some? <==> entry.resolution == LwwNoConsensus)
            && (entry.withoutResolver.Some? <==> entry.resolution == LwwNoConsensus)
            && (entry.resolution == LwwNoConsensus ==>
                  && |entry.withResolver.value| + |entry.withoutResolver.value| == |inputs|
                  && (forall info, r :: (info, r) in entry.withResolver.value <==> Holds(l, inputs, p, info, r))
                  && (forall info :: info in entry.withoutResolver.value <==> LacksOne(l, inputs, p, info)))
  {
    hide Variations, Inputs, Chosen, HasResolver, AnyResolver, AnyNone, OneKey, With, Without;
    PathsProduced(l, layers, p);
    VariationsAre(l, layers, p);
    ChoicesAre(l, layers, p);
    var choices, inputs := Choices(l.At(p, layers)), Inputs(l, layers, p);
    WithMembers(choices);
    forall info, r ensures (info, Use(r)) in choices <==> Holds(l, inputs, p, info, r) {
      if k :| 0 <= k < |inputs| && inputs[k].0 == info && Chosen(l.registry, info.templateId, p, l.services, r) {
        assert choices[k] == (info, Use(r));
      }
    }
    forall info ensures (info, NoResolver) in choices <==> LacksOne(l, inputs, p, info) {
      if k :| 0 <= k < |inputs| && inputs[k].0 == info && !HasResolver(l, info, p) {
        assert choices[k] == (info, NoResolver);
      }
    }
  }

  /** The producer's first matching resolver is `r`. */
  ghost predicate Holds(l: Layering, inputs: seq<(TemplateInfo, Bytes)>, p: FilePath, info: TemplateInfo,
                        r: ResolverInstance) {
    exists k :: 0 <= k < |inputs| && inputs[k].0 == info && Chosen(l.registry, info.templateId, p, l.services, r)
  }

  ghost predicate LacksOne(l: Layering, inputs: seq<(TemplateInfo, Bytes)>, p: FilePath, info: TemplateInfo) {
    exists k :: 0 <= k < |inputs| && inputs[k].0 == info && !HasResolver(l, info, p)
  }

  lemma ClassExact(l: Layering, layers: seq<Vfs>, p: FilePath)
    requires |layers| <= |l.infos|
    ensures var choices, inputs := Choices(l.At(p, layers)), Inputs(l, layers, p);
            && (AnyResolver(choices) <==> SomeHasOne(l, inputs, p))
            && (AnyNone(choices) <==> !AllHaveOne(l, inputs, p))
            && (OneKey(choices, l.services.configHash) <==> AllTheSame(l, inputs, p))
            && (inputs != [] && AllHaveOne(l, inputs, p) ==> SomeHasOne(l, inputs, p))
  {
    hide Variations, Inputs, HasResolver, Chosen, OneKey, AllTheSame;
    ChoicesAre(l, layers, p);
    KeysExact(l, layers, p);
    var choices, inputs := Choices(l.At(p, layers)), Inputs(l, layers, p);
    if inputs != [] && AllHaveOne(l, inputs, p) { assert HasResolver(l, inputs[0].0, p); }
    if AnyResolver(choices) {
      var c :| c in choices && c.1.Use?;
      var k :| 0 <= k < |choices| && choices[k] == c;
      assert HasResolver(l, inputs[k].0, p);
    }
    if k :| 0 <= k < |inputs| && HasResolver(l, inputs[k].0, p) {
      assert choices[k] in choices && choices[k].1.Use?;
    }
    if AnyNone(choices) {
      var c :| c in choices && c.1.NoResolver?;
      var k :| 0 <= k < |choices| && choices[k] == c;
      assert !HasResolver(l, inputs[k].0, p);
    }
    if k :| 0 <= k < |inputs| && !HasResolver(l, inputs[k].0, p) {
      assert choices[k] in choices && choices[k].1.NoResolver?;
    }
  }

  lemma KeysExact(l: Layering, layers: seq<Vfs>, p: FilePath)
    requires |layers| <= |l.infos|
    ensures OneKey(Choices(l.At(p, layers)), l.services.configHash) <==> AllTheSame(l, Inputs(l, layers, p), p)
  {
    hide Variations, Inputs, HasResolver, Chosen;
    ChoicesAre(l, layers, p);
    var choices, inputs, hash := Choices(l.At(p, layers)), Inputs(l, layers, p), l.services.configHash;
    if OneKey(choices, hash) {
      forall j, k, r, q | 0 <= j < |inputs| && 0 <= k < |inputs|
                          && Chosen(l.registry, inputs[j].0.templateId, p, l.services, r)
                          && Chosen(l.registry, inputs[k].0.templateId, p, l.services, q)
        ensures SameResolver(r, q, hash)
      {
        assert choices[j] in choices && choices[k] in choices;
        assert KeyOf(r, hash) == KeyOf(q, hash);
      }
    }
    if AllTheSame(l, inputs, p) {
      forall c, d | c in choices && d in choices && c.1.Use? && d.1.Use?
        ensures KeyOf(c.1.resolver, hash) == KeyOf(d.1.resolver, hash)
      {
        var j :| 0 <= j < |choices| && choices[j] == c;
        var k :| 0 <= k < |choices| && choices[k] == d;
        assert SameResolver(c.1.resolver, d.1.resolver, hash);
      }
    }
  }

  lemma {:induction false} FirstWith(choices: seq<Choice>)
    requires choices != [] && choices[0].1.Use?
    ensures With(choices) != [] && With(choices)[0] == (choices[0].0, choices[0].1.resolver)
  {
    if |choices| > 1 { FirstWith(choices[..|choices| - 1]); }
  }

  /** Where all of several producers have the same resolver, the merged file is what that of the
      first makes of all their contents, in layer order, and the ledger says so. */
  lemma {:induction false} AgreedResolverMerges(l: Layering, layers: seq<Vfs>, p: FilePath, r: ResolverInstance)
    requires |layers| <= |l.infos| && |Producers(layers, p)| > 1
    requires AllHaveOne(l, Inputs(l, layers, p), p) && AllTheSame(l, Inputs(l, layers, p), p)
    requires Chosen(l.registry, Inputs(l, layers, p)[0].0.templateId, p, l.services, r)
    ensures var inputs := Inputs(l, layers, p);
            && (l.Merge(layers).Some? ==>
                  p in l.Merge(layers).value && l.services.resolve(r, p, inputs) == Some(l.Merge(layers).value[p]))
            && (l.services.resolve(r, p, inputs).None? ==> l.Merge(layers).None?)
            && p in l.Conflicts(layers)
            && l.Conflicts(layers)[p] ==
               ConflictEntry(p, ByResolver, Some(r), None, None, None,
                             seq(|inputs|, k requires 0 <= k < |inputs| => inputs[k].0.templateId))
  {
    hide Variations, Inputs, Chosen, With, AllHaveOne, SomeHasOne, AllTheSame, AnyResolver, AnyNone, OneKey;
    ChoicesAre(l, layers, p);
    VariationsAre(l, layers, p);
    ClassExact(l, layers, p);
    AgreementExact(l, layers, p);
    FirstWith(Choices(l.At(p, layers)));
    assert Contents(l.At(p, layers)) == Inputs(l, layers, p);
    assert l.Settled(p, layers) == l.services.resolve(r, p, Inputs(l, layers, p));
    SettledIsMerged(l, layers, p);
  }

  lemma {:induction false} SettledIsMerged(l: Layering, layers: seq<Vfs>, p: FilePath)
    requires l.At(p, layers) != []
    ensures p in AllPaths(layers) && (l.Settled(p, layers).None? ==> l.Merge(layers).None?)
    ensures l.Merge(layers).Some? ==>
              p in l.Merge(layers).value && l.Settled(p, layers) == Some(l.Merge(layers).value[p])
  {
    hide Variations, ContentFor;
    PathsProduced(l, layers, p);
  }

  lemma {:induction false} AgreementExact(l: Layering, layers: seq<Vfs>, p: FilePath)
    requires |layers| <= |l.infos|
    ensures AgreeOnResolver(l.At(p, layers), l.services.configHash) <==>
            |Producers(layers, p)| > 1 && AllHaveOne(l, Inputs(l, layers, p), p)
              && AllTheSame(l, Inputs(l, layers, p), p)
  {
    hide Variations, Inputs, AllHaveOne, SomeHasOne, AllTheSame, AnyResolver, AnyNone, OneKey, Choices;
    VariationsAre(l, layers, p);
    ClassExact(l, layers, p);
  }

  /** Several producers, each with a resolver for the path, and all the same. */
  ghost predicate ResolverSettles(l: Layering, layers: seq<Vfs>, p: FilePath)
    requires |layers| <= |l.infos|
  {
    |Producers(layers, p)| > 1 && AllHaveOne(l, Inputs(l, layers, p), p) && AllTheSame(l, Inputs(l, layers, p), p)
  }

  /** Every other path holds what its last producer wrote. */
  lemma {:induction false} OthersAreLastWritten(l: Layering, layers: seq<Vfs>, p: FilePath)
    requires |layers| <= |l.infos| && l.Merge(layers).Some? && Producers(layers, p) != []
    requires !ResolverSettles(l, layers, p)
    ensures var inputs := Inputs(l, layers, p);
            inputs != [] && p in l.Merge(layers).value && l.Merge(layers).value[p] == inputs[|inputs| - 1].1
    ensures exists i: nat :: IsLastProducer(layers, p, i) && l.Merge(layers).value[p] == layers[i][p]
  {
    hide Variations, Inputs, AllHaveOne, AllTheSame, AgreeOnResolver, ChoiceFor, Choices, With, Producers, AllPaths;
    VariationsAre(l, layers, p);
    AgreementExact(l, layers, p);
    SettledIsMerged(l, layers, p);
    LastInput(l, layers, p);
  }

  lemma {:induction false} LastInput(l: Layering, layers: seq<Vfs>, p: FilePath)
    requires |layers| <= |l.infos| && Producers(layers, p) != []
    ensures |Inputs(l, layers, p)| == |Producers(layers, p)|
    ensures var i := Producers(layers, p)[|Producers(layers, p)| - 1];
            IsLastProducer(layers, p, i) && Inputs(l, layers, p)[|Producers(layers, p)| - 1].1 == layers[i][p]
  {
    ProducersExact(layers, p);
    var order := Producers(layers, p);
    var i := order[|order| - 1];
    assert i in order;
    forall j | i < j < |layers| ensures p !in layers[j] {
      assert j !in order;
    }
  }
}
