# CyanPrint: verified model of composition, caching and reconciliation

CyanPrint composes a tree of templates into one project. It resolves the dependency graph,
runs each template (or replays it from a content-addressed cache), layers the outputs, and
reconciles the result with the user's directory. This project models the parts of that
pipeline whose correctness spans several functions, and proves what they promise.

`dafny verify dfyconfig.toml` checks everything.

| module | models |
|---|---|
| `Resolver`, `ResolverPresets`, `ResolverOrder` | flattening a possibly cyclic dependency graph, first-wins presets |
| `CacheKey`, `EntryCodec`, `CacheStore` | the cache: canonical keys, entry framing, the directory store |
| `Namespace`, `SharedState` | scoping of question ids and answers, merging of terminal states |
| `Consensus`, `Layerer` | resolver consensus, the two layerers, the conflict ledger |
| `Composition` | one run as a function of its inputs and of which cache writes reached the disk |
| `Transparency`, `AnswerSurvival`, `HashOrder`, `CacheEffect`, `Attribution`, `RunLaws` | the main theorems about runs |
| `Operator`, `CachedRuns` | the operator, its guards and the cache facade as objects, proved against `Composition` |
| `DiskTree`, `DiskWriter`, `Reconcile` | cleanup and write on a directory tree, and what they leave together |
| `CreatedDir`, `Sessions`, `Batch`, `Invocation`, `OneTemplate`, `HeadlessPromise` | the created-directory guard, batches, one whole invocation and what it leaves |
| `Update` | what a finished batch or run means for the user's files, the recorded answers and the reported conflicts |
| `EnvSubst`, `Redact` | `${VAR}` substitution, URL encoders and echo detection |
| `Semaphore` | the counting semaphore as a small-step concurrent protocol |

The source's mutable objects are classes whose methods are proved against functions, and the
laws are lemmas about those functions. Iteration over hash maps and sets is a nondeterministic
loop, so every contract holds for every iteration order.

What the environment decides (which call fails, whether a cache read, write or removal takes
effect, a random file name) is a parameter, so a method's contract says what happens for each
choice.

## Hypotheses

What the system asks of the outside enters as parameters. The assumptions used are named
predicates, and appear in the `requires` of the theorems that need them:

- `Transparency.Deterministic`: the README's determinism assumption (README.MD:54-64). Two
  executions of a cacheable template with the same key material give the same state and
  archives that unpack alike, whatever the session.
- `Transparency.NoDigestCollisions`: the known key materials have distinct digests. Which are
  known is a parameter; `Transparency.Covered` says that they include those that uncached runs of
  the composition get to. With finitely many, digests of 64 characters can satisfy it
  (`OneTemplate.HypothesesAreMet`).
- `Transparency.Replayable`: what a known node produces may be kept under its key. It follows from
  the two before.
- `Transparency.Faithful`: every cache entry that unpacks is what executing its key would
  produce. Entries that do not unpack are allowed. The empty cache is faithful, and every covered
  run keeps the property.
- `Sessions.Trusted`: these, for an enabled cache with honest counters. Batches and whole runs
  whose templates are covered (`Sessions.Foreseen`) keep it; without it they still promise
  everything about sessions and disk.
- `EntryCodec.Codec.Valid`: checksums have 32 bytes and answers survive JSON.
  `EntryCodec.Fits` bounds byte lengths by what one vector can hold.
- `AnswerSurvival.WellBehaved`: the executor only adds to the answers it is given, and neither
  added keys nor presets carry a known `{namespace}/` prefix.
- `HashOrder.NoScopedSupply`: only one template executes, or the caller supplied no answer
  scoped to an executed template. Either of this and `WellBehaved` makes hash order irrelevant.
- `CacheEffect.CompletesOrAsks` and `CacheEffect.SessionBlind`: an execution that succeeds
  completes or asks; what a template that may not be cached produces ignores its session.
- `Update.MergesOneSide`: the three-way merge takes over a change made on one side only. It gives
  the incoming files where the local ones are those of the base, and the local files where base and
  incoming are the same.
- `Resolver.Consistent`: the registry answers a fetch with the id it was asked for; the code
  compares one id in one place and the other elsewhere. `Resolver.ClosedUnder`: finitely many
  templates are reachable.

## Where code and documentation disagree

The model follows the code.

- cyancoordinator/src/operations/composition/operator.rs:378-382 promises that a cache hit and
  a fresh run are byte-identical. Scoping collects answers from a hash map; when the caller
  supplied `{ns}/k` and the template returns both `k` and `{ns}/k`, two answers land on one key
  and hash order decides. Over all replayable executors, faithful caches and hash orders, cached
  and uncached runs of a composition show the same if and only if `NoScopedSupply` holds
  (`HashOrder.TransparentIff`); otherwise a deterministic executor makes them differ
  (`HashOrder.CachedAndUncachedDiffer`). Likewise exactly then does hash order never show in any
  run (`HashOrder.HashOrderNeverShowsIff`).
- cyancoordinator/src/fs/writer.rs:20-23 skips a file whose path is a directory and reports
  success (`Reconcile.SilentSkip`). Reconciling leaves the intended files if and only if nothing
  clashes (`Reconcile.ReconcileExact`).
- cyanprint/src/run.rs:384-390 says a headless run leaves the file system as found until it is
  done. Of the runs that end before they commit, and whose removal of the created directory works,
  all restore it if and only if a file is in the way of the target or nothing but its last
  component is missing (`HeadlessPromise.RestoredIffOnlyTargetIsMissing`). The guard is built after
  `create_dir_all` (run.rs:525-532), so when a later component cannot be created, the parents of a
  nested new target stay (`HeadlessPromise.ParentLeft`), although run.rs:353-360 promises them
  gone. In a target that exists, a write that fails, but also a fetch that fails after everything
  was written, leaves what was done so far (`HeadlessPromise.FailedWriteDeletesFile`,
  `HeadlessPromise.FailedMetadataLeavesFile`). Counting runs whose removal fails, which the source
  ignores, the promise holds only where a file is in the way
  (`HeadlessPromise.RestoredDespiteRemovalIff`). A failing state save or command after the commit
  leaves even a new target (`HeadlessPromise.FailedStateSaveIsCommitted`,
  `CreatedDir.CommittedNeverRestores`). Until it commits, a run never loses or changes a file
  it has nothing to do with (`HeadlessPromise.ForeignFilesSurvive`).
- cyancoordinator/src/state/services.rs:45-46 truncates the state file before it writes the new
  one, so a save that fails can lose the recorded history
  (`HeadlessPromise.FailedSaveLosesHistory`).
- cyancoordinator/src/operations/composition/operator.rs:151-161 numbers templates over all
  dependencies, but layers exist only for executed ones. Conflicts are attributed correctly if
  and only if no group template precedes an executable one (`Composition.AttributionIff`);
  `Attribution.GroupFirstMisleads` and `Attribution.MisledRun` are a case where winner and
  resolvers are those of the wrong templates.
- cyanprint/src/run.rs:856 says that saved conflicts are always updated to clear stale ones. With at
  most one wanted template and several installed ones, what is saved are the conflicts among the
  installed templates' outputs, which are layered last (`Update.BatchConflicts`).
- cyancoordinator/src/cache/store.rs:62-64 says the ownership marker is dropped whenever the
  directory is used. A marker cut short by a failure is never completed, and clearing then
  reports success and removes nothing (`CacheStore.OwnedIffMarkerCompleted`,
  `CacheStore.ShortMarkerIsForever`).

## Model

| member | source | states |
|---|---|---|
| Transparency.CacheIsTransparent | cyancoordinator/src/operations/composition/operator.rs:341-523 | With a deterministic executor and a faithful cache, whatever cache reads, writes, evictions and hash orders do: unless scoping some answers depends on hash order and the two iterate differently, a run with the cache and a run without give the same files, shared state, conflicts or failure, and the sessions are a subsequence of the uncached ones. In any case the cache is faithful again and hits never exceed lookups. |
| HashOrder.TransparentWithoutScopedSupply | cyancoordinator/src/operations/composition/operator.rs:341-523 | The same, with equality unconditional, when only one template executes or no supplied answer is scoped to an executed one; nothing is assumed of what executors answer. |
| HashOrder.TransparentIff | cyancoordinator/src/operations/composition/operator.rs:378-399 | Over all replayable executors, faithful caches, cache reads and writes, and hash orders, cached and uncached runs of a composition show the same, the cached one with no session the other does not use, if and only if only one template executes or no supplied answer is scoped to an executed one. |
| HashOrder.CachedAndUncachedDiffer | cyancoordinator/src/operations/composition/operator.rs:378-399 | In every other composition some deterministic executor has a cached and an uncached run that differ, from every faithful cache. |
| HashOrder.HashOrderNeverShowsIff | cyancoordinator/src/operations/composition/operator.rs:782-818 | Runs that differ in nothing but hash order show the same, with any executor and cache, if and only if only one template executes or no supplied answer is scoped to an executed one. |
| HashOrder.OrderFreeIsRigid | cyancoordinator/src/operations/composition/operator.rs:782-818 | A run in which no scoping collided is the same run, cache and sessions included, in every hash order. |
| Transparency.ReplayableIsTransparent | cyancoordinator/src/operations/composition/operator.rs:341-523 | With equal hash orders the cached and the uncached run agree even where answers collide. |
| CacheEffect.SecondRunIsServed | cyancoordinator/src/operations/composition/operator.rs:353-424 | Repeating a completed run from the cache it left, when its writes took effect: same result, every cacheable node looked up and served, no session but those of nodes that may not be cached. |
| CacheEffect.StepMakesServable | cyancoordinator/src/operations/composition/operator.rs:486-509 | A cacheable node whose write took effect can be served from then on. |
| CacheEffect.StepKeepsServable | cyancoordinator/src/operations/composition/operator.rs:406-416 | No step makes a servable entry unservable. |
| RunLaws.LocalIsNeverCached | cyancoordinator/src/cache/mod.rs:101-119 | Local, synthetic and unpublished templates run without a lookup and leave no entry; every other executed template counts as one lookup. |
| Transparency.CountsCacheableNodes | cyancoordinator/src/cache/mod.rs:153-168 | A completed run counts each cacheable node exactly once towards the total; with the cache off it counts nothing and leaves the cache alone. |
| Transparency.DeterministicIsReplayable | README.MD:54-64 | Determinism on the key material makes every complete result of a cacheable node safe to keep under its key. |
| Transparency.RunStepsSound | cyancoordinator/src/operations/composition/operator.rs:486-509 | Every covered run with the cache on simulates the uncached run with the same hash orders, node by node, and keeps the cache sound: only what executing the key would produce is ever stored. |
| Transparency.StepCachedAlike | cyancoordinator/src/operations/composition/operator.rs:353-424 | Hit, miss, unreadable entry, and poisoned entry that is evicted and re-executed all leave the run where live execution would, and the cache sound. |
| AnswerSurvival.CallerAnswersSurvive | cyancoordinator/src/operations/composition/operator.rs:308-339 | Every caller-supplied answer, global or scoped, keeps its value in the final shared answers, no type conflict is raised and hash order never matters, with the cache on or off. |
| AnswerSurvival.UncachedAnswersSurvive | cyancoordinator/src/operations/composition/operator.rs:516-522 | The same for live runs, with no assumption on determinism. |
| AnswerSurvival.ScopedAnswersAgree | cyancoordinator/src/operations/composition/operator.rs:763-781 | A template's scoped results never disagree with the shared answers, and keep the supplied ones intact. |
| RunLaws.PresetsAreReturned | cyancoordinator/src/operations/composition/operator.rs:333-339 | With one executable template or several, the cache on or off: when executors only add to what they are given, the answers a completed run returns hold every preset of an executed dependency that the caller did not answer for it, with the preset's value unless the id was answered before. |
| RunLaws.QuestionIsReturned | cyancoordinator/src/operations/composition/operator.rs:460-484 | A run stops at the first question: no files, the answers so far, and the question unchanged but for its id, which is scoped exactly when several templates execute. |
| RunLaws.AnswerReachesTemplate | cyancoordinator/src/operations/composition/operator.rs:308-339 | An answer supplied under that id is given to the template that asked. |
| RunLaws.RunRecords | cyancoordinator/src/operations/composition/operator.rs:245-262 | A completed run has recorded every dependency in order, groups included, left the deterministic states as they were, and met no slash in an id it scopes by. |
| RunLaws.OneIdEach | cyancoordinator/src/operations/composition/operator.rs:260 | It has generated one session id for each execution. |
| RunLaws.TypesStay | cyancoordinator/src/operations/composition/state.rs:49-66 | However a run ends and whatever its executors return, no answer is lost or changes its type. |
| Attribution.LayerPerExecutable | cyancoordinator/src/operations/composition/operator.rs:240-524 | A completed run has exactly one layer per executable dependency, replayed or executed. |
| Attribution.LayersAreOutputs | cyancoordinator/src/operations/composition/operator.rs:240-524 | Each layer of a completed run is what its executable dependency's execution, or the cache entry that serves it, unpacks to at the point where the run gets to it. |
| Attribution.WinnersWroteLast | cyancoordinator/src/operations/composition/operator.rs:534-547 | Without a group template before an executable one, layer i is the output of dependency i, every last-writer-wins conflict of a run names the dependency whose output wrote the path last, and conflicts are exactly the paths produced twice. |
| Attribution.RegistryHolds | cyancoordinator/src/operations/composition/operator.rs:122-148 | The registry of a run holds, for each template, the resolvers of the last dependency with that id that has any. |
| Attribution.RunResolves | cyancoordinator/src/operations/composition/operator.rs:534-547 | In whole runs without a group template before an executable one: where all of several producers of a path have the same resolver for it, the run returns what the first one makes of their ids, versions, positions and contents, or fails with it. |
| Attribution.RunOverwrites | cyancoordinator/src/operations/composition/operator.rs:526-551 | A completed run returns exactly the paths some template wrote; where no agreed resolver settles a path, and without a client everywhere, the contents are those written last. |
| Attribution.GroupFirstMisleads | cyancoordinator/src/operations/composition/operator.rs:150-161 | After a group template, the ledger names a template as winner whose contents lost, and resolvers are looked up for the wrong templates. |
| Attribution.MisledRun | cyancoordinator/src/operations/composition/operator.rs:150-161 | Every uncached run of such a composition returns the file of one template and a conflict that names the other as its winner. |
| Composition.AttributionIff | cyancoordinator/src/operations/composition/operator.rs:150-161 | Every layer is described by its own template's info if and only if no skipped group template precedes an executable one. |
| Operator.CompositionSessionGuard.Disarm | cyancoordinator/src/operations/composition/operator.rs:63-67 | Hands over all recorded sessions and leaves none to release. |
| Operator.CompositionSessionGuard.Drop | cyancoordinator/src/operations/composition/operator.rs:70-81 | Releases each held session once, in order, when there is a client, and none otherwise. |
| Operator.Cache.Lookup | cyancoordinator/src/cache/mod.rs:153-168 | Counts an attempt exactly for an enabled cache and a cacheable node, never a hit, and returns the stored entry when it can be read. |
| Operator.Cache.Store | cyancoordinator/src/cache/mod.rs:178-184 | Replaces the entry of the key exactly when the node may be cached and no call of the put fails; otherwise changes nothing. |
| Operator.Cache.Evict | cyancoordinator/src/cache/mod.rs:186-190 | Removes the entry exactly when its file can be removed. |
| Operator.CompositionOperator.Serve | cyancoordinator/src/operations/composition/operator.rs:366-416 | Replays an entry exactly when its archive unpacks; a poisoned entry changes nothing and counts no hit. |
| Operator.CompositionOperator.Keep | cyancoordinator/src/operations/composition/operator.rs:486-509 | Only a complete result of a cacheable node is offered to the cache. |
| Operator.CompositionOperator.ExecuteLive | cyancoordinator/src/operations/composition/operator.rs:426-523 | Live execution follows the specified step, and each session handed over is recorded on every exit. |
| Operator.CompositionOperator.StepDependency | cyancoordinator/src/operations/composition/operator.rs:240-524 | One iteration of the loop follows the specified step for group, slashed, cached and live nodes. |
| Operator.CompositionOperator.ExecuteComposition | cyancoordinator/src/operations/composition/operator.rs:188-554 | Returns files, state, conflicts, cache and counters as the run function specifies for some cache outcomes and hash orders; on success and on a question the caller gets exactly the sessions executions handed over, on failure exactly those are released. |
| CachedRuns.RunCachedAndUncached | cyancoordinator/src/operations/composition/operator.rs:188-554 | Two operators, one caching: same files and state or same failure, caller answers kept, faithful cache afterwards. |
| SharedState.NamespaceTemplateState | cyancoordinator/src/operations/composition/operator.rs:756-818 | Scopes the question's id always and an answer's key exactly when the caller targeted it, in some hash order. |
| SharedState.OrderFreeScoping | cyancoordinator/src/operations/composition/operator.rs:797-814 | Without collisions every hash order scopes a terminal state alike. |
| SharedState.CompositionState.UpdateFromTemplateState | cyancoordinator/src/operations/composition/state.rs:41-78 | Fails exactly when some key would change the type of its answer; otherwise merges, records the question and the order. |
| SharedState.CompositionState.MergeAnswers | cyancoordinator/src/operations/composition/state.rs:49-66 | In any hash order, merges all answers or stops at a type conflict, and drops no key. |
| Namespace.StripNamespace | cyancoordinator/src/operations/composition/operator.rs:730-738 | A key strips exactly when it is scoped to the namespace, to the raw id it was scoped from. |
| Namespace.ClassifyExact | cyancoordinator/src/operations/composition/operator.rs:740-754 | With slash-free ids a key is classified under a namespace exactly when that namespace is listed and prefixes it. |
| Namespace.ClassifyIgnoresOrder | cyancoordinator/src/operations/composition/operator.rs:740-754 | Classification does not depend on the order of the namespace list. |
| Namespace.AnswerRouting | cyancoordinator/src/operations/composition/operator.rs:291-339 | A dependency's answer for a raw id is its scoped entry, else the global one, else the preset, else absent. |
| Namespace.AnswerRoutingAlone | cyancoordinator/src/operations/composition/operator.rs:327-339 | The only executable template sees for each id the caller's answer, else its preset, else nothing. |
| Namespace.SiblingsDoNotInterfere | cyancoordinator/src/operations/composition/operator.rs:303-307 | Changing entries scoped to other templates never changes what a dependency is given. |
| Namespace.BuildTemplateAnswers | cyancoordinator/src/operations/composition/operator.rs:308-339 | The three loops, in any hash order, build the routed answers. |
| Namespace.OrderFreeIffNoCollision | cyancoordinator/src/operations/composition/operator.rs:797-814 | Scoping a template's answers gives the same result in every iteration order if and only if no two of them collide. |
| Namespace.NeverCollidesIff | cyancoordinator/src/operations/composition/operator.rs:797-814 | No answers a template can return collide if and only if the caller supplied no key scoped to it. |
| Namespace.CollisionExample | cyancoordinator/src/operations/composition/operator.rs:797-814 | A concrete collision. |
| Namespace.NamespaceAnswers | cyancoordinator/src/operations/composition/operator.rs:797-814 | Collects the answers in some iteration order, later ones overwriting. |
| ResolverOrder.SortByIdSorts | cyancoordinator/src/operations/composition/resolver.rs:69-71 | The list that is traversed is ordered by id and holds the same references. |
| ResolverOrder.SortByIdIsCanonical | cyancoordinator/src/operations/composition/resolver.rs:69-71 | With distinct ids, lists that are permutations of each other are traversed alike. |
| ResolverOrder.ListingOrderIsIrrelevant | cyancoordinator/src/operations/composition/resolver.rs:69-73 | However the registry orders the dependency lists, flattening fails on the same id or gives the same ids with the same presets in the same order. |
| Resolver.FlattenVisitsReachable | cyancoordinator/src/operations/composition/resolver.rs:63-117 | On any finite graph the traversal ends having visited exactly what the root reaches. |
| Resolver.FlattenSucceedsIff | cyancoordinator/src/operations/composition/resolver.rs:101-102 | Flattening succeeds if and only if every reachable template but the root can be fetched. |
| Resolver.FlattenOutput | cyancoordinator/src/operations/composition/resolver.rs:170-190 | The output is exactly the reachable templates, each once, and each but the root is fetched exactly once. |
| Resolver.FlattenOrder | cyancoordinator/src/operations/composition/resolver.rs:106-113 | Whenever one template depends on another that does not lead back to it, the dependency is listed first. |
| ResolverPresets.MergedMeaning | cyancoordinator/src/operations/composition/resolver.rs:86-94 | The merged presets hold an answer under a key exactly when the first reference that sets the key to the JSON of any answer sets it to that answer's. |
| Resolver.ToAnswerExact | cyancoordinator/src/operations/composition/resolver.rs:18-38 | A preset value converts to an answer exactly when it is the JSON of that answer: string, boolean, or array of strings only. |
| ResolverPresets.ListedPresets | cyancoordinator/src/operations/composition/resolver.rs:73-190 | What the resolver lists for a template, end to end: each preset is what the first reference kept for it holds as JSON, and the root has none. |
| ResolverPresets.FlattenPresets | cyancoordinator/src/operations/composition/resolver.rs:73-114 | On every graph, a dependency's presets merge the references that were kept, a reference is skipped only when it closes a cycle, and every edge is examined exactly once. |
| ResolverPresets.AcyclicPresets | cyancoordinator/src/operations/composition/resolver.rs:73-114 | On acyclic graphs nothing is skipped: presets are the first-wins merge over all incoming edges from reachable templates. |
| ResolverPresets.Flattener.FlattenImpl | cyancoordinator/src/operations/composition/resolver.rs:63-117 | The recursion over its two accumulators terminates on cyclic graphs and computes the specified traversal. |
| ResolverPresets.ResolveDependencies | cyancoordinator/src/operations/composition/resolver.rs:170-190 | Returns the traversal's list with the root last, or the id that could not be fetched. |
| CacheKey.CompareStringLaws | cyancoordinator/src/cache/key.rs:94-101 | The comparison is equality exactly on equal strings and antisymmetric. |
| CacheKey.CompareStringMeaning | cyancoordinator/src/cache/key.rs:94-101 | One string is less than another exactly when it is a proper prefix or smaller at the first difference. |
| CacheKey.CompareArtifactMeaning | cyancoordinator/src/cache/key.rs:94-101 | Artifacts are ordered by id, then version, then image, then tag. |
| CacheKey.AtMostTotal | cyancoordinator/src/cache/key.rs:94-101 | The order on (id, version, reference, tag) is total and antisymmetric. |
| CacheKey.SortedUnique | cyancoordinator/src/cache/key.rs:94-102 | A multiset of artifacts has one sorted arrangement. |
| CacheKey.SortIsCanonical | cyancoordinator/src/cache/key.rs:73-103 | Two lists sort to the same list if and only if they are permutations of each other. |
| CacheKey.SiftDown | cyancoordinator/src/cache/key.rs:94-101 | One insertion extends the sorted range of the vector and permutes it. |
| CacheKey.PinnedArtifacts | cyancoordinator/src/cache/key.rs:78-103 | Sorts a copy in place: sorted, and a permutation of the input. |
| CacheKey.EntriesDetermineMap | cyancoordinator/src/cache/key.rs:117-122 | Serializing a map in key order loses nothing. |
| CacheKey.ComputeMaterial | cyancoordinator/src/cache/key.rs:112-152 | Builds the canonical material from the artifacts as sorted in place. |
| CacheKey.MaterialExact | cyancoordinator/src/cache/key.rs:105-152 | Two executions share their material if and only if id, version, images, answers, states and the multisets of plugins and processors agree. |
| EntryCodec.LeRoundTrip | cyancoordinator/src/cache/store.rs:119-129 | Little-endian encoding is undone by decoding for every number that fits. |
| EntryCodec.LeInjective | cyancoordinator/src/cache/store.rs:141-142 | Equal-length little-endian strings of the same number are equal. |
| EntryCodec.LeDigits | cyancoordinator/src/cache/store.rs:116-132 | Byte `i` of the encoding is the number's digit of weight 256 to the `i`. |
| EntryCodec.EntryLayout | cyancoordinator/src/cache/store.rs:116-132 | Where in an encoded entry magic, checksum, archive length, archive and answers stand. |
| EntryCodec.Encode | cyancoordinator/src/cache/store.rs:116-132 | The buffers are filled to exactly the framed entry. |
| EntryCodec.DecodeEncode | cyancoordinator/src/cache/store.rs:116-164 | Every encoded entry decodes to itself. |
| EntryCodec.DecodeExact | cyancoordinator/src/cache/store.rs:134-164 | A byte string decodes to an entry if and only if it frames that entry's archive and a state text that parses to its state. |
| EntryCodec.TruncationIsMiss | cyancoordinator/src/cache/store.rs:134-146 | Every strict prefix of an encoding is a miss. |
| EntryCodec.ExtensionIsMiss | cyancoordinator/src/cache/store.rs:143-146 | Every extension of an encoding is a miss. |
| EntryCodec.CorruptionIsMiss | cyancoordinator/src/cache/store.rs:136-152 | Any change confined to the 40-byte header is a miss; a changed payload under the old header decodes only on a checksum collision. |
| CacheStore.PutIsAtomic | cyancoordinator/src/cache/store.rs:201-223 | A put stopped at any step, by failure or crash, leaves every other entry as it was and this key with its old entry or the complete new one. |
| CacheStore.StoreRefinesMap | cyancoordinator/src/cache/store.rs:166-223 | Over any history of puts and removals, each stopped anywhere, the directory reads as an atomic map. |
| CacheStore.OwnedIffMarkerCompleted | cyancoordinator/src/cache/store.rs:79-99 | After any history of puts and removals the directory counts as owned exactly when the put that created the marker wrote all of it. |
| CacheStore.ShortMarkerIsForever | cyancoordinator/src/cache/store.rs:62-99 | A marker cut short once keeps the directory unowned whatever follows. |
| CacheStore.NoEntriesNoBytes | cyancoordinator/src/cache/store.rs:257-278 | Without entry files the size is zero. |
| CacheStore.SizeCountsEntryFiles | cyancoordinator/src/cache/store.rs:257-278 | A new file adds its length when it has the name of an entry; a directory or any other name adds nothing. |
| CacheStore.CacheKeysAreDigests | cyancoordinator/src/cache/store.rs:308-313 | The names entries may have are exactly the lowercase hex renderings of 32-byte digests. |
| CacheStore.Store.Get | cyancoordinator/src/cache/store.rs:166-174 | A read returns the entry of the map view when the file can be read, and a miss for anything else. |
| CacheStore.Store.EnsureDir | cyancoordinator/src/cache/store.rs:62-99 | Stops only at a point the protocol knows, and succeeds exactly when no call it needs fails. |
| CacheStore.Store.PutInner | cyancoordinator/src/cache/store.rs:201-223 | For every set of failing calls and every crash, leaves the directory at one point of the protocol; rejects other names untouched; stores exactly when no call it needs fails. |
| CacheStore.Store.Publish | cyancoordinator/src/cache/store.rs:208-216 | Writing the temporary file and renaming it leaves the old entry or the complete new one, and a temporary file only after a crash. |
| CacheStore.Store.Put | cyancoordinator/src/cache/store.rs:176-182 | Replaces the entry in the map view exactly when no call it needs fails, and otherwise changes nothing. |
| CacheStore.Store.Remove | cyancoordinator/src/cache/store.rs:184-199 | Removes the entry named exactly when its file can be removed, and nothing else. |
| CacheStore.Store.Clear | cyancoordinator/src/cache/store.rs:225-255 | Touches nothing, and succeeds, in a directory without this cache's marker or with one that cannot be read; in an owned one leaves, when it succeeds, no entry but those that cannot be inspected, so with all files readable none and size zero; keeps every other file in any case. |
| CacheStore.Store.Size | cyancoordinator/src/cache/store.rs:257-278 | Sums the bytes of the entry files that can be inspected, in any directory order; zero when the directory cannot be listed. |
| Consensus.DetermineConsensus | cyancoordinator/src/conflict_file_resolver/consensus.rs:69-122 | The class follows from whether any choice is none, any names a resolver, and the named ones share one key; the returned lists hold exactly the choices concerned. |
| Consensus.ClassIgnoresOrder | cyancoordinator/src/conflict_file_resolver/consensus.rs:53-68 | The class is invariant under permutation of the choices. |
| Consensus.ListsPartitionChoices | cyancoordinator/src/conflict_file_resolver/consensus.rs:74-93 | The two lists together are a permutation of the choices. |
| Consensus.GroupsCountKeys | cyancoordinator/src/conflict_file_resolver/consensus.rs:95-108 | There is one group exactly when all named resolvers share a key. |
| Layerer.DefaultLayerMerge | cyancoordinator/src/operations/composition/layerer.rs:32-59 | Overwrites layer by layer, in any hash order within a layer. |
| Layerer.OverwriteIsLastProducer | cyancoordinator/src/operations/composition/layerer.rs:41-51 | Overwriting leaves at each path the contents of its last producer, on the union of all paths. |
| Layerer.CollectAllPaths | cyancoordinator/src/operations/composition/layerer.rs:100-113 | Lists every path of every layer exactly once. |
| Layerer.ResolverAwareLayerer.MergePath | cyancoordinator/src/operations/composition/layerer.rs:231-363 | Settles one path by resolver or last writer and records one entry exactly when it has several producers. |
| Layerer.ResolverAwareLayerer.LayerMerge | cyancoordinator/src/operations/composition/layerer.rs:212-372 | For every path order, computes the path-wise merge and one ledger entry per conflicting path. |
| Layerer.MergeAgreesWithOverwrite | cyancoordinator/src/operations/composition/layerer.rs:212-372 | The path-major merge covers the union of all paths and agrees with the layer-major overwrite wherever the producers do not agree on a resolver. |
| Layerer.EmptyRegistryIsOverwrite | cyancoordinator/src/operations/composition/layerer.rs:275-297 | Without resolvers the two layerers are equal on every list of layers. |
| Layerer.LedgerNamesLastProducer | cyancoordinator/src/operations/composition/layerer.rs:228-363 | A path is in the ledger exactly when it has an earlier producer; its winner is the last producer in every last-writer class. |
| Layerer.ChoiceExact | cyancoordinator/src/conflict_file_resolver/registry.rs:30-61 | A template's choice for a path is a resolver exactly when that one is registered for it, has a matching pattern, and none before it has. |
| Layerer.AgreedResolverMerges | cyancoordinator/src/operations/composition/layerer.rs:228-274 | Over layers, infos and registry: where every one of several producers of a path has a matching resolver and the first matching ones share image, tag and configuration hash, the merged file is what that resolver makes of all producers' infos and contents in layer order, the merge fails when it fails, and the ledger says so. |
| Layerer.LedgerExact | cyancoordinator/src/operations/composition/layerer.rs:228-363 | Over layers, infos and registry: which of the four classes a path with several producers falls into. |
| Layerer.LedgerListsWho | cyancoordinator/src/operations/composition/layerer.rs:296-363 | An entry names all producers in layer order; it lists who has which resolver and who has none exactly when some have one and others not. |
| Layerer.OthersAreLastWritten | cyancoordinator/src/operations/composition/layerer.rs:240-345 | Every path that no agreed resolver settles holds what its last producer wrote. |
| Layerer.SingleLayer | cyancoordinator/src/operations/composition/layerer.rs:220-226 | No layer or one layer is returned as it is, without conflicts. |
| DiskWriter.Disk.Cleanup | cyancoordinator/src/fs/writer.rs:39-89 | Deletes the listed files and then exactly the directories this empties; an I/O error at any point leaves nothing missing but those. |
| DiskWriter.Disk.RemoveEmptyUpwards | cyancoordinator/src/fs/writer.rs:63-86 | Climbing from one directory removes only directories that hold nothing else and leaves the rest to those still to come, also when an I/O error stops it. |
| DiskWriter.Disk.CreateDirAll | cyancoordinator/src/fs/writer.rs:25-29 | Fails without effect when a component is a file; an I/O error leaves the directories above a component that was missing. |
| DiskWriter.Disk.WriteFile | cyancoordinator/src/fs/writer.rs:17-34 | Skips a directory, fails on a file in the way, else creates the parents and the file; an I/O error leaves some parents or a torn file. |
| DiskWriter.Disk.Write | cyancoordinator/src/fs/writer.rs:12-37 | Writes in some order until one fails, which without I/O errors is when the specified write fails; what was written before stays, and an I/O error tears one file at most. |
| DiskWriter.Disk.CleanupDeletedFiles | cyancoordinator/src/fs/mod.rs:115-132 | Deletes and returns exactly the local paths that are not merged, or stops part-way on an I/O error. |
| DiskWriter.DeepestFirst | cyancoordinator/src/fs/writer.rs:59-61 | Orders the parents by depth, deepest first. |
| Reconcile.ReconcileExact | cyancoordinator/src/fs/mod.rs:115-132 | From a tree without empty directories, cleanup then write leaves exactly (disk - (local - merged)) + merged if and only if the merged paths are proper and prefix-free and no untracked file lies above or below one; then no directory is left empty. For every order, file and directory swaps included. |
| Reconcile.WriteOutcome | cyancoordinator/src/fs/writer.rs:12-37 | For prefix-free files writing fails exactly when a file is on the way to one, and otherwise adds exactly the files no directory stands in for. |
| Reconcile.WriteExact | cyancoordinator/src/fs/writer.rs:12-37 | On any tree every file is written and nothing else changes if and only if nothing clashes. |
| Reconcile.SurvivorsTight | cyancoordinator/src/fs/writer.rs:59-86 | Cleanup leaves no empty directory where there was none. |
| Reconcile.SilentSkip | cyancoordinator/src/fs/writer.rs:20-23 | A merged file above an untracked one: success is reported and the file is missing. |
| Reconcile.FailedWriteLeavesFiles | cyancoordinator/src/fs/writer.rs:17-34 | A failing write leaves an earlier file on disk. |
| Reconcile.Reconciled | cyanprint/src/run.rs:278-288 | The two calls in sequence, when no I/O call fails, leave the intended files if and only if nothing clashes. |
| CreatedDir.ShallowestUncreatedAncestor | cyanprint/src/run.rs:351-366 | Finds the one missing component whose ancestors all exist, and none exactly when the target exists. |
| CreatedDir.RemovalUndoesCreation | cyanprint/src/run.rs:368-379 | Removing that component after creating the target restores the original tree, whatever was put below the target. |
| CreatedDir.NothingToCreate | cyanprint/src/run.rs:357-358 | An existing target is left as it is. |
| CreatedDir.CreatedDirGuard.Drop | cyanprint/src/run.rs:419-425 | Removes the created tree exactly when armed, headless and something was created; a removal that fails part-way removes nothing else. |
| Sessions.SessionCleanupGuard.Take | cyanprint/src/run.rs:477-483 | Disarms and hands over all sessions. |
| Sessions.SessionCleanupGuard.Drop | cyanprint/src/run.rs:486-494 | Releases each held session once while armed, none after disarming. |
| Sessions.ExecuteTemplate | cyancoordinator/src/operations/composition/operator.rs:570-604 | With a trusted cache, files and state are those of an uncached run from the given answers and states, and a failure is one of an uncached run; the cache stays trusted. Sessions go to the caller on success and are released on failure; commands are those of the dependencies in order. |
| Sessions.ExecuteSpecs | cyanprint/src/run.rs:140-230 | With a trusted cache, roots, outputs, final answers and commands are those of one uncached run per spec, in order; a question or failure is that of an uncached run, or of a fetch or resolution; the cache stays trusted. On success and on a question all sessions are held by the guard; on failure each is held or released. |
| Sessions.RunIsUncached | cyancoordinator/src/operations/composition/operator.rs:341-523 | Cached or not, and whatever the faithful cache holds, the caller of a run sees what an uncached run shows. |
| Sessions.StepsIgnoreCache | cyancoordinator/src/operations/composition/operator.rs:343-351 | With the cache off, its contents and counters have no influence on a run. |
| Sessions.LayerHorizontally | cyancoordinator/src/operations/composition/operator.rs:614-654 | None, one or several outputs: empty, unchanged, or layered with the root templates' resolvers only. |
| Update.HorizontalIsMerge | cyancoordinator/src/operations/composition/operator.rs:614-654 | None, one or several outputs: in each case the result is the merge by the root templates' resolvers. |
| Update.HorizontalIsOverwrite | cyancoordinator/src/operations/composition/operator.rs:614-654 | Without resolvers at the roots a later template's file replaces an earlier one's. |
| Batch.SaveStateFile | cyancoordinator/src/state/services.rs:39-48 | Replaces the state file exactly when nothing fails; a failing save leaves it as it was or cut off anywhere in the new content. |
| Batch.SaveMetadata | cyanprint/src/run.rs:290-327 | Records the upgraded templates in order, with the answers their executions ended with, until a fetch fails without effect or a save fails and may cut the state file. |
| Batch.RecordingKeepsFiles | cyanprint/src/run.rs:290-327 | Recording touches no file but the state file. |
| Batch.MergeAndWrite | cyanprint/src/run.rs:275-288 | The tree is as before, partly cleaned, partly written, or written: which of them, and how far, for every failing call. |
| Batch.UntrackedSurvive | cyanprint/src/run.rs:269-288 | Every file neither local nor merged, but for the state file, survives every way a batch can end. |
| Batch.WrittenIsIntended | cyanprint/src/run.rs:278-288 | Without clashes a batch that has written everything leaves exactly the intended files beside the state file. |
| Batch.RunPlan | cyanprint/src/run.rs:135-230 | Both lists are executed, or a question or failure stops them; sessions are held or released. |
| Batch.BatchProcess | cyanprint/src/run.rs:103-349 | Every session handed over goes to the caller, or is released on failure, once. With a trusted cache the outputs that are layered and merged are those of uncached runs, and the cache stays trusted. Every ending is characterised: question or failing template with the tree unchanged, the stage a failure stopped at, or all files written and all templates recorded; a stage in which a save fails includes the state file cut off. |
| Update.FinishedBatch | cyanprint/src/run.rs:241-280 | Under the one-sided law of the merge: when the local files are what the installed templates gave and nothing clashes, a finished batch leaves exactly what the wanted templates give, beside untracked files and the state file; when both give the same, the local files stay as the user left them. |
| Update.ExecutionMeans | cyanprint/src/run.rs:141-239 | For each spec, in order, the fetched template and the files of one of its runs, and the commands of all dependencies in order. |
| Update.ExecutionAnswers | cyanprint/src/run.rs:180-232 | Under each key the answers that the last run of that key ended with, and no other key. |
| Update.RecordedAnswers | cyanprint/src/run.rs:301-306 | What is recorded for a template is what its last run ended with, else its spec's answers. |
| Update.RecordedInOrder | cyanprint/src/run.rs:293-327 | Recording two lists is recording the first and then the second in the tree it left. |
| Update.RecordedByBatch | cyanprint/src/run.rs:286-327 | The state file a finished batch leaves records the upgraded templates in order, the last of them with the answers its wanted run ended with, and no other file changes. |
| Update.SpecAnswersSurvive | cyanprint/src/run.rs:204-209 | A run starts from its spec: it leaves the spec's states alone and keeps its answers where executors only add. |
| Update.CommandsConcatenate | cyancoordinator/src/operations/composition/operator.rs:702-711 | Commands are collected dependency by dependency, in order. |
| Update.BatchConflicts | cyanprint/src/run.rs:253-337 | With several wanted templates the reported conflicts are exactly the paths that several of their outputs hold, each won by the last; with at most one, those of several installed templates, if there are several, else those of the wanted template's own run. |
| Update.FinishedMeansNoFailure | cyanprint/src/run.rs:141-327 | A batch that finishes has met no failing fetch, resolution, load, merge or save. |
| Invocation.Commit | cyanprint/src/run.rs:841-918 | After the commit sessions are returned on success and released on every failure; the state file is written before the commands run, and the run succeeds exactly when neither fails; a failing save may cut the state file. |
| Invocation.CyanRun | cyanprint/src/run.rs:499-919 | On every exit sessions are handed to the caller or released. A creation of the target that stops part-way fails the run and leaves the parents made so far. Otherwise the tree of the target ends as its batch and commit leave it; a headless run that has not committed removes what it created, and changes nothing when it stops on a question; nothing outside the target changes but directories leading to it. |
| Update.CommitMeans | cyanprint/src/run.rs:852-918 | The commit changes only the state file unless commands run; commands run on the tree that holds the saved state, and never when saving failed. |
| Update.CompletedMeansNoFailure | cyanprint/src/run.rs:499-919 | A run that completes has read its history and planned; it has committed exactly when it asks nothing, and then its state was saved and its commands, if any, succeeded. |
| Update.CompletedRun | cyanprint/src/run.rs:499-919 | The one-sided law of a finished batch for every whole run that completes, when its dependencies bring no commands. |
| CreatedDir.DropRestores | cyanprint/src/run.rs:419-425 | What the dropped guard leaves: no change outside the target, and where the removal works none at all if the target was new or its tree has not changed. |
| Invocation.UncommittedIsUnfinished | cyanprint/src/run.rs:806-839 | A run that does not commit leaves the target as an unfinished batch does, and unchanged when it asks. |
| HeadlessPromise.RestoredIffOnlyTargetIsMissing | cyanprint/src/run.rs:381-394 | Where removing the created directory works, all headless runs that end before they commit restore the file system if and only if a file is in the way of the target or its last component is all that is missing. |
| HeadlessPromise.RestoredDespiteRemovalIff | cyanprint/src/run.rs:375-379 | Where that removal may fail as well, if and only if a file is in the way of the target. |
| HeadlessPromise.ParentLeft | cyanprint/src/run.rs:524-532 | For every nested new target, a run whose last component cannot be created leaves its parent. |
| HeadlessPromise.ForeignFilesSurvive | cyanprint/src/run.rs:806-843 | A run that has not committed never loses or changes a file of the target that is neither tracked nor produced by any merge, whatever failed. |
| HeadlessPromise.FailedMetadataLeavesFile | cyanprint/src/run.rs:298-303 | The runs whose metadata fetch fails after the write are exactly those that fail uncommitted with the new file left. |
| HeadlessPromise.FailedRecordCutsState | cyanprint/src/run.rs:320-325 | The runs whose record cannot be saved are exactly those that fail uncommitted, with the new file left and the state file as it was or cut off anywhere. |
| HeadlessPromise.FailedSaveLosesHistory | cyancoordinator/src/state/services.rs:39-48 | Whatever the state file held, a run whose save fails can leave it empty. |
| HeadlessPromise.FailedWriteDeletesFile | cyanprint/src/run.rs:278-288 | Every run that meets a file where it needs a directory fails after deleting the files the merge dropped. |
| HeadlessPromise.FailedStateSaveIsCommitted | cyanprint/src/run.rs:841-869 | The runs whose state save fails are exactly those that fail committed, with the template recorded or the state file cut off anywhere. |
| CreatedDir.CommittedNeverRestores | cyanprint/src/run.rs:841-843 | After the commit an error leaves a new target behind. |
| Invocation.Finish | cyanprint/src/headless.rs:211-234 | Releases the sessions of a finished run and none of a failed one. |
| Invocation.Invoke | cyanprint/src/main.rs:427-463 | Over a whole invocation, on every exit, the sessions released are exactly those executions handed over, each once. |
| EnvSubst.ParseUnique | cyanregistry/src/cli/env_subst.rs:74-148 | The grammar of segments is unambiguous. |
| EnvSubst.ParseCoversInput | cyanregistry/src/cli/env_subst.rs:74-148 | The sources of the segments concatenate to the input. |
| EnvSubst.ParseExact | cyanregistry/src/cli/env_subst.rs:74-148 | A list of segments is a parse of the input if and only if it is the one computed. |
| EnvSubst.ClosingBraceMeaning | cyanregistry/src/cli/env_subst.rs:84-110 | The nesting counter finds the brace at which the content first closes. |
| EnvSubst.ScanContent | cyanregistry/src/cli/env_subst.rs:84-110 | The inner loop reads the content up to the closing brace, or all of it. |
| EnvSubst.ParseVarContent | cyanregistry/src/cli/env_subst.rs:150-160 | Splits at the first `:-`, losing nothing. |
| EnvSubst.RenderOk | cyanregistry/src/cli/env_subst.rs:74-148 | Substitution succeeds exactly when no segment misses a variable, and then concatenates the expansions without rescanning. |
| EnvSubst.RenderErr | cyanregistry/src/cli/env_subst.rs:134-137 | The reported name is that of the leftmost segment that misses its variable. |
| EnvSubst.ExpandMisses | cyanregistry/src/cli/env_subst.rs:112-137 | A segment misses its variable exactly when it is closed, named, unset or empty, and without default. |
| EnvSubst.ExpandExact | cyanregistry/src/cli/env_subst.rs:112-137 | What a segment is replaced by, exactly: a literal, unclosed text or an empty name by its own source; a named placeholder by the variable's value whenever that is set and non-empty, default or not, and by the text after the first `:-` otherwise. |
| EnvSubst.OneVariable | cyanregistry/src/cli/env_subst.rs:74-148 | A `${name}` or `${name:-default}` in a text without other placeholders: the text around it is kept, and the variable's value stands in its place, or else the default, or else the call fails with the name. The default may itself hold balanced braces. |
| EnvSubst.OnePlaceholder | cyanregistry/src/cli/env_subst.rs:74-148 | Any one placeholder in a plain text: the text around it is kept and what the placeholder means stands in its place, and the call fails exactly when the placeholder misses its variable. |
| EnvSubst.SubstituteEnvVars | cyanregistry/src/cli/env_subst.rs:74-148 | The two-loop scanner renders the parse of its input, for every input and environment. |
| EnvSubst.PlainTextUnchanged | cyanregistry/src/cli/env_subst.rs:74-148 | Text in which `${` never stands comes back unchanged. |
| Redact.UrlEncode | cyanprompt/src/domain/services/template/redact.rs:182-210 | Renders byte by byte, and decoding gives the value back. |
| Redact.EncodingIsUndone | cyanprompt/src/domain/services/template/redact.rs:182-210 | Both standards in both hex cases are undone by their decoder on every byte string. |
| Redact.EncodingIsInjective | cyanprompt/src/domain/services/template/redact.rs:182-210 | Different values never share a rendering. |
| Redact.EncodeByteExact | cyanprompt/src/domain/services/template/redact.rs:182-210 | Which characters stay literal in which standard, that a space becomes `+` in form encoding, and that all else becomes `%` with the high digit first, in the hex case asked for. |
| Redact.RenderAppend | cyanprompt/src/domain/services/template/redact.rs:182-210 | Rendering is a concatenation homomorphism. |
| Redact.EncodedVariants | cyanprompt/src/domain/services/template/redact.rs:103-119 | Lists the raw value first and every non-empty rendering exactly once. |
| Redact.ValueEchoed | cyanprompt/src/domain/services/template/redact.rs:72-81 | True exactly when the value is non-empty and the message shows it in some rendering. |
| Redact.PayloadShowsValue | cyanprompt/src/domain/services/template/redact.rs:72-118 | A message holding a rendering of any longer payload around the value shows the value. |
| Redact.EncodedPayloadIsEchoed | cyanprompt/src/domain/services/template/redact.rs:72-118 | `value_echoed` is true of every message holding a URL encoding, in either standard and hex case, of any text with the non-empty value in it. |
| Redact.PlainPayloadIsEchoed | cyanprompt/src/domain/services/template/redact.rs:72-81 | `value_echoed` is true of every text in which the non-empty value stands. |
| Semaphore.StepKeepsInv | cyanprint/src/test_cmd/semaphore.rs:19-39 | Every atomic step of every thread keeps the invariant. |
| Semaphore.PermitsConserved | cyanprint/src/test_cmd/semaphore.rs:10-39 | In every reachable state the counter plus the live permits is the initial count, and at most one thread is in the critical section. |
| Semaphore.NoLostWakeup | cyanprint/src/test_cmd/semaphore.rs:19-39 | With barging and spurious wake-ups, whenever the mutex is free and a thread sleeps, at least as many threads are woken as permits are available. |
| Semaphore.InternalRunsBounded | cyanprint/src/test_cmd/semaphore.rs:19-39 | Without new calls, drops and spurious wake-ups every run ends. |
| Semaphore.NoDeadlock | cyanprint/src/test_cmd/semaphore.rs:19-39 | Where it ends every thread is outside, owns a permit, or sleeps while all permits are owned. |

## Left out

- GitLikeMerger: the three-way merge is libgit2's; where both sides changed, merged files are arbitrary.
- HTTP clients, registry, Docker, daemon, prompts, progress output, CLI parsing: outside calls
  that succeed or fail arbitrarily.
- SHA-256, JSON, YAML, glob matching, tar and gzip: parameters with the hypotheses above.
- The Q&A engine and validator: the executor is a function with hypotheses.
- The executor's own clean-up on error: an execution that fails hands over no session.
- `try` commands, port allocation, version pagination, reference parsers, exit codes: easy members.
- Path normalisation and `normalize_managed_paths`: paths are sequences of components on disk and
  opaque strings in memory; lossy conversions are not modelled.
- Symlinks, permissions, `..` components, ignore rules: untracked files are an arbitrary set.
- Panics and mutex poisoning: a panicking thread is not a step of the semaphore protocol.
- Seeding of headless answers and the three update scenarios: a run's plan is a parameter.
- `answer_renderings` in the redaction code: one case per answer kind.
- Managed-file manifests and printed cache summaries: field copies.
- CacheStore.Store.Size: unbounded sum; the source's 64-bit total is not reduced.
- Consensus.DetermineConsensus: configurations are compared by a 64-bit hash, as in the source, so
  colliding configurations count as equal.
- Redact.ValueEchoed: JSON escaping is a parameter that renders each byte on its own.
- Invocation.CyanRun: commands are an arbitrary change below the target.
- Batch.BatchProcess: without a trusted cache outputs and answers are left open.
- Resolver.FlattenOutput: sorting is a stable insertion sort standing for the standard library's.
