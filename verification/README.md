# Envoy AI Gateway control plane: a verified model

A Dafny model of the state-changing core of the Envoy AI Gateway controllers, with proofs of what
that core is for.

| file | component |
|---|---|
| `Text.dfy` | strings as Go uses them here: separators, splitting, joining, decimal numbers |
| `Names.dfy` | bounded, hash-suffixed names of Secrets and volumes |
| `Bundle.dfy` | the filter configuration sharded over Secrets: writer, projected volume, reader |
| `RateLimit.dfy`, `QuotaCache.dfy` | merging rate-limit descriptors; the quota policy cache and its pushed snapshots |
| `QuotaCost.dfy` | cost expressions that quota policies add to a route |
| `BodyMutation.dfy` | merging route-level and backend-level body mutations, and executing them |
| `HostModels.dfy` | which declared models a request host sees |
| `InferencePool.dfy` | an InferencePool written into Envoy metadata and read back |
| `RouteIndex.dfy`, `HttpRoute.dfy` | finding a Gateway's routes; reference grants; compiling an AIGatewayRoute |
| `ExtProc.dfy` | the external-processor container: build, hash, pod webhook, sidecar check |
| `Rollout.dfy` | the rollout loop between reconciler, Kubernetes and webhook, with each reconcile at one moment |
| `RolloutSteps.dfy` | the same loop call by call: three lists, the decision, one patch after the other |
| `SharedBackend.dfy` | the MCP proxy Backend that the MCPRoutes of a namespace share |
| `McpLifecycle.dfy` | per-backend HTTPRoutes, filters and credential Secrets of an MCPRoute |

Everything that runs outside the modelled code is a parameter: whether each API call is refused, or
takes effect while its reply is lost; what a lookup returns; the hashes (`sha`, `sum`, `sha256`);
CEL validity. Where a proof needs a hash to be collision-free, the lemma says so in a `requires`.
Loops over Go maps pick keys in any order.

Main results, in the order of how much they span:

- Bundle: over every history of complete, refused and interrupted writes, a reader accepts only the
  payload that was committed last when its index was stored, whatever parts the kubelet shows it
  (`ReaderAcceptsOnlyCommitted`), and right after a committed write it reads that payload from the
  store (`CommittedIsReadable`).
- Rollout: when webhook and check agree, then over every interleaving of single API calls and Kubernetes
  events in which a pod is live whenever pods are listed under an effective route, each template is
  patched at most twice per configuration, plus once per failed patch (`PatchesBoundedInSteps`); two
  is attained, because the pods are listed before the workloads (`PatchedTwice`, `TwoIsLeast`); when
  they disagree no bound exists (`SettlesIffInSteps`). Under the same provisos, with nothing between the lists
  and the patches it is at most once (`PatchesBounded`), and quiet after the first complete reconcile
  (`QuietAfterFirstComplete`). The loop can always reach the wanted pods (`ReachesWanted`), and every
  change of the container starts a rollout (`ContainerChangeRollsOut`).
- MCP resources: a sync leaves exactly the wanted HTTPRoutes, filters and Secrets if and only if no
  stray was there before (`ExactIffStrayFree`), runs of successful syncs stay exact (`RunsStayExact`),
  and of the interrupted ones a retry heals all but one kind (`RetryHealsIff`, and `NextSyncIff`
  for any other list that follows).
- Quota cache: what is pushed depends only on the latest version of each policy (`PushedIsRebuild`).
- Rate limits: merging keeps the meaning of every path at every depth (`MergePreserves`), merging in
  portions is merging at once (`MergeOnce`), and siblings end up unique at every depth under an exact
  condition that trees unique in themselves meet (`DeepUniqueIff`, `CleanTreesResolve`).

Properties that comments, API documentation or the design suggest and that do not hold of the code
without a condition. The model follows the code, and each comes with the failing case and the exact
condition:

| suggested | fails when | exact condition |
|---|---|---|
| children of descriptors are merged recursively | no repetition of their parent brings children: they stay as they came, repeated or not | `RateLimit.DeepUniqueIff` |
| route-level body mutation takes precedence | the route removes a field that the backend sets | `BodyMutation.MergedVersusSequential` |
| a sidecar built now is accepted by the check now | some option value is itself `-logLevel` | `ExtProc.SelfAcceptedIff` |
| the reconciler settles | webhook and check disagree, or no pod is live while a route is effective | `RolloutSteps.SettlesIffInSteps`, with `Rollout.ConsistentIff` for the disagreement |
| one reconcile rolls out once | the last old pod goes, and that is reported, between the pod list and the workload lists | `Rollout.StalePodListPatchesAgain` for the list, `RolloutSteps.PatchedTwice` for a run, `RolloutSteps.PatchesBoundedInSteps` for the bound |
| an MCPRoute sync deletes what is no longer wanted | an earlier one stopped inside the removal of an orphan, or before it created an HTTPRoute that is no longer wanted | `McpLifecycle.ExactIffStrayFree`; from the point of interruption `McpLifecycle.RetryHealsIff` and `McpLifecycle.NextSyncIff` |
| an MCPRoute's generated objects are its own | two routes' names and backend names join at different dashes | `McpLifecycle.NamesClashIff` |
| a Gateway's legacy Secret is its own | Gateway names and namespaces join at different dashes | `Names.LegacyNamesClashIff` |
| only a Backend this controller created is deleted | it is replaced or relabelled between the Get and the Delete | `SharedBackend.UnlabelledDeletedIff`, `SharedBackend.UnownedDeletedIff` |

## Model

| member | source | states |
|---|---|---|
| `Names.TruncateAndAppendHash` | internal/controller/secret_name.go:27-45 | the result fits the limit and is the hash alone or some base, a dash and the whole hash |
| `Names.TruncatedEndsWithHash` | internal/controller/secret_name.go:27-45 | truncation never cuts into the hash: the last characters are the hash, for every base and limit |
| `Names.TruncatedKeepsFront` | internal/controller/secret_name.go:27-45 | a name that does not fit keeps as much of its front as there is room for, up to dashes at the cut |
| `Names.NamesFit` | internal/controller/secret_name.go:48-86 | every Secret and volume name fits its Kubernetes length limit, for all Gateway names and namespaces |
| `Names.IndexNamesCollide` | internal/controller/secret_name.go:48-51 | two Gateways share an index Secret name only if the hashes of `namespace/name` collide |
| `Names.PartNamesCollide` | internal/controller/secret_name.go:54-65 | two part Secret names are equal only for the same slot and colliding identity hashes |
| `Names.IndexIsNotPart` | internal/controller/secret_name.go:48-65 | no index Secret name is a part Secret name, across all Gateways |
| `Names.VolumesDistinct` | internal/controller/secret_name.go:68-86 | bundle, legacy and socket volume names differ pairwise, across all Gateways |
| `Names.ShortNamesReadable` | internal/controller/secret_name.go:47-65 | names that fit are not truncated: Gateway, namespace, hash and slot appear in full |
| `Names.ShortVolumesReadable` | internal/controller/secret_name.go:67-86 | the same for the volumes: `ai-gateway-`, Gateway, namespace and hash, and `-bundle` for the bundle |
| `Names.IdentityInjective` | internal/controller/secret_name.go:49 | what is hashed tells two Gateways apart, as namespaces hold no slash |
| `Names.LegacyNamesClashIff` | internal/controller/secret_name.go:77-79 | when two Gateways share the name of the legacy Secret, exactly |
| `Names.LegacyNamesCanClash` | internal/controller/secret_name.go:77-79 | an instance: Gateway `a` in `b-c`, Gateway `a-b` in `c` |
| `Bundle.EnvForIsValid` | internal/controller/filter_config_bundle.go:46-61 | the nine Secrets of one bundle have nine different names |
| `Bundle.PartPathInjective` | internal/filterapi/config_bundle.go:38-40 | different slots are mounted at different paths |
| `Bundle.ChunksConcat` | internal/controller/filter_config_bundle.go:31-44 | the chunks put together are the payload |
| `Bundle.ChunksFull` | internal/controller/filter_config_bundle.go:31-44 | every chunk but the last is full, the last is not larger and is non-empty unless the payload is empty |
| `Bundle.ChunksCount` | internal/controller/filter_config_bundle.go:31-44 | at most m chunks if and only if the payload is at most m chunk sizes long |
| `Bundle.SplitBytes` | internal/controller/filter_config_bundle.go:31-44 | the loop computes those chunks |
| `Bundle.SecretApi.Get` | internal/controller/filter_config_bundle.go:79-83 | a read that is not an error tells the truth about the store |
| `Bundle.SecretApi.Write` | internal/controller/filter_config_bundle.go:84-96 | success means applied; a failure may have been applied; nothing else changes |
| `Bundle.SecretApi.Delete` | internal/controller/filter_config_bundle.go:63-70 | the same for deletion |
| `Bundle.WriteSlot` | internal/controller/filter_config_bundle.go:60-97 | one slot: written, or deleted when surplus, or left untouched by a refused call |
| `Bundle.WriteSlots` | internal/controller/filter_config_bundle.go:59-97 | the store is some prefix of the slot plan applied; on success all of it, and the part list describes every chunk |
| `Bundle.WriteIndex` | internal/controller/filter_config_bundle.go:99-124 | the index Secret is replaced or untouched |
| `Bundle.WriteShards` | internal/controller/filter_config_bundle.go:59-125 | all slots come before the index; at every failure point the store is a prefix of the plan |
| `Bundle.WriteFilterConfigBundle` | internal/controller/filter_config_bundle.go:46-125 | success means the whole plan ran; without faults a payload that fits is always written |
| `Bundle.SlotAfter` | internal/controller/filter_config_bundle.go:59-97 | what each slot holds after any prefix of the plan: its new chunk, nothing, or what it held before |
| `Bundle.OthersAfter` | internal/controller/filter_config_bundle.go:59-97 | Secrets that are not slots are untouched until the index is written |
| `Bundle.LastStep` | internal/controller/filter_config_bundle.go:99-124 | the stored index changes at the last step and at no other |
| `Bundle.CompleteWriteLeaves` | internal/controller/filter_config_bundle.go:46-125 | after a whole write: an index with the version and uuid asked for, the checksum of the payload, and name, path and size of every part; one chunk per used slot, no Secret in an unused slot |
| `Bundle.CompleteWriteReadsBack` | internal/filterapi/config_bundle.go:66-91 | reading through the projected volume gives back the payload |
| `Bundle.ToLowerHex` | internal/filterapi/config_bundle.go:80-84 | a checksum in upper case is compared as if in lower case |
| `Bundle.RefusedIffTooLarge` | internal/controller/filter_config_bundle.go:48-51 | a payload is refused if and only if it exceeds eight parts of 700 KiB |
| `Bundle.RunIndex` | internal/controller/filter_config_bundle.go:46-125 | over any history of attempts the stored index describes the last committed payload |
| `Bundle.ReaderAcceptsOnlyCommitted` | internal/filterapi/watcher.go:145-201 | a reader with the index that some prefix of the history left and parts from anywhere accepts the payload committed last in that prefix, or nothing |
| `Bundle.CommittedIsAttempted` | internal/controller/filter_config_bundle.go:46-125 | the payload committed last is that of an attempt that ran to its end, or the one installed before |
| `Bundle.NoCommitNoChange` | internal/filterapi/watcher.go:145-201 | an index that lags behind without a commit in between stands for the same payload |
| `Bundle.CommittedIsReadable` | internal/filterapi/watcher.go:145-201 | right after a committed write the reader gets that payload, whatever earlier attempts left behind |
| `RateLimit.IdInjective` | internal/ratelimit/translator/merge.go:25-26 | the merge key identifies key and value unless a key holds a NUL |
| `RateLimit.MergeUnique` | internal/ratelimit/translator/merge.go:13-16 | no two entries at the top level of a merged list share key and value |
| `RateLimit.MergePreserves` | internal/ratelimit/translator/merge.go:13-65 | at every path of every depth: the first limit in order, and quota and shadow mode if any entry had them |
| `RateLimit.MergeUniqueIs` | internal/ratelimit/translator/merge.go:16-65 | a list without repeated siblings is left exactly as it is, in order |
| `RateLimit.MergeOnce` | internal/ratelimit/translator/merge.go:34-39 | merging a merged list with more is merging everything at once; so merging is idempotent |
| `RateLimit.MergedEntry` | internal/ratelimit/translator/merge.go:24-53 | which entries a merge has, and each one's children: all of its occurrences' merged if a repetition brings any, else the first's as they came |
| `RateLimit.DeepUniqueIff` | internal/ratelimit/translator/merge.go:13-65 | siblings are unique at every depth of the result if and only if the input is resolvable |
| `RateLimit.CleanTreesResolve` | internal/ratelimit/translator/merge.go:13-65 | trees unique in themselves are resolvable |
| `RateLimit.LoneChildrenStay` | internal/ratelimit/translator/merge.go:27-32 | the children of a descriptor that occurs alone are not merged |
| `RateLimit.RepeatedChildrenCanStay` | internal/ratelimit/translator/merge.go:27-32 | an instance where repeated children stay |
| `RateLimit.MergeDescriptors` | internal/ratelimit/translator/merge.go:16-65 | the loop over the key map computes that merge |
| `RateLimit.MergeEntry` | internal/ratelimit/translator/merge.go:34-52 | one repeated descriptor is combined into the first |
| `QuotaCache.SortedUnique` | internal/controller/quota_policy.go:164-187 | a set of keys has one sorted order, so map iteration order cannot show |
| `QuotaCache.SortStrings` | internal/controller/quota_policy.go:164-187 | sorted, with the same members |
| `QuotaCache.CollectKeys` | internal/controller/quota_policy.go:164-187 | every cache key once |
| `QuotaCache.GatherAll` | internal/controller/quota_policy.go:164-187 | the descriptors of all policies in key order |
| `QuotaCache.FirstPolicyWins` | internal/controller/quota_policy.go:159-187 | at every path the published limit is that of the least policy key that limits the path |
| `QuotaCache.NoPolicyNoLimit` | internal/controller/quota_policy.go:159-187 | a path no policy limits has no published limit |
| `QuotaCache.PublishedModes` | internal/controller/quota_policy.go:159-187 | a path is published, and has quota or shadow mode, if and only if some policy publishes it, or sets the mode |
| `QuotaCache.PublishedShape` | internal/controller/quota_policy.go:164-187 | one config of the quota domain, none if and only if no policy has a descriptor |
| `QuotaCache.QuotaPolicyController.GetMergedConfigsLocked` | internal/controller/quota_policy.go:164-187 | the result is the published form of the cache |
| `QuotaCache.ResolveIff` | internal/controller/quota_policy.go:100-122 | resolving fails if and only if some lookup fails, and finds nothing if and only if every backend is missing |
| `QuotaCache.ResolveConcat` | internal/controller/quota_policy.go:100-117 | a found backend is kept in its place, a missing one is skipped |
| `QuotaCache.SyncRefusedIff` | internal/controller/quota_policy.go:97-133 | a sync is refused for a failed lookup, for a list of backends none of which is found, and for a failed build of those found; what it caches otherwise |
| `QuotaCache.QuotaPolicyController.SyncQuotaPolicy` | internal/controller/quota_policy.go:97-145 | cache and pushed snapshot after a sync; nothing changes when a backend lookup or the build fails |
| `QuotaCache.QuotaPolicyController.DeleteQuotaPolicyConfig` | internal/controller/quota_policy.go:149-157 | cache and pushed snapshot after a deletion |
| `QuotaCache.CacheIsLatest` | internal/controller/quota_policy.go:97-157 | after any history, a policy's cache entry is that of its latest event |
| `QuotaCache.CacheHasOnlyPolicies` | internal/controller/quota_policy.go:97-157 | after any history, every cache entry is that of a policy whose latest event is a sync |
| `QuotaCache.SameLatestSameCache` | internal/controller/quota_policy.go:97-157 | two histories with the same latest versions leave the same cache |
| `QuotaCache.PushedIsRebuild` | internal/controller/quota_policy.go:97-187 | and push the same snapshot: order and superseded versions leave no trace |
| `QuotaCache.PushedIsSomePrefix` | internal/controller/quota_policy.go:97-157 | the served snapshot is that of the last accepted event, none if there was none; refused pushes leave no trace |
| `QuotaCache.SyncThenDelete` | internal/controller/quota_policy.go:97-157 | deleting a policy undoes its sync, whatever other policies did between |
| `QuotaCost.InjectRef` | internal/controller/gateway.go:1064-1079 | one target reference adds an entry unless its key was seen, and earlier entries stay |
| `QuotaCost.InjectQuota` | internal/controller/gateway.go:1061-1079 | all target references of one quota, in order |
| `QuotaCost.CollectRoute` | internal/controller/gateway.go:1018-1028 | exactly the backends and the model name overrides of the route |
| `QuotaCost.InjectIfApplies` | internal/controller/gateway.go:1045-1079 | a quota counts if and only if it names a model, the route has no override or has that one, and the expression is valid |
| `QuotaCost.InjectQuotas` | internal/controller/gateway.go:1044-1080 | all quotas of one policy, in order |
| `QuotaCost.TargetsRoute` | internal/controller/gateway.go:1032-1042 | true if and only if the policy targets a backend of the route |
| `QuotaCost.InjectQuotaPolicyCostExpressions` | internal/controller/gateway.go:1005-1082 | the nested loops emit the first of each key among all candidates; a failed listing emits nothing |
| `QuotaCost.KeyInjective` | internal/controller/gateway.go:1065-1066 | the deduplication key stands for the pair of model and backend |
| `QuotaCost.PoliciesMembers` | internal/controller/gateway.go:1030-1081 | a candidate arises if and only if some policy contributes it |
| `QuotaCost.EntryIffCandidate` | internal/controller/gateway.go:1064-1079 | a pair has an entry if and only if it has a candidate |
| `QuotaCost.EntryUnique` | internal/controller/gateway.go:1064-1079 | a pair has at most one entry |
| `QuotaCost.FirstCandidateDecides` | internal/controller/gateway.go:1064-1079 | the first candidate of a pair is the one emitted |
| `QuotaCost.EntryIff` | internal/controller/gateway.go:1005-1082 | a pair has an entry if and only if some policy of the list contributes it |
| `QuotaCost.SameEntry` | internal/controller/gateway.go:1064-1079 | two emitted entries of one pair are the same entry |
| `QuotaCost.EarlierEntriesStay` | internal/controller/gateway.go:1005-1082 | entries that earlier policies gave are neither changed nor doubled by later ones |
| `QuotaCost.FirstQuotaDecides` | internal/controller/gateway.go:1005-1082 | the one entry of a pair holds the expression of the first policy for the pair in list order and, within it, of the first applying quota for the model, `total_tokens` if that names none; its backend and route in full |
| `QuotaCost.EntryWasAsked` | internal/controller/gateway.go:1005-1082 | every entry was asked for by a quota of a policy of the route, and holds its expression or the default, the target, the route and the model |
| `QuotaCost.AskedHasEntry` | internal/controller/gateway.go:1005-1082 | and every such quota and target has an entry |
| `BodyMutation.Mutate` | internal/bodymutator/body_mutator.go:85-127 | each field of the body afterwards: set, removed or untouched |
| `BodyMutation.AddFields` | internal/controller/gateway.go:279-290 | a later list overrides an earlier one field by field; within a list the last entry wins |
| `BodyMutation.FieldsInSomeOrder` | internal/controller/gateway.go:292-295 | any order of the Go map yields the same settings, one per path |
| `BodyMutation.MergeBodyMutations` | internal/controller/gateway.go:269-312 | route settings override backend settings, removals are united, and the nil cases |
| `BodyMutation.MergedVersusSequential` | api/v1beta1/ai_gateway_route.go:368-375 | the merge acts like backend first, route second if and only if the route does not remove a field that only the backend sets; then the backend's value stays |
| `BodyMutation.ExecuteBothWays` | internal/bodymutator/body_mutator.go:85-127 | the same for whole bodies: merging first or applying one after the other agree if and only if no such field exists |
| `BodyMutation.RouteRemovalCanLose` | api/v1beta1/ai_gateway_route.go:368-375 | an instance where the route's removal loses |
| `HostModels.DeclaredModels` | internal/controller/gateway.go:419-435 | the models a route declares, in rule, match and header order |
| `HostModels.DeclaredIff` | internal/controller/gateway.go:416-435 | a route declares a model if and only if some rule matches exactly on the model header with its name; creation time and owner are the rule's, else the route's and `Envoy AI Gateway` |
| `HostModels.RuleModelsConcat` | internal/controller/gateway.go:419-435 | within a rule the models follow the order of the headers |
| `HostModels.RulesModelsConcat` | internal/controller/gateway.go:416-435 | within a route they follow the order of the rules |
| `HostModels.AllModelsConcat` | internal/controller/gateway.go:406-435 | and in the whole list that of the routes |
| `HostModels.UnscopedConcat` | internal/controller/gateway.go:443-448 | so does the unscoped list |
| `HostModels.ScopedConcat` | internal/controller/gateway.go:436-442 | and the list of every host |
| `HostModels.ShareAbsent` | internal/controller/gateway.go:436-442 | a route adds nothing to a host it does not name |
| `HostModels.ShareOnce` | internal/controller/gateway.go:436-442 | a route that names a host once adds each of its models once, in order |
| `HostModels.AddModel` | internal/controller/gateway.go:436-442 | one model is appended to the list of each hostname, other hosts are untouched |
| `HostModels.AddScoped` | internal/controller/gateway.go:436-442 | the same for all models of a route |
| `HostModels.PromoteUnscoped` | internal/controller/gateway.go:553-563 | every existing host list is extended by the unscoped models; no host is added |
| `HostModels.CollectModels` | internal/controller/gateway.go:406-450 | the route loop gathers all models, each host's, and those of routes without hostnames, skipping routes being deleted |
| `HostModels.CompileModels` | internal/controller/gateway.go:404-450 | the three model lists of the configuration, for all routes |
| `HostModels.ModelsConserved` | internal/controller/gateway.go:404-450 | every declared model is scoped or unscoped, none is lost or doubled |
| `HostModels.ScopedMembers` | internal/controller/gateway.go:436-442 | a host's scoped list holds exactly the models of routes naming it |
| `HostModels.UnscopedMembers` | internal/controller/gateway.go:443-448 | the unscoped list holds exactly the models of routes without hostnames |
| `HostModels.WildcardUnique` | internal/extproc/models_processor.go:184-204 | at most one wildcard matches a host, so map order cannot show |
| `HostModels.SelectModelsForHost` | internal/extproc/models_processor.go:176-216 | exact host, else its wildcard, else the unscoped models |
| `HostModels.ByHostNonEmpty` | internal/controller/gateway.go:553-563 | host lists exist if and only if a live route with hostnames declares a model, and none is empty |
| `HostModels.HostIsolation` | internal/extproc/models_processor.go:176-216 | exactly which models every host is served, from the headers of the routes: the empty host and Gateways without a scoped route included, one label for a wildcard; none of a route scoped to other hosts |
| `InferencePool.Port` | internal/extensionserver/inferencepool.go:403-413 | the port is within 16 bits |
| `InferencePool.DerivedIs` | internal/extensionserver/inferencepool.go:320-423 | cluster, filter, DNS name and authority in full; port 9002 for none or one out of range; buffered mode and override for the values `buffered` and `true` only |
| `InferencePool.ClusterNamesDistinct` | internal/extensionserver/inferencepool.go:416-418 | cluster names are equal if and only if name and namespace are |
| `InferencePool.EncodeIsJoin` | internal/extensionserver/post_cluster_modify.go:21-24 | the reference is six fields joined by slashes |
| `InferencePool.EncodedIs` | internal/extensionserver/post_cluster_modify.go:21-24 | the six fields as written, with `duplex` and `false` for absent annotations |
| `InferencePool.DecodeSix` | internal/extensionserver/inferencepool.go:89-130 | six slash-free fields are accepted if and only if the fourth is a number, each into its own place |
| `InferencePool.DecodeEncoded` | internal/extensionserver/inferencepool.go:89-130 | decoding an encoded pool: the pool with defaults filled in, or nothing if a field holds a slash |
| `InferencePool.RoundTrip` | internal/extensionserver/inferencepool.go:89-184 | decodable if and only if slash-free; then everything derived from the pool survives, and encoding again gives the same string |
| `InferencePool.Metadata.BuildEPPMetadata` | internal/extensionserver/inferencepool.go:152-184 | only the one key of the one namespace changes, and the pool can be read back from it |
| `RouteIndex.AttachedGatewayIndexFunc` | internal/controller/controller.go:394-406 | one key per parent reference, name and namespace around a dot; an absent or empty namespace is the route's own |
| `RouteIndex.ParentRefsMatchGateway` | internal/controller/gateway_mutator.go:216-227 | true if and only if some parent reference names the Gateway, in the namespace given or, absent or empty, in the route's own |
| `RouteIndex.IndexEqualsScan` | internal/controller/gateway_mutator.go:150-169 | index lookup and scan agree on every route whose namespaces are DNS labels |
| `RouteIndex.DottedNamespaceConfuses` | internal/controller/controller.go:394-406 | with a dotted namespace they would not |
| `RouteIndex.FilterRoutesForGateway` | internal/controller/gateway_mutator.go:192-210 | the attached routes, in order |
| `RouteIndex.SelectConcat` | internal/controller/gateway_mutator.go:192-210 | a route stays where it is in the list if some reference of it names the Gateway, and is left out otherwise |
| `RouteIndex.ListByIndex` | internal/controller/gateway_mutator.go:150-160 | the indexed listing gives those same routes |
| `RouteIndex.ListRoutesForGateway` | internal/controller/gateway_mutator.go:150-190 | cache first, live scan if the cache fails or is empty; with equal contents the path does not matter |
| `HttpRoute.TargetKindIndexFunc` | internal/controller/controller.go:533-545 | exactly the keys of the grant's target kinds |
| `HttpRoute.IsReferenceGrantValid` | internal/controller/referencegrant.go:113-180 | true if and only if some from entry and some to entry match |
| `HttpRoute.KeyFixesNamespace` | internal/controller/controller.go:533-545 | a grant found by key lies in the target's namespace and names its kind, and conversely |
| `HttpRoute.ValidateReference` | internal/controller/referencegrant.go:73-109 | allowed if and only if same namespace or some grant in the target's namespace permits it; a failing list of grants permits nothing |
| `HttpRoute.CompileRef` | internal/controller/ai_gateway_route.go:257-314 | a reference compiles if and only if it is authorised and its backend exists, to what, and that it resolves in the namespace that was authorised |
| `HttpRoute.CompileRule` | internal/controller/ai_gateway_route.go:254-329 | a rule compiles if and only if all its references do |
| `HttpRoute.CompileRules` | internal/controller/ai_gateway_route.go:253-329 | the rules compile one by one, all of them or none |
| `HttpRoute.AcceptedIff` | internal/controller/ai_gateway_route.go:257-296 | a reference is acceptable if and only if it stays in the namespace or a grant of the target names this kind of route, its namespace and the kind of target, and its AIServiceBackend exists |
| `HttpRoute.CompiledIs` | internal/controller/ai_gateway_route.go:253-329 | a compiled rule field by field: name, group, kind, name, namespace and weight of each reference, matches, filter, timeouts with 60s for an absent request timeout |
| `HttpRoute.NewHTTPRoute` | internal/controller/ai_gateway_route.go:244-372 | nothing if and only if some reference is not acceptable; otherwise all rules in order, field by field, then the not-found rule; labels, annotations, parent references and hostnames |
| `HttpRoute.RulePriorities` | internal/controller/ai_gateway_route.go:465-477 | the entries of one rule, in order |
| `HttpRoute.BuildPriorityAnnotation` | internal/controller/ai_gateway_route.go:465-477 | the entries of all rules, joined by commas |
| `HttpRoute.AnnotationGrows` | internal/controller/ai_gateway_route.go:465-477 | every backend adds `rule:name:priority` after a comma, an absent priority as zero |
| `HttpRoute.AnnotationKeeps` | internal/controller/ai_gateway_route.go:465-477 | a rule without backends adds nothing |
| `HttpRoute.PrintInjective` | internal/controller/ai_gateway_route.go:465-477 | an entry can be read off its text |
| `HttpRoute.AnnotationInjective` | internal/controller/ai_gateway_route.go:465-477 | two routes have the same annotation if and only if all rule indices, names and priorities agree |
| `ExtProc.MergeEnvVars` | internal/controller/extproc_builder.go:341-365 | the loop over the name index replaces in place or appends |
| `ExtProc.MergeEnvMeaning` | internal/controller/extproc_builder.go:340-365 | as a map from name to value, the merge is the global values overridden by the Gateway's |
| `ExtProc.MergeEnvNames` | internal/controller/extproc_builder.go:340-365 | global variables keep their positions |
| `ExtProc.RepositoryKeepsTag` | internal/controller/extproc_builder.go:385-411 | a repository override keeps the tag, with a registry port present or not |
| `ExtProc.RepositoryKeepsDigest` | internal/controller/extproc_builder.go:385-411 | and the digest |
| `ExtProc.ImageSpelledOut` | internal/controller/extproc_builder.go:368-411 | which image is used: the one given, the global one with its repository replaced, or the global one |
| `ExtProc.BuiltEnvMeaning` | internal/controller/extproc_builder.go:121-203 | the built container's environment is the global one overridden by the GatewayConfig's |
| `ExtProc.OptionsSpelledOut` | internal/controller/extproc_builder.go:290-334 | the command line has a flag with a value if and only if the configuration says so, flag by flag |
| `ExtProc.RedactionIsLast` | internal/controller/extproc_builder.go:290-334 | the redaction flag, the one without a value, is there if and only if it is enabled, and last |
| `ExtProc.Pod.MutatePod` | internal/controller/gateway_mutator.go:229-407 | when the webhook fails, when it leaves the pod alone, and the whole pod otherwise |
| `ExtProc.Pod.MountSockets` | internal/controller/gateway_mutator.go:395-405 | the socket volume is mounted in the Envoy container only |
| `ExtProc.DirOfIs` | internal/controller/gateway_mutator.go:348 | the directory the socket volume is mounted at: what stands before the last slash of the socket path, `/` or `.` if nothing does |
| `ExtProc.ConfigIsMounted` | internal/controller/gateway_mutator.go:343-386 | the first two arguments name the bundle if it exists and the legacy file otherwise, under a path that the container mounts from the Gateway's volume |
| `ExtProc.ConfigVolumes` | internal/controller/gateway_mutator.go:278-336 | and the pod has that volume, from the index Secret or the legacy Secret |
| `ExtProc.ContainerSpelledOut` | internal/controller/gateway_mutator.go:349-386 | name, image, arguments, mounts, resources and security context of the injected container |
| `ExtProc.PlacedSpelledOut` | internal/controller/gateway_mutator.go:336-406 | where it goes, and that nothing else changes but the socket mounts of `envoy`, the volumes and the pull secrets |
| `ExtProc.AddedVolumesDistinct` | internal/controller/gateway_mutator.go:277-336 | the volumes added to a pod have different names, for every Gateway |
| `ExtProc.DigestDecidesContainer` | internal/controller/extproc_builder.go:207-263 | equal hash inputs build equal containers, across options and inputs |
| `ExtProc.DigestDecidesPod` | internal/controller/extproc_builder.go:207-263 | and mutate every pod equally |
| `ExtProc.HashSeesEveryChange` | internal/controller/extproc_builder.go:235-263 | a changed container or pull-secret list changes the hash, unless the two inputs collide |
| `ExtProc.CheckContainers` | internal/controller/gateway.go:1164-1214 | the first container with that name and image decides |
| `ExtProc.CheckArgs` | internal/controller/gateway.go:1164-1214 | level and MCP conditions over all positions of the argument list |
| `ExtProc.CheckPodHasSideCar` | internal/controller/gateway.go:1164-1214 | init containers or containers are searched, depending on the mode |
| `ExtProc.LevelInPairs` | internal/controller/extproc_builder.go:290-334 | what the scan for the level sees in a flattened command line: flags, and values read as flags |
| `ExtProc.McpInPairs` | internal/controller/extproc_builder.go:290-334 | the same for the MCP address |
| `ExtProc.RecognisedIff` | internal/controller/gateway.go:1164-1214 | for a pod the webhook mutated, what the check comes to: mode, image and command line |
| `ExtProc.FlagsOf` | internal/controller/extproc_builder.go:290-334 | the level flag appears once and in second place; the MCP flag appears if and only if MCP is needed |
| `ExtProc.CommandLineChecks` | internal/controller/extproc_builder.go:290-334 | level and MCP condition of a built command line, exactly, with the option values that disturb them |
| `ExtProc.AcceptedIff` | internal/controller/gateway.go:1164-1214 | a pod mutated under one configuration is accepted under another if and only if mode, image and level agree, MCP is covered, and no value disturbs |
| `ExtProc.PlainIsQuiet` | internal/controller/extproc_builder.go:290-334 | values other than the two flags themselves never disturb |
| `ExtProc.AcceptedIffPlain` | internal/controller/gateway.go:1164-1214 | so for such options acceptance is just agreement of mode, image, level and MCP |
| `ExtProc.SelfAcceptedIff` | internal/controller/gateway.go:1164-1214 | under the same configuration: accepted if and only if no value disturbs the level scan |
| `ExtProc.NoisyRootPrefix` | internal/controller/extproc_builder.go:290-334 | a root prefix of `-logLevel` does disturb it |
| `Rollout.NeedsStateIff` | internal/controller/gateway.go:1266-1310 | a rollout is asked for if and only if a live pod is not as wanted, or pods are wanted and none is live |
| `Rollout.IsRolloutInProgress` | internal/controller/gateway.go:1217-1245 | true if and only if some workload is mid-rollout |
| `Rollout.LookAtPods` | internal/controller/gateway.go:1266-1281 | what the pod loop records, including where it stops early |
| `Rollout.Cluster.AnnotateGatewayPods` | internal/controller/gateway.go:1250-1354 | on listed pods and listed workloads: requeue if and only if mid-rollout; otherwise the workloads up to the first failing patch carry the uuid if and only if a live pod is not as wanted, the hash if and only if they were listed without it, and a new revision if and only if either; the failing one too if only its reply was lost, none if annotating a pod fails |
| `Rollout.RevisionIsAnnotation` | internal/controller/gateway.go:1305-1343 | with a fresh uuid and a current listing a template has a new revision if and only if an annotation of it changed |
| `Rollout.AtomicReconcile` | internal/controller/gateway.go:1250-1343 | with the workloads as listed this is the reconcile at one moment that the next rows speak of |
| `Rollout.StepSane` | internal/controller/gateway.go:1217-1245 | every event keeps it true that a workload not seen mid-rollout has only live pods of its current template |
| `Rollout.ReconcileSettles` | internal/controller/gateway.go:1250-1343 | one completed reconcile at one moment leaves nothing to ask for once pods are replaced |
| `Rollout.SettledIsGood` | internal/controller/gateway.go:1250-1343 | settled and no rollout in progress: every live pod is as wanted |
| `Rollout.SettledIsQuiet` | internal/controller/gateway.go:1250-1343 | a reconcile at one moment in a settled state changes nothing |
| `Rollout.ConsistentIff` | internal/controller/gateway_mutator.go:229-407 | when webhook and check agree on every new pod, exactly |
| `Rollout.StepSettled` | internal/controller/gateway.go:1250-1343 | every event, such a reconcile included, keeps the settled state and every template revision |
| `Rollout.NoMorePatches` | internal/controller/gateway.go:1250-1343 | so does every run of such events |
| `Rollout.PatchesBounded` | internal/controller/gateway.go:1250-1343 | with nothing between lists and patches: from any sane state, over any run, each template is patched at most once more than reconciles failed; at most once if none does |
| `Rollout.QuietAfterFirstComplete` | internal/controller/gateway.go:1250-1343 | with nothing between lists and patches: after the first complete reconcile no workload is patched again |
| `Rollout.ContainerChangeRollsOut` | internal/controller/gateway.go:1305-1343 | a configuration that builds another container is rolled out to every workload with the previous hash |
| `Rollout.RolloutCanComplete` | internal/controller/gateway.go:1217-1245 | from every state Kubernetes can finish: no rollout in progress, no template touched, and live pods of the current revision as the webhook makes them |
| `Rollout.ReachesWanted` | internal/controller/gateway.go:1250-1343 | from every sane state some run with a single reconcile ends with every live pod as wanted and nothing left to do |
| `Rollout.RollsForever` | internal/controller/gateway.go:1250-1343 | for every n some run patches every template n times, though no patch fails: with live pods throughout if webhook and check disagree, with no live pod if a route is effective |
| `Rollout.SettlesIff` | internal/controller/gateway.go:1250-1343 | with nothing between lists and patches: from every sane state a template's patches are bounded, and then by one, if and only if webhook and check agree; without a live pod at every reconcile, if and only if besides no route is effective |
| `Rollout.UnobservedDaemonSetRolls` | internal/controller/gateway.go:1217-1245 | with a DaemonSet that never reports and a live pod of it not as wanted, whatever the other workloads are, for every n some run patches every template n times |
| `Rollout.StalePodListPatchesAgain` | internal/controller/gateway.go:1378-1401 | when a pod list makes a settled reconcile patch again, exactly: it shows a live pod not as wanted, or no live pod where one is wanted |
| `RolloutSteps.KubeEvolves` | internal/controller/gateway.go:1378-1401 | what Kubernetes can change under a running pass: no template, no hash, and new live pods are as wanted |
| `RolloutSteps.EarlyStep` | internal/controller/gateway.go:1250-1343 | every call and every event keep what a pass started in any state may rely on: a good pod list means good pods, listed hashes are current, workloads already patched are settled |
| `RolloutSteps.PatchEarly` | internal/controller/gateway.go:1305-1343 | the pass that patches its last workload leaves the loop settled, whatever fell between its calls |
| `RolloutSteps.LateStep` | internal/controller/gateway.go:1250-1343 | in a settled loop a pass that saw no rollout in progress finds all live pods as wanted, whatever its older pod list says |
| `RolloutSteps.FinalStep` | internal/controller/gateway.go:1250-1343 | once all live pods are as wanted and the pass has seen so, no call patches anything |
| `RolloutSteps.AtMostOnceMore` | internal/controller/gateway.go:1250-1343 | from a settled state on, failures or not, each template is patched at most once more |
| `RolloutSteps.PatchesBoundedInSteps` | internal/controller/gateway.go:1250-1343 | in every run of single calls and Kubernetes events from every sane state each template is patched at most twice, and once more for each failing patch |
| `RolloutSteps.OnePass` | internal/controller/gateway.go:1378-1401 | a reconcile at one moment is a run of single calls with nothing in between |
| `RolloutSteps.Expanded` | internal/controller/gateway.go:1250-1343 | every run of such reconciles without failures is a run of single calls |
| `RolloutSteps.PatchedTwice` | internal/controller/gateway.go:1378-1401 | from every state with no rollout in progress and a live pod not as wanted, a run without failures patches every template twice: list, patch, list the pods, Kubernetes completes, patch |
| `RolloutSteps.TwoIsLeast` | internal/controller/gateway.go:1378-1401 | so two is the least bound there |
| `RolloutSteps.SettlesIffInSteps` | internal/controller/gateway.go:1250-1343 | call by call: patches are bounded, and then by two, if and only if webhook and check agree; without a live pod at every listing, if and only if besides no route is effective |
| `SharedBackend.UserKeepsInv` | internal/controller/mcp_route.go:521-567 | user actions between any two calls keep the invariant |
| `SharedBackend.BeginKeepsInv` | internal/controller/controller.go:578-611 | picking up a route keeps it |
| `SharedBackend.NextKeepsInv` | internal/controller/mcp_route.go:532-642 | every API call keeps it, refused, lost or successful |
| `SharedBackend.SyncedRoutesAreServed` | internal/controller/mcp_route.go:532-642 | in every interleaving, a live route that completed a sync has the shared Backend |
| `SharedBackend.InitialInv` | internal/controller/mcp_route.go:532-567 | a namespace without MCPRoutes is a start, whatever Backends users have |
| `SharedBackend.OnlyCleanupRemovesShared` | internal/controller/mcp_route.go:585-642 | in every run the shared Backend goes away only by a user, or by the clean-up while no live route has completed a sync |
| `SharedBackend.CleanupDeletesWhatItRead` | internal/controller/mcp_route.go:585-642 | in every run, an object a clean-up is about to delete and that has not changed since it was read is labelled, or owned by the route |
| `SharedBackend.CleanupCompletes` | internal/controller/mcp_route.go:585-618 | an undisturbed clean-up ends with the route gone, and the Backend gone if and only if no other route is live and it carries the label; how many calls it takes |
| `SharedBackend.SyncCompletes` | internal/controller/mcp_route.go:532-642 | an undisturbed sync ends with the finalizer set, the Backend there, labelled and unowned if it is new, and the route's own legacy Backend gone |
| `SharedBackend.DropTakesRoute` | internal/controller/controller.go:595-609 | whatever users do meanwhile, the last call of a clean-up takes the route if and only if it takes effect |
| `SharedBackend.UnlabelledDeletedIff` | internal/controller/mcp_route.go:600-618 | whatever happens between its Get and its Delete, the clean-up deletes a Backend without the label if and only if the Delete takes effect and the last effective change in between wrote one without the label |
| `SharedBackend.UnownedDeletedIff` | internal/controller/mcp_route.go:624-642 | the legacy clean-up deletes a Backend the route does not own if and only if the last effective change in between gave it another owner or none |
| `SharedBackend.ChangedBackendIsDeleted` | internal/controller/mcp_route.go:600-618 | a run from an empty namespace that ends so: create, sync, delete, List, Get, then a user takes the label off or replaces the Backend |
| `SharedBackend.ChangedLegacyIsDeleted` | internal/controller/mcp_route.go:624-642 | the same for the legacy clean-up: a run from an empty namespace in which a user takes the owner off after the Get |
| `McpLifecycle.OrphanNames` | internal/controller/mcp_route.go:248-274 | deriving filter and Secret names from an HTTPRoute name hits exactly that backend's objects |
| `McpLifecycle.NamesInjective` | internal/controller/mcp_route.go:644-650 | different backends of a route have different objects |
| `McpLifecycle.SyncedNamesDistinct` | internal/controller/mcp_route.go:88-165 | a sync that succeeds had no backend twice |
| `McpLifecycle.RoutesAfter` | internal/controller/mcp_route.go:88-165 | the HTTPRoutes after the backend loop, with the others untouched |
| `McpLifecycle.FilterAfter` | internal/controller/mcp_route.go:776-843 | the filters after the loop, with the others untouched |
| `McpLifecycle.RefContents` | internal/controller/mcp_route.go:656-709 | each listed backend's HTTPRoute and filter describe that backend, whatever came later in the loop |
| `McpLifecycle.PreviousUnchanged` | internal/controller/mcp_route.go:776-843 | the previous filter of a backend is not disturbed by the backends before it |
| `McpLifecycle.LastSecret` | internal/controller/mcp_route.go:776-897 | one backend's step touches only its own credential Secret |
| `McpLifecycle.OtherSecrets` | internal/controller/mcp_route.go:776-897 | Secrets of no listed backend are untouched by the loop |
| `McpLifecycle.RefSecret` | internal/controller/mcp_route.go:776-897 | a listed backend has its Secret after the loop if and only if it wants one, strays apart |
| `McpLifecycle.SyncMakesRoutesExact` | internal/controller/mcp_route.go:88-165 | after a sync the route's HTTPRoutes are exactly those listed, from any state |
| `McpLifecycle.AfterSync` | internal/controller/mcp_route.go:88-274 | which filters and Secrets exist after a sync, for every backend name |
| `McpLifecycle.AfterSyncRef` | internal/controller/mcp_route.go:88-274 | and, for each listed backend, their contents |
| `McpLifecycle.StrayFreeGivesExact` | internal/controller/mcp_route.go:88-274 | without strays a sync makes routes, filters and Secrets exact |
| `McpLifecycle.ExactNeedsStrayFree` | internal/controller/mcp_route.go:88-274 | and only without strays |
| `McpLifecycle.ExactIffStrayFree` | internal/controller/mcp_route.go:88-274 | both directions together |
| `McpLifecycle.ExactIsStrayFree` | internal/controller/mcp_route.go:88-274 | an exact state has no strays for whatever backend list comes next |
| `McpLifecycle.RunsStayExact` | internal/controller/mcp_route.go:88-274 | over any run of successful syncs with changing lists and other actors between, every sync ends exact |
| `McpLifecycle.CredentialIsCurrent` | internal/controller/mcp_route.go:848-914 | after a sync the stored credential is the key in the referenced Secret, after `Bearer ` for an absent or `Authorization` header and verbatim for any other |
| `McpLifecycle.RefusedIff` | internal/controller/mcp_route.go:449-463 | when a backend reference is refused: another namespace, no readable key, or a name taken by an HTTPRoute that is not listed |
| `McpLifecycle.SyncedObjects` | internal/controller/mcp_route.go:656-843 | the HTTPRoute and filter of every listed backend under their full names; the filter injects the Secret into the configured header if and only if the key is a Secret's and goes into a header |
| `McpLifecycle.RetryHealsIff` | internal/controller/mcp_route.go:88-274 | of all points a sync can stop at, a retry of the same backends heals all but those in an orphan whose HTTPRoute is gone and whose filter or Secret is not |
| `McpLifecycle.RetryFromExactIff` | internal/controller/mcp_route.go:248-274 | from an exact state: not healed if and only if stopped between HTTPRoute and filter of an orphan, or between its filter and the Secret it had |
| `McpLifecycle.NextSyncIff` | internal/controller/mcp_route.go:88-274 | after a sync stopped anywhere, a completed sync of any list ends exact if and only if nothing of the one backend whose calls were cut is out of its reach |
| `McpLifecycle.OrphanPassLeaks` | internal/controller/mcp_route.go:248-262 | an instance: the orphan pass stops after the HTTPRoute, and retrying the same empty list leaves the filter |
| `McpLifecycle.DroppedBackendLeaks` | internal/controller/mcp_route.go:656-709 | and one where the list changes: a first sync stops after writing a credential, the backend is dropped, and the Secret stays |
| `McpLifecycle.NamesClashIff` | internal/controller/mcp_route.go:644-650 | when two backends of two MCPRoutes get the same object names, exactly |
| `McpLifecycle.NamesCanClash` | internal/controller/mcp_route.go:167-169 | an instance: route `a` with backend `b-c`, route `a-b` with backend `c` |
| `McpLifecycle.OtherRoutesUntouched` | internal/controller/mcp_route.go:88-165 | a sync, completed or not, leaves every object of another MCPRoute alone unless one route's name continues the other's after a dash |
| `McpLifecycle.Cluster.EnsureCredentials` | internal/controller/mcp_route.go:848-914 | the Secret written, or why not, failing reads included; under any faults only this MCPRoute's objects change |
| `McpLifecycle.Cluster.EnsureFilter` | internal/controller/mcp_route.go:776-843 | the superseded Secret removed, then the filter written; under faults, some prefix of that |
| `McpLifecycle.Cluster.SyncBackendRef` | internal/controller/mcp_route.go:449-463 | one backend; when it does not complete, after which of its calls it stopped |
| `McpLifecycle.Cluster.SyncBackendRefs` | internal/controller/mcp_route.go:122-149 | the backend loop, which HTTPRoutes it leaves as orphans, and where it stopped otherwise |
| `McpLifecycle.Cluster.DeleteOrphan` | internal/controller/mcp_route.go:248-274 | one orphan's three objects are gone, or the first one or two of them |
| `McpLifecycle.Cluster.DeleteOrphans` | internal/controller/mcp_route.go:248-274 | all orphans' objects are gone, in any map order, or where the pass stopped |
| `McpLifecycle.Cluster.SyncMCPRoute` | internal/controller/mcp_route.go:88-165 | the whole sync; success without faults unless the specification is rejected; otherwise stopped at one of the points the lemmas speak of; always confined to this MCPRoute's objects |

## Left out

- Header mutations (`mergeHeaderMutations`, header mutator): the same merge under case folding, it would only add easy members.
- `ParseExtraEnvVars`, `ParseImagePullSecrets` and flag parsing: option values arrive parsed.
- YAML and JSON encoding: the bundle index and the hash input are taken to be encoded without loss.
- SHA-256 and the short hash are parameters; collision-freedom is a `requires` where it is needed, never proved.
- Backend authentication, BackendSecurityPolicy, credential overrides, OAuth and the MCP security policy.
- The main HTTPRoute of an MCPRoute, status conditions, and events sent to other controllers.
- The legacy single-Secret filter configuration is modelled as a mounted Secret only, not its writing.
- Ports, probes, resources and the security context of the container, beyond being part of what is built and hashed.
- `filepath.Dir` on the socket path: the part before the last slash, without cleaning the path.
- Go strings are sequences of characters, one per byte.
- BodyMutation.Mutate: paths are top-level keys and the reading of a value as JSON is a parameter; nested paths and malformed bodies are not modelled.
- QuotaCache.QuotaPolicyController.SyncQuotaPolicy: building a policy's rate-limit configurations and the acceptance of a snapshot by the xDS server are parameters.
- QuotaCache.SortStrings: the library sort is modelled by insertion; only its result matters.
- QuotaCost.InjectQuotaPolicyCostExpressions: validity of a CEL expression is a parameter, and so is the listing of policies.
- HttpRoute.NewHTTPRoute: header matches, hostnames and parent references are opaque values that are copied.
- RouteIndex.ListByIndex: namespaces are DNS labels (section 2.1 of RFC 1123), which hold no dot.
- HttpRoute.ValidateReference: the same for namespaces.
- RolloutSteps.PatchesBoundedInSteps: a workload's reported status is an exact count at the moment it is reported; a pod must be live whenever pods are listed under an effective route (`SettlesIffInSteps` says why); a DaemonSet must have been reported on once (`UnobservedDaemonSetRolls` says why); and only this controller changes the templates.
- Rollout.PatchesBounded: lists and patches of one reconcile are of one moment; `RolloutSteps` is without that.
- Rollout.Cluster.AnnotateGatewayPods: the annotation written on the pods themselves, a refresh hint to the kubelet, is not modelled, only that writing it may fail; such a reconcile patches no workload, and the runs include it.
- McpLifecycle.Cluster.SyncMCPRoute: the main HTTPRoute and the security policy are not among the calls, and the run is of one MCPRoute's objects; what two routes with clashing names do to each other is not followed up beyond `NamesClashIff`.
- McpLifecycle.RunsStayExact: the runs are of successful syncs; `RetryHealsIff` and `ExactIffStrayFree` cover what a failed one leaves.
- SharedBackend.SyncedRoutesAreServed: reconciles of MCPRoutes run one at a time, the controller's default, and a Get or List through the manager's cache shows the current state; a Get that still showed a Backend just deleted would let a route complete its sync without one.
