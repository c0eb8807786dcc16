# Verified model of the claw operator

A Dafny 4.11 model of the parts of the claw operator and its egress proxy whose behaviour is
hard to see from any one function, with proofs for all inputs and all runs.
`dafny verify dfyconfig.toml` checks everything.

* **Doctor migration** (`Migration`, `MigrationImages`, `MigrationCluster`, `JobNames`): the reconciler, the
  Deployment and Job controllers and the user as one state machine. Every action is one
  atomic event, so a run is any interleaving. `MigrationCluster.Cluster` is the same
  reconciler in imperative form.
* **Proxy routes** (`Routes`, `RouteCompiler`, `RouteTheorems`, `RouteContents`,
  `RouteShadowing`, `RouteOrder`, `StableSort` on the operator's side; `PathClean`,
  `PathMeaning`, `Selection`, `ProxyMatcher`, `DomainForms` on the proxy's side): the
  compiler of credentials, MCP servers, web search and builtins, the matcher that interprets
  the list, and what holds end to end.
* **Config enrichment** (`JsonTree`, `ConfigPipeline`, `ConfigEnrichment`, `ConfigTheorems`,
  `ConfigContents`, `FinalConfig`, `PluginSettings`, `PluginEntries`, `LegacyConfig`): deep merge, the injection steps and the
  rewrite for the older schema, over arbitrary trees. `GoHeap`, `MemoryOwnership`, `MemoryFlag`
  and `LegacyHeap` model Go maps as shared mutable cells: what sharing does to the
  memory-search ownership flag and to the final config, and that the rewrite for the older
  schema never writes to its input.
* **Pairing requests** (`Pairing`, `PairingReconciler`, `PairingProgress`): the reconciler against an API server
  with versioned objects, stale reads, write conflicts and spec edits at any moment.
* **Kubeconfigs** (`Kubeconfig`, `KubeRoutes`): validation, the injector's token table, and a
  request's whole way from the validated file over the written route to the token.
* **Versions** (`Versions`, `VersionNumbers`), **env variables** (`EnvMerge`) and **workspace
  keys** (`Workspace`, `WorkspaceMeaning`).

What a single function computes is stated a second time without it, in the strings and numbers
of the outside: `MigrationImages`, `PathMeaning`, `DomainForms`, `RouteContents`, `FinalConfig`,
`PluginEntries`, `PairingProgress`, `VersionNumbers` and `WorkspaceMeaning` say what an image,
a path entry, a domain, a written route, a config value, a stored condition, a version and a
workspace key are, so that the theorems about runs and whole configs speak of them.

## Where the code and its promises part

Each point is a theorem below: the condition under which the promise holds and, where it can
fail, an input or run on which it fails.

* Isolation of the doctor Job rests on `status.replicas` never under-reporting running pods
  (`UnderReportingBreaksIsolation`). A Job for an image is created at most once per *name*;
  names coincide exactly when the cut prefixes and the digests do (`JobNamesCoincide`), so
  instance names beyond 47 characters can share Jobs (`LongInstancesCollide`).
* `domainCovered` and `domainMatches` disagree at the bare apex of a leading-dot credential.
  `ShadowedIff` says for which inputs the credential is shadowed there, `ApexInstance` is one.
  An MCP host that begins with a dot shadows credentials more widely (`DottedServerShadows`).
* Sorting does not make the written config independent of the order in which Go walks the
  MCP server map: it depends on it exactly if a config is written at all and two servers of
  one pass clash, that is, one's route covers the other's host and their routes differ
  (`OrderIrrelevantIff`). They clash on one host with two credentials
  (`ConflictingRefsDependOnOrder`), or if one host begins with a dot and the other ends in it
  (`DottedHostsDependOnOrder`).
* A path entry that cleans to the root, such as "/", matches the root alone, not every path
  (`PathEntryMeaning`).
* `deepMerge` says that neither input is mutated; it does not write to them, but it hands
  their nested maps to the result, where later steps write through them (`OwnershipFlag`).
  The wrong flag loses the repair of a stale "disabled" (`WrongFlagLosesRepair`).
* A pairing request edited between the Processing write and the re-fetch is reported as
  paired without ever being approved (`EditInWindowLosesRequest`). The window opens at the
  Processing write, not only at the end of the exec.
* Validation keys servers by host name as written, the injector by lower-case host name:
  two spellings of one host pass validation and are then served one token
  (`MixedCaseIsAcceptedButMisserved`).
* The injector is made for IPv6 servers, but no request to one reaches it: the route's domain
  is written without brackets, and the proxy cannot read it back (`ServerReachableIff`,
  `Ipv6IsAcceptedButRefused`). Without a port such a request would not find its token either
  (`PortlessRequestIff`).
* The high-water mark holds exactly as long as no version that becomes ready meets a mark it
  cannot be compared with (`HighWaterMarkIff`); `MalformedVersionResetsMark` is a run in
  which one does. A malformed part behind the deciding one does no harm.
* Two accepted workspace paths can share a ConfigMap key, and then one file is lost. A path
  that does not begin with a dash, and whose key has no spelling below "skills", shares its
  key exactly if it has a slash beside a dash or another slash (`SharedIffAmbiguous`);
  `SharedIffAmbiguousAfterDash` is the condition for a leading dash, and
  `DashBeforeSlashCollides` an instance.

## Model

| member | source | states |
|---|---|---|
| `Migration.DoctorJobRunsAlone` | internal/controller/claw_migration.go:177-219 | in every state of every run, an active doctor Job means zero requested replicas and no running gateway pod, and at most one doctor Job is active |
| `Migration.StepKeepsIsolation` | internal/controller/claw_resource_controller.go:586-597 | every action of any party keeps the isolation invariant, including what the reconcile in flight may rely on at each point |
| `Migration.RunKeepsIsolation` | internal/controller/claw_migration.go:177-219 | the invariant holds along every run from every state that has it |
| `Migration.ReconcileKeepsIsolation` | internal/controller/claw_resource_controller.go:701-706 | each API call of the reconciler keeps the invariant |
| `Migration.RecordedImageSucceeded` | internal/controller/claw_migration.go:224-231 | over every run, the recorded doctorFixImage is an image whose own Job has succeeded, if Job names of the run's images do not collide |
| `Migration.GatewayStartsOnlyWhenMigrated` | internal/controller/claw_resource_controller.go:586-597 | whenever a Deployment asking for replicas is applied, no doctor Job is active and the image is either not subject to migration in that snapshot or migrated by its own Job |
| `Migration.OneJobPerImage` | internal/controller/claw_migration.go:203-221 | over a whole run no image gets a second Job |
| `Migration.FailedImageIsNotRetried` | internal/controller/claw_migration.go:232-240 | once an image's Job is terminal, every continuation keeps it so and creates none for that image |
| `Migration.DefaultKeepsImage` | internal/controller/claw_deployment.go:41-49 | filling in the default version does not change the effective image |
| `Migration.StepKeepsHistory` | internal/controller/claw_migration.go:194-240 | every action keeps: Jobs are named after their image, and stored and held statuses only name migrated images |
| `Migration.RunKeepsHistory` | internal/controller/claw_migration.go:194-240 | the same along every run |
| `Migration.RunIsLater` | internal/controller/claw_migration.go:63-83 | Jobs are never lost, change image or withdraw a result in any run |
| `Migration.PauseGateway` | internal/controller/claw_migration.go:98-109 | a reconcile of a pending migration leaves the gateway at zero replicas with the wanted image |
| `Migration.RunDoctor` | internal/controller/claw_migration.go:184-215 | from every resting state with the migration pending, no Job active and none for the image, an undisturbed run exists in which the image's Job is created and succeeds |
| `Migration.ResumeGateway` | internal/controller/claw_migration.go:224-231 | with the migration pending, no Job active and the image's Job succeeded, an undisturbed run records the image, its Job and the Complete outcome and brings the gateway up on that image |
| `Migration.MigrationCanFinish` | internal/controller/claw_migration.go:177-240 | from every state with the isolation invariant, whatever reconcile is in flight and whichever Jobs are active, unless the wanted image's Job has failed: some undisturbed run ends with the gateway up on the wanted image, recorded as migrated if that was asked for |
| `Migration.FinishReconcile` | internal/controller/claw_resource_controller.go:433-706 | a reconcile in flight ends by itself without changing the spec or failing the image's Job |
| `Migration.JobsSettle` | internal/controller/claw_migration.go:63-83 | all active Jobs may complete, after which none is active and the image's Job, if any, has succeeded |
| `Migration.UnderReportingBreaksIsolation` | internal/controller/claw_migration.go:191-193 | if zero replicas are reported while a pod runs, the same reconciler starts a Job beside it |
| `MigrationImages.ReconcileApplies` | internal/controller/claw_deployment.go:41-49 | the Deployment a reconcile applies runs spec.image if set, else "ghcr.io/openclaw/openclaw:" and the version, "2026.6.10" where there is none; it is down iff a doctor Job runs or a migration is asked for and not recorded for that image |
| `MigrationImages.VersionsGetOwnImages` | internal/controller/claw_deployment.go:41-49 | specs without an image of their own and with different versions get different images |
| `MigrationImages.VersionEditIsPending` | internal/controller/claw_migration.go:49-61 | a new version makes a migration recorded for the old one pending, and the next reconcile takes the gateway down |
| `MigrationImages.MissingJobIsCreated` | internal/controller/claw_migration.go:206-221 | undisturbed reconciles create the one Job of exactly that image under its name, and the outcome is Pending |
| `MigrationImages.WaitsForPods` | internal/controller/claw_migration.go:184-193 | while the Deployment reports a replica or a ready pod, a reconcile of a pending migration takes the gateway down and does nothing else |
| `MigrationImages.WaitsForDoctor` | internal/controller/claw_migration.go:194-200 | and so while any doctor Job runs, be it of another image |
| `MigrationImages.SuccessIsRecorded` | internal/controller/claw_migration.go:224-231 | a Job that succeeded is recorded with its image and name, and the gateway comes up on that image |
| `MigrationImages.FailureIsReported` | internal/controller/claw_migration.go:232-238 | a Job that ended with failures and no success is reported as failed, nothing is recorded and the gateway stays at zero |
| `MigrationImages.EmptyJobIsWaitedFor` | internal/controller/claw_migration.go:239-240 | a Job with neither success nor failure changes no status and starts no other Job |
| `MigrationImages.GatewayComesUpOn` | internal/controller/claw_migration.go:177-240 | from every state with the isolation invariant, while the wanted image has no failed Job, some undisturbed run brings the gateway up on exactly that image, named by the strings of the spec |
| `MigrationImages.GatewayMayRun` | internal/controller/claw_resource_controller.go:586-597 | and then a gateway pod may run on it |
| `MigrationImages.OnlyWantedImages` | internal/controller/claw_deployment.go:41-49 | in every run the gateway, every doctor Job and the recorded migration name the image of some spec the user wrote |
| `MigrationImages.UnmigratedStaysDown` | internal/controller/claw_migration.go:85-87 | until the spec is edited, a migration whose Job gains no success keeps the gateway at zero in every run |
| `MigrationImages.IdleScalesDown` | internal/controller/claw_idle.go:39-105 | a reconcile of an idle instance scales an existing gateway to zero and changes nothing else |
| `MigrationImages.IdleStaysDown` | internal/controller/claw_idle.go:39-105 | from then on, until the spec is edited, no run starts a pod, creates a Job or writes a status |
| `JobNames.JobNameReads` | internal/controller/claw_migration.go:89-96 | the name in full: the instance without a final dash, cut after 47 characters, "-doctor-" and the digest |
| `JobNames.JobNameFits` | internal/controller/claw_migration.go:89-96 | a Job name never exceeds 63 characters |
| `JobNames.JobNamesCoincide` | internal/controller/claw_migration.go:89-96 | two names are equal if and only if the kept prefixes and the digests are |
| `JobNames.ShortInstancesKeepApart` | internal/controller/claw_migration.go:89-96 | instances of at most 47 characters without a final dash never share a name |
| `JobNames.LongInstancesCollide` | internal/controller/claw_migration.go:89-96 | instances that agree on their first 47 characters, a final dash aside, share every name |
| `JobNames.NoCollisionIsDigestInjective` | internal/controller/claw_migration.go:89-96 | for one instance, no name collision means exactly no digest collision |
| `MigrationCluster.PauseGatewayManifest` | internal/controller/claw_migration.go:98-109 | the first gateway Deployment in the array gets zero replicas, everything else stays, failure iff there is none |
| `MigrationCluster.Cluster.HasActiveDoctorFix` | internal/controller/claw_migration.go:72-83 | true iff some listed Job is an active doctor Job |
| `MigrationCluster.Cluster.ScaleToZero` | internal/controller/claw_idle.go:84-105 | only an existing gateway changes, and only its replicas |
| `MigrationCluster.Cluster.ApplyGateway` | internal/controller/claw_resource_controller.go:586-597 | the apply step of the machine; the image is the one the snapshot's strings name, and replicas are zero iff a Job is active or a migration is asked for and not recorded for that image |
| `MigrationCluster.Cluster.FinishDoctorFix` | internal/controller/claw_migration.go:203-240 | create, record success, record failure or wait, as the machine does |
| `MigrationCluster.Cluster.Advance` | internal/controller/claw_migration.go:177-240 | every API call of the imperative reconciler is the machine's step, so the theorems about runs hold of it |
| `PathClean.RenderPrefix` | internal/proxy/config.go:69-76 | on rendered paths, string prefix up to a slash is prefix on segments |
| `PathClean.CanonicalGivesSegments` | internal/proxy/config.go:69-76 | cleaning leaves nonempty segments without slashes |
| `PathMeaning.DotDotUndoes` | internal/proxy/config.go:69-76 | an ordinary segment and the ".." behind it can be inserted anywhere in a path without effect |
| `PathMeaning.DotVanishes` | internal/proxy/config.go:69-76 | empty segments and "." can be inserted anywhere without effect |
| `PathMeaning.LeadingDotDot` | internal/proxy/config.go:69-76 | ".." at the start of a rooted path has no effect; a relative path keeps it |
| `PathMeaning.OrdinaryIsClean` | internal/proxy/config.go:69-76 | a path of ordinary segments is its own clean form |
| `PathMeaning.ClimbMeans` | internal/proxy/config.go:69-76 | climbing k segments and going down again leads where it says, not above the root |
| `PathMeaning.EntryAdmits` | internal/proxy/config.go:65-76 | on the text: an entry that ends in a slash admits its directory and what lies below, any other admits itself alone |
| `PathMeaning.ClimbingOutIsRefused` | internal/proxy/config.go:65-76 | a path that climbs out of an entry's directory is admitted iff it comes back into it |
| `PathMeaning.SiblingIsRefused` | internal/proxy/config.go:65-76 | "/d/../x" is not admitted by "/d/" |
| `PathMeaning.AdmittedMeans` | internal/proxy/config.go:112-197 | the proxy passes a path iff some route of the highest tier is unrestricted, lists it or lists a directory above it |
| `ProxyMatcher.PathEntryMeaning` | internal/proxy/config.go:65-76 | an entry matches a rooted path iff it is a segment-wise prefix (entry ending in a slash) or equal, except that the root entry matches only the root |
| `ProxyMatcher.AdmittedIffTierAllows` | internal/proxy/config.go:124-197 | a rooted request passes iff some route of the highest non-empty tier is unrestricted or has a matching entry |
| `ProxyMatcher.LongestEntryWins` | internal/proxy/config.go:164-197 | with several routes, the chosen one owns a matching entry of the greatest length in bytes, the earliest on ties |
| `ProxyMatcher.ConnectAgreesWithRequests` | internal/proxy/server.go:90-127 | a direct tunnel only if every later request is admitted by a route that changes nothing; rejection iff no request selects a route; interception whenever a request needs it |
| `ProxyMatcher.MatchingRoutes` | internal/proxy/config.go:124-146 | the loop collects exactly the routes of the highest tier, in order |
| `ProxyMatcher.MatchRoute` | internal/proxy/config.go:164-197 | the loop over best, bestLen and catchAll makes the specified choice |
| `DomainForms.DottedTakesBelow` | internal/proxy/config.go:112-121 | a domain with a leading dot takes exactly the domain itself and every name below it, on any port and in any case |
| `DomainForms.BareTakesItself` | internal/proxy/config.go:112-121 | a bare domain takes exactly that name, on any port |
| `DomainForms.PortTakesItsPort` | internal/proxy/config.go:112-121 | a domain with a port takes exactly that name on that port |
| `DomainForms.SubdomainReachesDotted` | internal/proxy/config.go:124-146 | a request at or below the domain of a dotted route, where no route names its host, is given to dotted routes it is below, and to one of them when no path is asked for |
| `DomainForms.BareGoesFirst` | internal/proxy/config.go:124-146 | beside a route on the bare name no dotted route is chosen from |
| `DomainForms.PortGoesFirst` | internal/proxy/config.go:124-146 | beside a route on name and port no other is chosen from |
| `DomainForms.AloneIsSelected` | internal/proxy/config.go:164-180 | alone in its tier a route is selected for every path, and without a path the first of the tier is |
| `DomainForms.DecisionMeans` | internal/proxy/config.go:58-63 | CONNECT is rejected iff no route applies, direct iff all of the highest tier inject, filter and add nothing, intercepted otherwise |
| `ProxyMatcher.NeedsMITMForHost` | internal/proxy/config.go:202-209 | true iff some route of the highest tier injects, filters or sets headers |
| `ProxyMatcher.DecideConnect` | internal/proxy/server.go:90-108 | the CONNECT handler takes the specified decision |
| `Selection.TopTierRoutes` | internal/proxy/config.go:124-146 | the three accumulators give the highest non-empty tier |
| `Selection.TopTierIsHighest` | internal/proxy/config.go:124-146 | no route applies in a higher tier than the chosen one |
| `Selection.ChooseRoute` | internal/proxy/config.go:164-197 | the selection loop computes the specified choice |
| `Selection.ChooseKeepsPermission` | internal/proxy/config.go:164-197 | the chosen route opens for a path iff some candidate does |
| `Selection.ChooseLongest` | internal/proxy/config.go:164-197 | no candidate has a matching entry of more bytes than the chosen route |
| `RouteCompiler.GenerateProxyConfig` | internal/controller/claw_proxy.go:151-213 | the loops over builtins, servers and credentials compute the specified list or the missing reference |
| `RouteCompiler.McpCredentialRoutes` | internal/controller/claw_proxy.go:377-417 | routes of servers with a credential, or the first server whose credential is missing |
| `RouteCompiler.McpPassthroughRoutes` | internal/controller/claw_proxy.go:351-372 | routes of servers without a credential, skipping covered hosts |
| `RouteCompiler.CollectCredentialRoutes` | internal/controller/claw_proxy.go:217-268 | credential, cluster and companion routes split into exact and suffix lists |
| `RouteContents.CredentialInConfig` | internal/controller/claw_proxy.go:270-319 | in the written config every credential with a domain has a route there with the injector of its kind, the env variable or key file of its name, its other settings, paths and headers, and no setting of another kind |
| `RouteContents.EnvVarsDiffer` | internal/controller/claw_proxy.go:89-91 | two credentials whose names have lower-case letters, digits and dashes only never share an env variable |
| `RouteContents.CredentialIsIntercepted` | internal/proxy/server.go:90-108 | where only such routes match a host, CONNECT intercepts, unless the kind injects nothing and there are no paths and headers |
| `RouteContents.GenerateFailsIff` | internal/controller/claw_proxy.go:377-417 | no config is written iff an HTTP server names a credential that is not there |
| `RouteContents.McpRoutesInConfig` | internal/controller/claw_proxy.go:351-417 | every route written for a server is on its host and carries the last credential of the name it gives, without paths and headers; without a credential it injects nothing |
| `RouteContents.McpServerInConfig` | internal/controller/claw_proxy.go:377-417 | a server with a credential on a host nothing covers gets such a route, or another server on that host has it |
| `RouteContents.SearchInConfig` | internal/controller/claw_proxy.go:174-180 | the search route is written iff no credential and no builtin takes its domain; `SearchMeans` lists the providers and what each injects |
| `RouteContents.BuiltinsInConfig` | internal/controller/claw_proxy.go:162-172 | the first builtin of each domain that no credential has, and no other, is passed through on its paths only |
| `RouteContents.CompanionsInConfig` | internal/controller/claw_channels.go:143-160 | the domains a channel needs beside its own are passed through |
| `RouteContents.ClusterInConfig` | internal/controller/claw_proxy.go:226-237 | each cluster of a kubeconfig has a route on its name and port with the kubeconfig's path, its certificate and the credential's headers |
| `RouteContents.ConfigIsSorted` | internal/controller/claw_proxy.go:196-212 | the list has two parts, each in byte order of the domains; the second holds the dotted routes of credentials and companions |
| `RouteTheorems.CredentialsAreNotShadowed` | internal/controller/claw_proxy.go:160-193 | whenever a request for a host that a credential matches goes to an added route on a bare domain, the host is the bare apex of that credential's leading-dot domain |
| `RouteTheorems.ApexIsShadowed` | internal/controller/claw_proxy.go:422-432 | at such an apex, beside such a route, no request reaches a credential's route |
| `RouteTheorems.DottedServerShadows` | internal/controller/claw_proxy.go:351-372 | where only unrestricted suffix routes match, an added dotted route beside them makes the proxy choose a route of the exact part, which stands before every matching credential's route |
| `RouteShadowing.ShadowedIff` | internal/controller/claw_proxy.go:160-213 | on the inputs: for a host a credential matches, the proxy chooses among added routes iff the host is the bare apex of that credential's leading-dot domain, web search or a server wants an uncovered route on it, and no route names the host with its port |
| `RouteShadowing.ShadowedRequests` | internal/proxy/config.go:112-197 | where that condition fails no request on the host goes to an added route; where it holds none goes to a credential's own route, on any path |
| `RouteShadowing.AdditionIff` | internal/controller/claw_proxy.go:172-190 | an additional route on a domain is emitted iff web search or a server wants one there and nothing before covers the domain |
| `RouteShadowing.TopTierIff` | internal/proxy/config.go:112-146 | added routes are among those chosen from iff one is on the host's name and no route names its port |
| `RouteShadowing.PortTierIff` | internal/proxy/config.go:124-146 | routes on host and port come from builtins, credentials and clusters alone |
| `RouteShadowing.ApexInstance` | internal/controller/claw_proxy.go:422-432 | a credential for ".x.io" and a server on "x.io": no request to x.io gets the credential |
| `RouteTheorems.GenerateIsWellGenerated` | internal/controller/claw_proxy.go:160-193 | no added route's domain is covered by a credential, credential routes carry credential domains, and every credential with a route has it in the output |
| `RouteTheorems.EmittedOrderIsStrictWeak` | internal/controller/claw_proxy.go:196-208 | the order given to the sort is a strict weak order |
| `RouteTheorems.GeneratedMembers` | internal/controller/claw_proxy.go:189-212 | the emitted list has exactly the collected routes as members |
| `RouteOrder.GenerateInAnyOrder` | internal/controller/claw_proxy.go:182-212 | every order of the MCP server map gives the same route list or no list, if in neither pass the route of one server covers the host of another that would get a different route |
| `RouteOrder.OrderIrrelevantIff` | internal/controller/claw_proxy.go:182-212 | for any servers, dotted hosts included: every order writes the same config iff a credential is missing, so that none writes any, or no two servers of one pass clash in that way |
| `RouteOrder.FirstServerDecides` | internal/controller/claw_proxy.go:377-417 | among the exact routes, those on an uncovered domain that the first server's route covers are that server's route once, if it is there, and what the credentials bring |
| `RouteOrder.ConflictingRefsDependOnOrder` | internal/controller/claw_proxy.go:377-417 | for two clashing servers that want a credential, where no credential is missing: the written config differs with which comes first, whatever else there is |
| `RouteOrder.ClashingPassthroughsDependOnOrder` | internal/controller/claw_proxy.go:351-372 | the same for two servers without a credential that clash on what the credential pass leaves uncovered |
| `RouteOrder.OneOrderForTwoWalks` | internal/controller/claw_proxy.go:182-187 | the two passes walk the map in orders of their own; one order gives what both walks give, so that one order is general |
| `RouteOrder.DottedHostsDependOnOrder` | internal/controller/claw_proxy.go:351-372 | the written config for a dotted host and a host it covers is one route longer if the plain host comes first |
| `StableSort.SortKeeps` | internal/controller/claw_proxy.go:208-209 | the result is sorted, a permutation, and keeps ties in order |
| `StableSort.SortedUnique` | internal/controller/claw_proxy.go:208-209 | a sorted sequence is determined by its ties |
| `JsonTree.GetAfterSet` | internal/controller/claw_config.go:110-115 | a value written at a path is read back there, whatever shape the tree had |
| `JsonTree.SetFrame` | internal/controller/claw_config.go:110-115 | a write changes nothing off its path |
| `JsonTree.DeleteFrame` | internal/controller/claw_auth.go:79-83 | a delete changes nothing off its path |
| `JsonTree.DefaultKeepsUserValue` | internal/controller/claw_memory_stack.go:86-90 | seeding a default changes no value that is there |
| `JsonTree.MergeIdempotent` | internal/controller/claw_config.go:29-47 | merging the same override twice is merging it once |
| `JsonTree.MergeKeepsOverrideLeaf` | internal/controller/claw_config.go:29-47 | every leaf of the override is found at its place in the merge |
| `JsonTree.MergeByKeys` | internal/controller/claw_config.go:29-47 | the key loop, in any order, computes the merge |
| `ConfigEnrichment.Enrichment.constructor` | internal/controller/claw_resource_controller.go:829-834 | the pipeline starts from the merge of template and user config |
| `ConfigEnrichment.Enrichment.GatewayPhase` | internal/controller/claw_resource_controller.go:836-843 | the always-win steps in their order |
| `ConfigEnrichment.Enrichment.AddModelCatalog` | internal/controller/claw_resource_controller.go:1588-1630 | the catalog loop in any order, then the policy, the primary model and the fallbacks written one by one, leave the specified defaults |
| `ConfigEnrichment.Enrichment.AddProviderPlugins` | internal/controller/claw_plugins.go:113-138 | the loop seeds every missing plugin entry |
| `ConfigEnrichment.Enrichment.AddMemoryStack` | internal/controller/claw_memory_stack.go:120-143 | the repair of memory search and the two layers, in their order |
| `ConfigEnrichment.Enrichment.AddWiki` | internal/controller/claw_memory_stack.go:165-192 | the wiki's writes and seeds, the bridge only where the effective mode asks for it |
| `ConfigEnrichment.Enrichment.AddChannels` | internal/controller/claw_channels.go:280-290 | the channels are replaced and the loop, in any order, enables an entry for each |
| `ConfigEnrichment.Enrichment.AddWebSearch` | internal/controller/claw_web_search.go:156-240 | search, plugin entry and fetch written in place, or the failure |
| `ConfigEnrichment.Enrichment.AddDiagnostics` | internal/controller/claw_diagnostics.go:106-146 | the switches asked for, and the endpoint only if none is set |
| `ConfigEnrichment.Enrichment.ProviderPhase` | internal/controller/claw_resource_controller.go:844-851 | the in-place provider, plugin, catalog and memory statements give the specified steps |
| `ConfigEnrichment.Enrichment.ToolPhase` | internal/controller/claw_resource_controller.go:852-858 | the in-place channel, MCP and web statements give the specified steps, or the failure that ends them |
| `ConfigEnrichment.Enrichment.FinalPhase` | internal/controller/claw_resource_controller.go:860-864 | the in-place diagnostics, bootstrap and hook statements give the specified steps |
| `ConfigEnrichment.Enrichment.Run` | internal/controller/claw_resource_controller.go:834-864 | the whole pipeline or the failure that ends it; on success the always-win values, the frame off the owned keys, the operator's own keys, the user's memory search and the user's models all hold of the config |
| `ConfigTheorems.EnrichedConfig` | internal/controller/claw_resource_controller.go:824-864 | for every template and user tree: the always-win values, no device-auth bypass, all of the user's trusted proxies and origins plus the operator's, and the plain merge at every key no step owns |
| `FinalConfig.GatewayValues` | internal/controller/claw_config.go:128-151 | in the final config, as literals: mode, bind, port, auth {"mode": "password"} or {"mode": "token"} as spec.auth says, the control UI, both proxy ranges, and the route host, or "http://localhost:18789" without one, among the allowed origins |
| `FinalConfig.DiagnosticsInConfig` | internal/controller/claw_diagnostics.go:106-146 | every exporter setting of the final config, key by key, from those of the merge |
| `FinalConfig.HookMeans` | internal/controller/claw_workspace.go:332-352 | the bootstrap hook is installed unless the Claw is user-managed or the user has one |
| `FinalConfig.HookInConfig` | internal/controller/claw_workspace.go:332-352 | and stands so in the final config |
| `FinalConfig.ToolsInConfig` | internal/controller/claw_web_search.go:156-240 | the web search and fetch settings of the final config, as literals, with the key taken from the provider's variable |
| `FinalConfig.AgentsInConfig` | internal/controller/claw_resource_controller.go:1533-1630 | the default agent's model, policy, fallbacks and the bootstrap switch of the final config, the user's where there are any |
| `FinalConfig.SearchInConfig` | internal/controller/claw_memory_search.go:62-91 | without a memory search in the merge the final config has the embedding provider's, or a disabled one |
| `ConfigTheorems.GatewayStepsDone` | internal/controller/claw_config.go:128-151 | what the gateway steps leave behind, with both string lists spelled out |
| `ConfigTheorems.LaterStepsKeep` | internal/controller/claw_resource_controller.go:844-864 | no later step touches a key outside its own |
| `ConfigTheorems.UserStringsSurviveMerge` | internal/controller/claw_config.go:87-107 | strings of a user list are in the list read from the merge |
| `ConfigContents.OperatorOwnedKeys` | internal/controller/claw_resource_controller.go:1468-1527 | models.providers is exactly the operator's whatever the user wrote; channels and mcp are the operator's if it has any, else untouched |
| `ConfigContents.UserMemorySearchWins` | internal/controller/claw_memory_search.go:62-91 | the result always settles memory search, and under a true ownership flag a search set in the merge keeps the whole memory key as merged |
| `MemoryFlag.UserSearchStands` | internal/controller/claw_memory_search.go:62-91 | with the flag the operator computes, a memory search set in the raw config is never overridden: the final memory key is the merge's |
| `MemoryFlag.WrongFlagLosesRepair` | internal/controller/claw_memory_stack.go:120-136 | where the flag is wrong: with a memory layer and an embedding provider the final config lacks memory.search.enabled, which a right flag would set to true; otherwise the flag changes nothing |
| `MemoryFlag.FlagIrrelevant` | internal/controller/claw_memory_stack.go:120-136 | without a memory layer or without an embedding provider the result does not depend on the flag |
| `ConfigContents.CatalogFillsGaps` | internal/controller/claw_resource_controller.go:1588-1606 | the final model table is the catalog with the user's entries on top, through all other steps |
| `ConfigContents.DreamingSettles` | internal/controller/claw_memory_stack.go:149-162 | frequency and model are the spec's where given and the user's otherwise; enabled is only a default |
| `ConfigContents.VaultModeSettles` | internal/controller/claw_memory_stack.go:165-192 | the vault mode is the spec's, else the user's, else bridge, and no later seed changes it |
| `ConfigContents.SeedTrueSettles` | internal/controller/claw_memory_stack.go:165-192 | every seeded switch ends with the user's value if there is one, else true |
| `PluginSettings.DreamingInConfig` | internal/controller/claw_memory_stack.go:120-162 | in the final config dreaming's frequency and model are the spec's where given and the user's otherwise, and it is enabled unless the user says otherwise |
| `PluginSettings.VaultModeInConfig` | internal/controller/claw_memory_stack.go:120-192 | in the final config the vault mode is the spec's, else the user's, else bridge |
| `PluginSettings.UnaskedStays` | internal/controller/claw_memory_stack.go:120-143 | in the final config the settings of a layer that is not asked for, and of both beside a context engine of the user's, are as merged |
| `PluginEntries.WikiInConfig` | internal/controller/claw_memory_stack.go:165-192 | every seeded wiki setting of the final config, by path, is the user's or the literal default |
| `PluginEntries.WikiBridgeMeans` | internal/controller/claw_memory_stack.go:165-192 | the bridge switches are seeded exactly where the vault mode in force is "bridge" |
| `PluginEntries.ChannelInConfig` | internal/controller/claw_channels.go:280-290 | every channel's plugin is switched on in the final config |
| `PluginEntries.ProviderInConfig` | internal/controller/claw_plugins.go:113-138 | the plugin of a required provider that the merge has no entry for is switched on in the final config |
| `PluginSettings.SettingInConfig` | internal/controller/claw_resource_controller.go:836-864 | from the merge to the final config a plugin's own setting is changed by the memory layers alone |
| `JsonTree.DefaultIsWriteOrNothing` | internal/controller/claw_memory_stack.go:86-90 | seeding a default is a write where nothing is there and no change otherwise |
| `ConfigContents.StepsAreDisciplined` | internal/controller/claw_resource_controller.go:844-864 | each step changes only the top-level keys it owns |
| `LegacyConfig.LegacyDiffersOnlyThere` | internal/controller/claw_resource_controller.go:944-999 | the legacy config reads the same at every path apart from the model policy, the two memory-search places, the device-auth flag, the companion provider and the maps above them |
| `LegacyConfig.LegacyPlaces` | internal/controller/claw_resource_controller.go:954-967 | memory.search moves to memorySearch unless a legacy value is there; the policy is gone; the flag is the Claw's |
| `LegacyConfig.CompanionReads` | internal/controller/claw_resource_controller.go:969-992 | models.providers.openai-codex: where it is missing beside an openai provider, that provider's entry with api "openai-chatgpt-responses"; otherwise what was there |
| `LegacyConfig.LegacyIdempotent` | internal/controller/claw_resource_controller.go:944-999 | rewriting a legacy config again changes nothing |
| `LegacyConfig.AddCompanionProviders` | internal/controller/claw_resource_controller.go:971-990 | the loop over a copy of the providers, in any order, adds exactly the missing companion |
| `LegacyConfig.Downgrade` | internal/controller/claw_resource_controller.go:944-999 | the statements of the rewrite, in order, compute the legacy config from a tree |
| `LegacyHeap.RewriteLegacy` | internal/controller/claw_resource_controller.go:944-999 | on the heap: no cell that was there is written, and the copy ends as the legacy config, the moved search map and the companion's shared maps included |
| `LegacyHeap.MoveFound` | internal/controller/claw_resource_controller.go:956-963 | storing the search map at its legacy place and deleting it from memory, in that order, is the move on trees |
| `LegacyHeap.AddCompanion` | internal/controller/claw_resource_controller.go:984-990 | the companion entry is the provider merged with its wire format, in new cells that share the provider's nested maps |
| `LegacyHeap.AddAllCompanions` | internal/controller/claw_resource_controller.go:971-993 | the loop over a copy of the providers, in any order, adds exactly the missing companion |
| `LegacyHeap.MoveCommutes` | internal/controller/claw_resource_controller.go:956-963 | storing then deleting gives the heap of deleting then storing |
| `GoHeap.StoreRefinesSet` | internal/controller/claw_config.go:110-115 | an in-place write on a heap where no cell of the target is reached twice is the write on trees, touches only cells on its path, and keeps that property |
| `GoHeap.RemoveHolds` | internal/controller/claw_auth.go:79-83 | the same for deleting a nested key, on the heap |
| `GoHeap.RemoveSep` | internal/controller/claw_auth.go:79-83 | deleting a nested key is the tree's delete and shares no cell |
| `GoHeap.Heap.EnsureNestedMap` | internal/controller/claw_config.go:67-74 | returns the nested map or allocates one, and changes nothing else |
| `GoHeap.Heap.SetNestedValue` | internal/controller/claw_config.go:110-115 | the loop performs the in-place write |
| `GoHeap.Heap.DeleteNested` | internal/controller/claw_auth.go:79-83 | deletes the key if every step above is a map, else changes nothing |
| `GoHeap.Heap.Merge` | internal/controller/claw_config.go:29-47 | writes only new cells, holds the merged tree, and each entry is a new map or the very map of an input |
| `GoHeap.Heap.Parse` | internal/controller/claw_config.go:51-64 | a parsed tree lies in new cells, none shared |
| `MemoryOwnership.OwnershipFlag` | internal/controller/claw_resource_controller.go:829-851 | the flag differs from a fresh reading of the raw config iff that has a memory map without search and the template has no memory map; the heap holds the pipeline's tree |
| `MemoryOwnership.EarlyStepsAreEdits` | internal/controller/claw_resource_controller.go:836-847 | every step between the merge and the memory search only edits below other keys |
| `MemoryOwnership.MergeShares` | internal/controller/claw_config.go:29-47 | the merge shares the user's memory map iff the template has none to merge it with |
| `MemoryOwnership.EditLeavesAlone` | internal/controller/claw_config.go:110-115 | an edit under another key neither changes the user's maps nor moves them |
| `MemoryOwnership.EditInPlace` | internal/controller/claw_config.go:110-115 | one step on the heap: the tree's edit, confined to its own cells |
| `MemoryOwnership.InjectSearch` | internal/controller/claw_memory_search.go:71-91 | injects memory search in place unless it is there, keeping an existing memory map |
| `Pairing.PairedMeansExecuted` | internal/controller/claw_device_pairing_request_controller.go:91-198 | in every run, DevicePaired at generation g means an exec approved the request of its own generation, at most g, on its only matching pod |
| `Pairing.QuietPairingIsExact` | internal/controller/claw_device_pairing_request_controller.go:155-198 | without a spec edit between the Processing write and the re-fetch, that generation is g |
| `Pairing.StampMatchesIffUnedited` | internal/controller/claw_device_pairing_request_controller.go:155-198 | an approved exec is recorded under its own generation iff the spec was not edited since the Processing write |
| `Pairing.PairedOnce` | internal/controller/claw_device_pairing_request_controller.go:91-97 | after DevicePaired is stored for g, no run executes anything for g again, stale reads included |
| `Pairing.StoredIsDone` | internal/controller/claw_device_pairing_request_controller.go:186-198 | a successful final write reaches the state `PairedOnce` starts from |
| `Pairing.EditInWindowLosesRequest` | internal/controller/claw_device_pairing_request_controller.go:155-198 | a run in which generation 2 is reported paired although only the first request was approved |
| `Pairing.RunKeepsValid` | internal/controller/claw_device_pairing_request_controller.go:70-198 | over every run generations ascend, every exec is genuine and histories only grow |
| `PairingReconciler.Server.Reconcile` | internal/controller/claw_device_pairing_request_controller.go:70-198 | the imperative reconcile, with others acting between its steps, performs exactly the scripted steps up to where it returns |
| `PairingReconciler.EpisodeIsRun` | internal/controller/claw_device_pairing_request_controller.go:70-198 | every such reconcile is a run of the machine |
| `PairingReconciler.Server.UpdateCondition` | internal/controller/claw_device_pairing_request_controller.go:241-249 | a status write appends one version with the condition, or is a conflict |
| `PairingProgress.OnePodIsExecuted` | internal/controller/claw_device_pairing_request_controller.go:91-198 | a reconcile by itself of a request that is neither deleted nor paired in its present form, with one matching pod: executes its request ID once on that pod and stores DevicePaired, PairingFailed or, cut off, Processing for its generation |
| `PairingProgress.BadSelectorIsStored` | internal/controller/claw_device_pairing_request_controller.go:99-110 | an unparsable selector is stored as InvalidSelector for the present generation, and nothing is executed |
| `PairingProgress.NoPodIsStored` | internal/controller/claw_device_pairing_request_controller.go:111-132 | no matching pod likewise as NoMatchingPod |
| `PairingProgress.SeveralPodsAreStored` | internal/controller/claw_device_pairing_request_controller.go:134-141 | several likewise as MultipleMatchingPods |
| `PairingProgress.ReconcileActsIff` | internal/controller/claw_device_pairing_request_controller.go:70-97 | a reconcile by itself changes nothing iff the request is deleted or paired in its present form |
| `PairingProgress.EditIsPaired` | internal/controller/claw_device_pairing_request_controller.go:91-198 | at every point of every run, whatever condition is stored: after an edit of a request that is not deleted, a reconcile by itself executes the new request ID on the only pod of the new selector and stores the new generation as paired |
| `PairingProgress.DeletedIsLeftAlone` | internal/controller/claw_device_pairing_request_controller.go:74-84 | deleted before its exec, a request is left alone in every run, stale reads included: nothing is executed and nothing stored |
| `PairingProgress.StaleReadIsHarmless` | internal/controller/claw_device_pairing_request_controller.go:70-175 | a reconcile by itself on a version out of date stores and executes nothing |
| `Versions.CompareCalver` | internal/controller/claw_plugins.go:297-329 | the loop computes the specified comparison, malformed parts included |
| `Versions.ComparisonMeaning` | internal/controller/claw_plugins.go:294-296 | the first differing integer decides, missing parts are zero, a malformed part matters only if it comes no later |
| `VersionNumbers.DecimalOfPrint` | internal/controller/claw_plugins.go:310-326 | reading the decimal print of any number gives the number |
| `VersionNumbers.DecimalIff` | internal/controller/claw_plugins.go:310-326 | a string has a decimal value iff it is a nonempty string of digits |
| `VersionNumbers.AtoiOfPrint` | internal/controller/claw_plugins.go:310-326 | numerals of 64-bit integers are read as what they say, with or without a sign, and larger ones are malformed |
| `VersionNumbers.AtoiMalformed` | internal/controller/claw_plugins.go:310-326 | anything but digits behind the sign, or no digit at all, is malformed |
| `VersionNumbers.DottedCompare` | internal/controller/claw_plugins.go:297-329 | dotted prints of numbers compare as the number sequences do |
| `VersionNumbers.MalformedCompare` | internal/controller/claw_plugins.go:297-329 | a version with a malformed part is comparable only where an earlier part decides |
| `VersionNumbers.PassByNumbers` | internal/controller/claw_status.go:350-376 | one status pass on dotted numbers: higher numbers win the mark, lower ones are a downgrade |
| `VersionNumbers.TenComesAfterNine` | internal/controller/claw_plugins.go:297-329 | month 10 is later than month 9 |
| `Versions.VersionsAreTotallyPreordered` | internal/controller/claw_plugins.go:297-329 | transitive on all strings, malformed ones included; reflexive and total on dotted-integer versions |
| `Versions.HighWaterMarkIff` | internal/controller/claw_status.go:369-376 | for every run of any version strings: LastDeployedVersion is at all times the maximum seen ready iff no version that becomes ready meets a mark it cannot be compared with |
| `Versions.MarkHoldsIffComparable` | internal/controller/claw_status.go:369-376 | one pass lets the mark fall exactly if the version that is ready cannot be compared with it |
| `Versions.HighWaterMark` | internal/controller/claw_status.go:369-376 | in particular the mark is the maximum if every version that becomes ready is well formed, whatever is asked for and never ready |
| `Versions.DowngradeIffBelowEarlier` | internal/controller/claw_status.go:350-367 | where no ready version met an incomparable mark, VersionDowngrade is set iff an earlier ready version is later than the current one, whatever the current one looks like |
| `Versions.MalformedVersionResetsMark` | internal/controller/claw_status.go:369-376 | a run in which a malformed version hides a downgrade |
| `Versions.ClawStatus.UpdateStatus` | internal/controller/claw_status.go:350-376 | the status method performs one step of that run |
| `EnvMerge.MergeEnvFromIntoSlice` | internal/controller/claw_deployment.go:1338-1375 | the nested loops compute the merge |
| `EnvMerge.OthersUntouched` | internal/controller/claw_deployment.go:1338-1375 | entries of other names stay in place, existing names stay at their index, added entries have wanted names |
| `EnvMerge.MergeCarries` | internal/controller/claw_deployment.go:1338-1375 | the first entry of every wanted name carries the last reference wanted for it |
| `EnvMerge.MergeKeepsDistinct` | internal/controller/claw_deployment.go:1338-1375 | distinct names stay distinct |
| `EnvMerge.MergeIdempotent` | internal/controller/claw_deployment.go:1338-1375 | merging the same entries again changes nothing, repeated names with different references included |
| `EnvMerge.MergeChannelEnvFromIntoSlice` | internal/controller/claw_deployment.go:1271-1292 | fails iff the first entry of a wanted name refers to something else; otherwise it only appends |
| `EnvMerge.Deduplicate` | internal/controller/claw_deployment.go:1322-1332 | the loop with its index of seen names computes the deduplication |
| `EnvMerge.OneEntryPerName` | internal/controller/claw_deployment.go:1322-1332 | one entry per name, every name present, each the last of its name |
| `EnvMerge.GreatestWins` | internal/controller/claw_deployment.go:1309-1332 | after sorting, the entry kept is the greatest by server, secret and key |
| `EnvMerge.GreatestServerWins` | internal/controller/claw_deployment.go:1309-1332 | column by column: the entry kept for a name comes from the greatest server, among its entries the greatest secret, and for that the greatest key |
| `EnvMerge.DeduplicationIgnoresOrder` | internal/controller/claw_deployment.go:1296-1332 | any map order and any unstable sort give the same list up to the role |
| `Kubeconfig.ParseAndValidateKubeconfig` | internal/controller/claw_credentials.go:330-421 | accepts exactly the configs with supported users, usable servers and one token per server key, in any map order, refuses for a true reason, and hands on the servers of all clusters and no others |
| `Kubeconfig.NewKubernetesInjector` | internal/proxy/injector_kubernetes.go:38-80 | fails iff some resolvable context's user has no token; else a table with a walked context's token under each folded key, in any map order |
| `Kubeconfig.AcceptedMeans` | internal/controller/claw_credentials.go:336-378 | an accepted config has inline-token users only and clusters with a host name and no certificate file only |
| `Kubeconfig.PlainConfigIsAccepted` | internal/controller/claw_credentials.go:426-440 | one token user and one cluster are accepted, under the host name and the port given or 443 |
| `Kubeconfig.TokenlessMeans` | internal/proxy/injector_kubernetes.go:56-68 | only a context whose cluster and user are both there can make the injector fail, by a user without a token |
| `Kubeconfig.UnknownServerIsRefused` | internal/proxy/injector_kubernetes.go:84-92 | a request to a server without a token fails, and the error names the server |
| `Strings.SplitIff` | internal/proxy/injector_kubernetes.go:104-113 | the host and port of a request are read exactly from the two forms host:port and [host]:port |
| `Kubeconfig.OwnTokensIffCaseIsHarmless` | internal/proxy/injector_kubernetes.go:56-74 | every context finds its own token iff no two servers that differ only in case carry different tokens |
| `Kubeconfig.AcceptedLowerCaseConfigIsServed` | internal/controller/claw_credentials.go:380-404 | an accepted config with lower-case hosts serves every context its own token |
| `Kubeconfig.MixedCaseIsAcceptedButMisserved` | internal/controller/claw_credentials.go:380-404 | an accepted config with servers https://K and https://k that no walk of the contexts serves rightly |
| `Kubeconfig.RequestGetsContextToken` | internal/proxy/injector_kubernetes.go:84-113 | given a request to a context's host and port, in any case, the injector adds that context's token; whether the proxy gives it the request is the matter of `KubeRoutes` |
| `Kubeconfig.PortlessRequestIff` | internal/proxy/injector_kubernetes.go:104-113 | without a port the request key is the server's default-port key iff the host is not an IPv6 literal |
| `KubeRoutes.ClusterRouteIff` | internal/controller/claw_proxy.go:226-237 | the route written for a cluster applies to a request to its server, as the highest tier, iff the host name has no colon and no leading dot |
| `KubeRoutes.ServerReachableIff` | internal/proxy/config.go:92-146 | whatever else the config holds, the proxy chooses among the server's routes iff its host name has no colon and no leading dot |
| `KubeRoutes.ContextServed` | internal/proxy/server.go:110-155 | end to end: a request to the server of a context with such a host name is intercepted and carries that context's token on every path, if case is harmless in the kubeconfig and nothing else names the server |
| `KubeRoutes.OnlyKubeOffered` | internal/controller/claw_proxy.go:217-240 | on a server no builtin and no other credential names, the proxy chooses among routes of the credential's kubeconfig only |
| `KubeRoutes.UnplainIsRefused` | internal/proxy/server.go:90-118 | with a colon or a leading dot in the host name, and no other route that applies, every request to the server is refused |
| `KubeRoutes.Ipv6IsAcceptedButRefused` | internal/controller/claw_proxy.go:228 | the kubeconfig of https://[::1]:6443 is accepted and its token ready, and every request to the server is refused |
| `Workspace.EncodeWorkspacePath` | internal/controller/claw_workspace.go:47-49 | the replacement computes the encoding |
| `WorkspaceMeaning.KeyOfText` | internal/controller/claw_workspace.go:47-49 | the key of a path is "_ws_" and its segments with two dashes between them |
| `WorkspaceMeaning.RefusedMeans` | internal/controller/claw_workspace.go:66-73 | of the paths not refused for their form, exactly those whose clean form leads into skills/platform or skills/kubernetes are refused |
| `WorkspaceMeaning.RefusedFirst` | internal/controller/claw_workspace.go:53-65 | the refusals for form, as an iff on the text for each |
| `Workspace.RoundTripIff` | internal/controller/claw_workspace.go:47-49 | a path without "--" is recovered from its key iff it has no "-/" |
| `Workspace.KeysAreDistinct` | internal/controller/claw_workspace.go:53-76 | accepted paths without "-/" have equal keys iff they are equal |
| `Workspace.SharedIffAmbiguous` | internal/controller/claw_workspace.go:47-76 | an accepted path that does not begin with a dash and, dots, slashes and dashes at its start aside, not with "skills/" or "skills-", shares its key with another accepted path iff it contains "-/", "/-" or "//" |
| `Workspace.SharedIffAmbiguousAfterDash` | internal/controller/claw_workspace.go:47-76 | with a leading dash, iff what follows the dash, and the slash after it if there is one, contains one of these |
| `Workspace.SharedOnlyIfAmbiguous` | internal/controller/claw_workspace.go:47-76 | for every accepted path: no other accepted path has its key unless it contains one of these |
| `Workspace.ReservedRespellingIsNoSharer` | internal/controller/claw_workspace.go:67-73 | an accepted path that contains one and shares its key with no accepted path, as its only other spelling is a reserved directory |
| `Workspace.DashBeforeSlashIsShared` | internal/controller/claw_workspace.go:47-49 | a path with "-/" has the key of the different path its key decodes to, accepted or not |
| `Workspace.DashBeforeSlashCollides` | internal/controller/claw_workspace.go:53-76 | "a-/b" and "a/-b" are both accepted and have one key |
| `Workspace.ValidateWorkspaceFiles` | internal/controller/claw_workspace.go:53-76 | accepts iff every path is fine, and refuses for a true reason |
| `Workspace.InjectWorkspaceFiles` | internal/controller/claw_workspace.go:196-217 | writes nothing on a refusal; otherwise every entry that is no file's key is still there unchanged, every file's key is there, and it holds that file if no path has "-/" |

## Left out

- Kubernetes client calls, server-side apply, manifest rendering, YAML and JSON text: only the objects and trees they carry are modelled.
- TLS, certificates, goproxy and token sources: foreign code.
- SHA-256 is a parameter with eight-character results; where collisions matter the no-collision assumption is stated on the images of the run.
- `url.Parse` is a parameter in `Kubeconfig`; in `RouteCompiler` a server carries the host name its URL has, empty if none.
- Lower-casing covers ASCII letters; Go's folding of other letters is not modelled.
- `path.Clean` is stated on segments rather than as Go's byte buffer.
- Provider, catalog, channel and embedding tables reach the config pipeline as ready-made inputs; `buildChannelConfig`, `deepMergeMap`, `validateUniqueChannels` and `effectivePlugins` would only add easy members.
- The config pipeline runs on tree values; that in-place writes on shared Go maps amount to the same is proved in `GoHeap` for `setNestedValue`, `delete` and `deepMerge` and used for the steps up to the memory search and for the rewrite of the older schema. The steps after the memory search are not repeated on the heap.
- MemoryOwnership.OwnershipFlag: takes the early steps as any sequence of writes of new values and deletes below other keys; `EarlyStepsAreEdits` shows that the operator's steps are such a sequence, the catalog step entry by entry.
- RouteShadowing.ShadowedIff: takes server hosts to be bare names, as `url.Hostname` gives them; dotted hosts are treated in `DottedServerShadows` only, and builtins, which the compiler checks by exact name, are outside it.
- Workspace.SharedIffAmbiguous: where another spelling could lie below "skills/" only the direction of `SharedOnlyIfAmbiguous` holds, since that spelling may be a reserved directory; `ReservedRespellingIsNoSharer` is such a path.
- MigrationCluster.Cluster.ScaleToZero: takes the Deployment under the gateway's name to be the Claw's own, since in the machine only the reconciler creates it; the check that skips a foreign one is left out.
- KubeRoutes.ContextServed: takes MCP hosts to be bare names, as `RouteShadowing.ShadowedIff` does.
- CA data of clusters, contexts' namespaces and the sanitized kubeconfig.
- Pairing leaves out recreation of a deleted request under the same name, and writes to the status by anyone but the operator.
- The proxy Deployment in idling, URLs and other status fields, the migration status file, skills, egress rules, observability and CRD validation.
- The gateway's path-prefix listener (`MatchRouteByPath`) and header stripping.
