# Verified model of the Synthia MQTT gateway addon

The addon lets other addons publish MQTT messages through one gateway. This project models the
parts of it that keep state and proves what holds over whole runs:

- **Optional groups** (`group_resolver.dfy`): a depth-first walk over a dependency graph that may
  have cycles. It terminates, lists exactly the reachable supported groups, puts dependencies
  first wherever the graph allows it, and is idempotent exactly when no two reachable groups
  depend on each other.
- **Desired state** (`desired_state.dfy`, `desired_protocol.dfy`, `mounted_state_store.dfy`,
  `config_store.dfy`): a JSON document that several writers edit under a file lock, with an atomic
  write that may fall back to writing in place. The file is always the lock-ordered history of
  committed edits; an edit is lost in exactly two ways, by an in-place write that breaks off and by
  a later writer that could not read the document and started from an empty one.
- **Policy cache** (`policy_cache.dfy`, `policy_history.dfy`, `policy_payloads.dfy`): grants and
  revocations folded into four collections. Authorisation is the last-writer reading of the raw
  payloads heard, replaying the history changes nothing, and every delivery order that keeps
  contradicting messages in order ends in the same cache.
- **Topics and registrations** (`topic_permissions.dfy`, `registration_store.dfy`): realised
  scopes, the publish check, the topic-filter matcher, namespaces, and versioned credentials.
- **Install workflow** (`install_workflow.dfy`, `install_api.dfy`, `readiness.dfy`): publishing is
  open exactly when some apply succeeded and nothing after it shut the gate again, whatever becomes
  of the saves of the two files the workflow keeps.
- **Publishing** (`gateway.dfy`, `publish_safety.dfy`, `publish_exact.dfy`): the four publish
  routes over all of the above, through any number of restarts. For each route it is proved exactly
  when a request sends a message, which one, and which trace it leaves otherwise. Every message they hand to the broker, in every run, is
  sent by a caller with a live grant, by what was heard since the last start, after an applied
  setup, and stays off the reserved topics. Direct and gateway messages lie in their
  addon's namespace with a complete envelope, gateway messages in a registered scope as well; state
  messages for Home Assistant lie in their addon's namespace but for one exempted id; discovery
  messages lie outside every namespace.
- **Bounded logs** (`telemetry.dfy`, `publish_traces.dfy`): the drop-oldest telemetry queue with
  its flusher and its file, and the trace window with its metrics.

Classes hold the fields that the services hold, and their methods are proved against value-level
functions (`Visit`, `Step`, `After`, `HandleApply`, ...). The lemmas about runs are about those
functions. Exceptions are result values. Answers of the surroundings (broker, file system, network
test, randomness, case folding, keyed digest) are parameters, so every theorem is for all of them.

Where the code breaks a natural expectation, the code is kept and the exact condition is proved:

- Resolving a resolved list again may reorder it (`GroupResolver.CycleFlips`); it does not exactly
  when the reachable graph has no cycle through two groups (`GroupResolver.ResolveIdempotentIff`).
- A broken in-place write leaves an unreadable document that the next writer takes as empty, and a
  read that raises counts as an empty document too, so that a writer saves its edit of nothing and
  reports success. Either way all earlier edits are lost, acknowledged ones included
  (`DesiredProtocol.AcknowledgedUrlLost`), and these are the only ways
  (`DesiredProtocol.AcknowledgedUrlIsRead`, `DesiredProtocol.LatestUrlSurvivesIff`). For the same
  reason an embedded apply whose read of the desired list raises drops every other group
  (`InstallApi.InstallApi.EnsureBroker`), and a registration drops every other addon's
  (`RegistrationStore.RegistrationSurvivesIff`).
- The pop after a successful post removes another event than the one posted when saturation dropped
  events in between (`Telemetry.PopRemovesPostedIff`, `Telemetry.SilentLoss`). Everything popped was
  delivered exactly when no pop follows such a drop (`Telemetry.NoLossIff`).
- Ids that contain `/` can share topics (`TopicPermissions.NamespacesDisjointIff`). Ids with `+` as
  a level, and ids that share their first levels, can be granted scopes over each other's topics
  (`TopicPermissions.ScopesCrossIff`); the gateway's own check still confines what is published.
- A state message for exactly `anonymous` goes out on any topic that is not reserved
  (`PublishSafety.AnonymousGoesAnywhere`); every other one is confined
  (`PublishSafety.StateConfinement`).
- A restart forgets what was heard about policy, so a revoked token is accepted again until its
  revocation is redelivered (`PublishSafety.RevocationForgotten`).
- A message that the broker took leaves neither trace nor usage event when the trace cannot be
  saved (`PublishSafety.PublishesAccounted`).
- A ready session need not be verified: a failed broker restart withdraws that flag and leaves the
  gate open (`InstallWorkflow.ReadyUnverified`, `InstallWorkflow.GateIffApplied`).
- Different external connections can share a test signature, through a `|` in username or password
  or a host that reads as a shorter host, a port and a flag (`InstallWorkflow.SignatureUniqueIff`).
- A selection that the state mount refuses has already changed the asset directories
  (`ConfigStore.ConfigStore.SetRequestedOptionalGroups`), and a core URL that it refuses is in force
  all the same (`ConfigStore.ConfigStore.SetCoreBaseUrl`).
- A registration whose ACL file or note cannot be written is stored although the caller sees an
  error (`RegistrationStore.Store.UpsertRegistration`).

The API documentation (`docs/api.md`) says a missing session is reconstructed as `ready` from a saved
configuration; in the code that branch is never reached, since loading always yields an object. The
model follows the code: a fresh session is unconfigured.

## Model

| member | source | states |
|---|---|---|
| `Text.TrimParts` | app/services/config_store.py:600 | trimming a text takes spaces off its two ends and nothing else |
| `Text.TrimOf` | app/services/config_store.py:600 | a trimmed text with spaces around it is what trimming leaves |
| `Text.DigitsValue` | app/services/registration_store.py:135 | the decimal text of a number stands for that number, without leading zeros |
| `StringLists.NormalizeStringList` | app/services/config_store.py:593-605 | the loop computes the cleaned list: trimmed, without blanks, first occurrences only, which `Normalized` guarantees to be duplicate-free |
| `StringLists.Normalized` | app/services/topic_permissions.py:58-67 | whatever goes in, the list that comes out has no duplicates, no blank and no outer spaces |
| `StringLists.NormalizedItems` | app/services/config_store.py:599-604 | an item is listed if and only if it is the non-blank trimmed text of some item given |
| `StringLists.NormalizedClean` | app/services/config_store.py:593-605 | a list that is already clean is unchanged |
| `StringLists.NormalizedAppend` | app/services/config_store.py:593-605 | cleaning up a longer list only appends, so items stand in the order of their first occurrence |
| `GroupResolver.Resolver.VisitGroup` | app/services/config_store.py:423-436 | the nested `visit`, which mutates the three shared collections, is the recursive walk; it terminates on every graph because the groups not yet entered shrink |
| `GroupResolver.ResolveRequestedOptionalGroups` | app/services/config_store.py:414-440 | the loop over the request yields the walk's output |
| `GroupResolver.VisitAll` | app/services/config_store.py:432-435 | a walk leaves the open groups as it found them, never forgets a finished one, and only appends to what is listed |
| `GroupResolver.VisitAllKeeps` | app/services/config_store.py:423-439 | what every walk keeps: finished groups are listed once, what they need is finished or still open, earlier output is a prefix of later output |
| `GroupResolver.ResolveIsReachability` | app/services/config_store.py:414-440 | the output has no duplicates and lists exactly the supported groups reachable from the request along the dependencies that the manifest lists, cycles included |
| `GroupResolver.ResolveIsLeastClosure` | app/services/config_store.py:414-440 | the output is dependency-closed, contains every supported request, and is contained in every closed set that does |
| `GroupResolver.ResolveOrder` | app/services/config_store.py:423-436 | for every edge between listed groups the dependency comes first, or it reaches its dependent |
| `GroupResolver.DependenciesInOrder` | app/services/config_store.py:432-433 | of two dependencies of a group not met before, the one the manifest lists first comes out first, if nothing the group lists up to it reaches the other |
| `GroupResolver.ResolvedInOrder` | app/services/config_store.py:432-440 | the same for a whole resolution, of a group requested after others that reach none of the three |
| `GroupResolver.RequestsInOrder` | app/services/config_store.py:438-440 | of two requested groups the one requested first comes out first, if nothing requested up to it reaches the other |
| `GroupResolver.AcyclicIsTopological` | app/services/config_store.py:423-436 | without cycles among reachable groups the output is a topological order |
| `GroupResolver.ResolveExtends` | app/services/config_store.py:438-440 | resolving a longer request extends the output of its prefix |
| `GroupResolver.ResolveFixedPoints` | app/services/config_store.py:414-440 | the lists the resolver leaves unchanged are exactly the topological listings of supported groups |
| `GroupResolver.ResolveIdempotentIff` | app/services/config_store.py:414-440 | resolving the output again changes nothing if and only if no two distinct reachable groups depend on each other |
| `GroupResolver.CycleFlips` | app/services/config_store.py:414-440 | the two-group cycle, where the second resolution reverses the first |
| `GroupResolver.AppendedGroup` | app/api/install_workflow.py:416-424 | appending one group to a resolved list drops nothing, and on acyclic requests keeps the order of what was desired |
| `DesiredState.MutateGroups` | app/services/config_store.py:395-409 | the in-place edit writes the three mirrors, the revision and the rebuild flag, and replaces non-object parents |
| `DesiredState.MutateCoreUrl` | app/services/config_store.py:81-92 | the in-place edit stores the URL under `config.env` and the revision |
| `DesiredState.ApplyFrame` | app/services/config_store.py:395-409 | an edit leaves alone every path that it neither writes nor leads through |
| `DesiredState.GroupsStored` | app/services/config_store.py:395-409 | a group edit stores the list at each of the three mirrors, its own revision, and a boolean rebuild flag, path by path |
| `DesiredState.RevisionStored` | app/services/config_store.py:91 | either edit leaves its own revision, whatever was there |
| `DesiredState.ForceStored` | app/services/config_store.py:408 | the rebuild flag becomes the boolean of the truth of what it was |
| `DesiredState.FirstMirrorRead` | app/services/config_store.py:226-238 | the first mirror that names a group is the one read: enabled groups, then the runtime request, then the plain one |
| `DesiredState.GroupsRoundTrip` | app/services/config_store.py:226-238 | the fallback chain reads back exactly the written list, also when it is empty, whatever the document held before; the core URL stays |
| `DesiredState.CoreUrlRoundTrip` | app/services/config_store.py:81-92 | the URL written is the URL stored, and the desired groups stay |
| `DesiredProtocol.StepKeepsFile` | app/services/mounted_state_store.py:88-111 | every step of every writer, a read that raises among them, keeps mutual exclusion, the freshness of what the lock holder has read unless it is blind, and file = replayed history; the history only grows |
| `DesiredProtocol.RunIsSerial` | app/services/mounted_state_store.py:88-111 | in every interleaving of any number of writers that may fail to read, raise, time out or crash, an unlocked reader gets the committed edits applied in lock order, each blind one to nothing; or the empty document while an in-place write is under way or when its own read raises |
| `DesiredProtocol.AcknowledgedIsCommitted` | app/services/mounted_state_store.py:88-99 | every update reported as a success is its own entry of the history, in lock order |
| `DesiredProtocol.ReadersSeeCommitted` | app/services/fs_utils.py:17-18 | while targets can be replaced, nothing is torn and a reader at any moment sees a prefix of the final history, or nothing when its own read raises |
| `DesiredProtocol.Forgotten` | app/services/mounted_state_store.py:105-108 | after a broken in-place write, and from an edit whose writer could not read, the history before it no longer matters |
| `DesiredProtocol.LatestUrlSurvivesIff` | app/services/config_store.py:72-95 | the stored URL is the last committed one, whatever group updates interleave, if and only if after it no in-place write broke off and no writer's read raised |
| `DesiredProtocol.LatestGroupsSurvive` | app/services/config_store.py:392-412 | the desired groups are the last committed list, or none after a broken in-place write or an edit whose writer could not read |
| `DesiredProtocol.AcknowledgedUrlIsRead` | app/services/config_store.py:72-95 | in every run, a core URL reported as stored is what a reader gets at any later moment before another one is committed, if and only if no in-place write has broken off since or is under way, no writer's read has raised since, and the reader's own does not |
| `DesiredProtocol.AcknowledgedGroupsAreRead` | app/services/config_store.py:392-412 | in every run, a group list reported as stored is what a reader gets at any later moment before another one is committed, under the same condition, and none otherwise |
| `DesiredProtocol.AcknowledgedUrlLost` | app/services/mounted_state_store.py:88-111 | for any file at the start, two runs in which an acknowledged URL is gone: by a group update that reports success though it could not read, and by one that breaks off in place |
| `DesiredProtocol.ForeignKeysSurvive` | app/services/mounted_state_store.py:90-94 | keys of other parties, at any depth, survive a history as long as nothing in it is torn or blind, and are gone otherwise |
| `DesiredProtocol.LatestRevisionIsRead` | app/services/mounted_state_store.py:88-111 | in every run, at every moment a reader gets the revision of the last edit committed, of either kind, or none after a broken in-place write, during one, or when its own read raises |
| `MountedStateStore.FileSystem.AtomicWrite` | app/services/fs_utils.py:10-32 | under every combination of failures, of removing the temporary file as well: which file ends up how, whether a temporary file stays, and when the call returns |
| `MountedStateStore.WriteOutcome` | app/services/fs_utils.py:10-32 | a write that raises changed the target only after falling back, the target becomes unreadable exactly when filling it in place failed, no other file changes, and a temporary file stays exactly when removing it failed |
| `MountedStateStore.WriteRefinesProtocol` | app/services/fs_utils.py:13-32 | under every combination of failures the write is a path of the writer protocol with the same file and the same answer |
| `MountedStateStore.StateStore.UpdateDesired` | app/services/mounted_state_store.py:56-99 | success stores the edit of what the read under the lock gave, which is nothing if that read raised; all files after every failure; a refused mount or a lock that cannot be had changes nothing |
| `ConfigStore.ResolvedClean` | app/services/config_store.py:209-214 | a resolved list is clean and all supported, so the later filter removes nothing and the document reads back as written |
| `ConfigStore.SelectedIff` | app/services/config_store.py:209-214 | a selection is exactly what some non-blank item asked for reaches in the manifest |
| `ConfigStore.AssetRoot.PrepareOptionalGroupAssets` | app/services/config_store.py:442-480 | succeeds exactly when the file system refuses none of the writes and removals, no directory stands under the name of a file to write, and no stale directory contains a directory; then the directories are exactly the requested groups', each with its two files as the manifest gives them and everything else in it as before |
| `ConfigStore.ConfigStore.SetRequestedOptionalGroups` | app/services/config_store.py:204-224 | exactly when it succeeds, for every answer of directories, state mount, lock, write and session save, and what then agrees: mirrors, directories and session lists; what a refusal leaves behind; and that the document keeps the selection when only the session save after it fails |
| `ConfigStore.ListsExact` | app/services/config_store.py:150-178 | the groups a session reports, member by member: its requested ones or else the desired ones, its active and its failed ones; and what a selection keeps of each list |
| `ConfigStore.ConfigStore.CoreBaseUrl` | app/services/config_store.py:55-70 | the overrides win; without them the trimmed text of a true value in the document, and the environment if that is blank |
| `ConfigStore.ConfigStore.SetCoreBaseUrl` | app/services/config_store.py:55-95 | exactly when the URL is stored, refused as blank or refused by the mount; once the overrides are saved the URL is in force whatever becomes of the document; the desired groups are untouched, or lost if the read under the lock raised |
| `ConfigStore.ConfigStore.SetSelectedMode` | app/services/config_store.py:271-287 | the state machine's mode step, for every answer of the file system to its two saves |
| `ConfigStore.ConfigStore.ResetInstallSessionState` | app/services/config_store.py:289-294 | the session falls back to its defaults, lists included, if it can be saved, even one that could not be loaded; the overrides stay |
| `ConfigStore.ConfigStore.UpdateSession` | app/services/config_store.py:183-202 | the change applies to the observed session, so the mode of the overrides and the desired list are written back with it; nothing changes when a file cannot be loaded or the save is refused, and a save that breaks off damages the session |
| `ConfigStore.ConfigStore.ApplyInstallConfig` | app/services/config_store.py:296-339 | overrides and session after a full save, and after a save that is refused, breaks off, or stops between the two files |
| `PolicyPayloads.ReadMeaning` | app/services/policy_cache.py:31-43 | what each payload does, in terms of its fields and their precedence: the live grant it tells of, the token, grant ids and consumers it revokes, restores or displaces |
| `PolicyPayloads.AllowsIffEntitled` | app/services/policy_cache.py:45-119 | after any payloads the cache allows exactly what the last word in them on each token, grant id and consumer entitles to |
| `PolicyPayloads.RevokedToken` | app/services/policy_cache.py:104-111 | a token named by a revocation, under either key, never passes again |
| `PolicyPayloads.RevokedConsumer` | app/services/policy_cache.py:107-119 | a consumer named by a revocation is refused until a later grant message for it |
| `PolicyPayloads.RevokedGrantId` | app/services/policy_cache.py:106-116 | a grant id named by a revocation is shut until a later live grant message under it |
| `PolicyPayloads.GrantedScopes` | app/services/policy_cache.py:66-102 | right after an active grant the consumer may do exactly what its token and the scopes in the payload both allow; no scopes in the payload limit nothing |
| `PolicyCache.PolicyCacheService.Ingest` | app/services/policy_cache.py:31-119 | the four mutable collections change as the one-message step says |
| `PolicyCache.PolicyCacheService.UpdateGrant` | app/services/policy_cache.py:93-102 | a live grant is stored and clears both revocations; a withdrawn one is popped and its id revoked |
| `PolicyCache.PolicyCacheService.UpdateRevocation` | app/services/policy_cache.py:109-119 | token, grant id and consumer are revoked, and every grant they name is popped |
| `PolicyCache.PolicyCacheService.PopGrantId` | app/services/policy_cache.py:114-116 | the loop over a snapshot pops exactly the grants with that id |
| `PolicyCache.PolicyCacheService.Authorize` | app/services/policy_cache.py:45-71 | the chain of refusals is the decision over the four collections |
| `PolicyHistory.GrantBit` | app/services/policy_cache.py:73-119 | from any start state, a consumer holds a grant after a history exactly when it was given and not displaced later |
| `PolicyHistory.AuthorizeIsLastWriter` | app/services/policy_cache.py:45-119 | after any history the cache allows exactly what the last word on each token, grant id and consumer allows |
| `PolicyHistory.SharedIdWithdrawal` | app/services/policy_cache.py:94-98 | a standing grant can be revoked through its id only by a withdrawal naming the id for another consumer |
| `PolicyHistory.ReplayIsNoOp` | app/services/policy_cache.py:31-43 | redelivering a whole history changes nothing, from any start state |
| `PolicyHistory.CommuteIffIndependent` | app/services/policy_cache.py:73-119 | two messages can be exchanged in every state if and only if neither is a live grant that the other contradicts |
| `PolicyHistory.ReorderingsAgree` | app/services/policy_cache.py:73-119 | every permutation of a history that keeps contradicting messages in order ends in the same state |
| `TopicPermissions.RealizeTopicPermissions` | app/services/topic_permissions.py:24-55 | permissions are granted exactly when the id is not blank and every cleaned scope passes |
| `TopicPermissions.RealizedIff` | app/services/topic_permissions.py:24-55 | for every request: granted if and only if the id is not blank and every item is blank or, trimmed, below the prefix of the addon without a nested lifecycle level, or reserved in the case of a subscription; and then the cleaned lists |
| `TopicPermissions.PublishTopicIff` | app/services/topic_permissions.py:78-92 | for every topic and id, exactly which topics pass: without wildcards, below the owner's prefix with a plain tail, which already keeps them off the reserved ones; without an owner, neither blank nor reserved |
| `TopicPermissions.MqttTopicMatches` | app/services/topic_permissions.py:95-109 | the index loop decides the level-by-level definition |
| `TopicPermissions.TopicAllowedByScopes` | app/services/topic_permissions.py:74-75 | some scope matches |
| `TopicPermissions.MatchesMeaning` | app/services/topic_permissions.py:95-109 | section 4.7.1 of MQTT Version 3.1.1 in one sentence: all levels agree one to one, or the filter ends in `#` and the levels before it agree, the parent level included; a `#` elsewhere matches nothing |
| `TopicPermissions.WildcardFreeIsEquality` | app/services/topic_permissions.py:95-109 | a filter without wildcards matches exactly its own text |
| `TopicPermissions.ScopeConfines` | app/services/topic_permissions.py:42-45 | for every id none of whose levels is `+`, a topic matched by a scope of the id lies in its namespace or is its parent level |
| `TopicPermissions.NamespacesDisjointIff` | app/services/topic_permissions.py:85-91 | two ids never have an accepted topic in common if and only if neither is nested in the other, which ids without `/` never are |
| `TopicPermissions.ScopesCrossIff` | app/services/topic_permissions.py:33-45 | for all ids, scopes of one reach into the namespace of another if and only if no level of the first is `#` and each is `+` or equal to the other's as far as both go; for distinct ids without `/`, if and only if the first is `+` |
| `RegistrationStore.Store.UpsertRegistration` | app/services/registration_store.py:25-90 | the stored map and seed after every outcome, a read that raises and a save that fails among them; when it is rejected, and that a failure to write the ACL file or note comes after the record is stored |
| `RegistrationStore.AcceptableIff` | app/services/registration_store.py:31-57 | which requests are not rejected: the scopes pass, and direct access to an external broker names a user |
| `RegistrationStore.RegisteredAsAsked` | app/services/registration_store.py:64-83 | over every history, an addon is registered exactly if some upsert is the last word on it, and then with the access mode, scopes, Home Assistant mode, user name and kind of credentials that this upsert asked for |
| `RegistrationStore.Store.IssueDirectCredentials` | app/services/registration_store.py:125-152 | version, user name and signed text, with the seed created at most once |
| `RegistrationStore.Store.LoadOrCreateSeed` | app/services/registration_store.py:146-152 | a stored seed is never replaced |
| `RegistrationStore.FoldWellFormed` | app/services/registration_store.py:25-90 | after any history: no blank id, every stored publish scope lies in its addon's namespace, every stored credential belongs to its stored version |
| `RegistrationStore.RegistrationSurvivesIff` | app/services/registration_store.py:31-87 | over every history, a registration survives the upserts of other addons if and only if none of them saved without having been able to read and no save broke off |
| `RegistrationStore.VersionCountsReprovisions` | app/services/registration_store.py:40-62 | the stored version is one plus the reprovisions in the addon's current unbroken run of managed registrations since the records were last lost; upserts that do not store and foreign ones are ignored |
| `RegistrationStore.CredentialTextInjective` | app/services/registration_store.py:135 | the signed text determines addon and version, even for ids with `:` |
| `RegistrationStore.CredentialsRepeatIff` | app/services/registration_store.py:125-144 | at any two moments of a history passwords are equal exactly when addon and version are, for a digest without collisions |
| `InstallWorkflow.GateIffApplied` | app/api/install_workflow.py:297-516 | over every history of the operations that write session or overrides, and for every fate of their saves, publishing is open if and only if some apply succeeded and no mode choice, test, apply or reset that got to its session save, and no save that broke off, came after it; ready implies configured, and behind an open gate verified means exactly that the last recorded broker restart since the apply, if any, succeeded |
| `InstallWorkflow.ReadyUnverified` | app/api/broker_admin.py:65-78 | an apply and one failed restart leave the session ready, configured, not verified, with the gate open |
| `InstallWorkflow.ApplyExact` | app/api/install_workflow.py:336-444 | from every state, exactly when an apply succeeds; and that the mode, access mode and connection of the request are then stored and observed, the embedded host and port included, with a ready session without an error and all else unchanged |
| `InstallWorkflow.ApplyReports` | app/api/install_workflow.py:364-433 | what a failed apply reports: its message in a session in state `error`, over the stored configuration |
| `InstallWorkflow.UpdatesExact` | app/api/install_workflow.py:297-334 | what mode choice, test, registration, restart and group save leave of the session, field by field |
| `InstallWorkflow.OverridesExact` | app/services/config_store.py:72-102 | what setting the core URL or the configuration leaves of the overrides, and of nothing else |
| `InstallWorkflow.ModeIsLastChoice` | app/services/config_store.py:173-176 | over every history the observed mode is that of the last mode choice or apply whose overrides were saved, else that found at the start, else external |
| `InstallWorkflow.SessionStanding` | app/services/config_store.py:183-202 | over every history the access mode of the session is that of the last mode choice or apply that reached its first save, and the registration flag the answer of the last registration saved, since the last reset |
| `InstallWorkflow.SessionRemembersTest` | app/api/install_workflow.py:315-334 | as long as both files can be loaded, the stored test result is that of the latest test whose result was saved since the last reset that was |
| `InstallWorkflow.ApplyNeedsTest` | app/api/install_workflow.py:336-393 | an external apply without waiver succeeds if and only if that test passed with the same signature and loading, all saves and the reload went through, and then stores the connection it was given; the gate is open after it if and only if it succeeded, or it failed at its first save and the gate was open before |
| `InstallWorkflow.SignatureInjective` | app/api/install_workflow.py:117-126 | for two connections without a bar in host or username, equal signatures are equal settings |
| `InstallWorkflow.SignatureUniqueIff` | app/api/install_workflow.py:117-126 | a signature stands for one connection among all if and only if username and password contain no bar and no proper front part of the host's fields is a host followed by a port and a flag, which may be the port itself |
| `InstallWorkflow.LiveConfigWasTested` | app/api/install_workflow.py:349-360 | behind every successful external apply without waiver stands a passed test with the same signature and no saved test or reset in between, and of the same settings whenever the applied connection meets the condition of the previous rows |
| `InstallApi.InstallApi.TestExternal` | app/api/install_workflow.py:315-334 | the handler is the state machine's test step |
| `InstallApi.InstallApi.SetMode` | app/api/install_workflow.py:297-313 | the handler is the state machine's mode step |
| `InstallApi.InstallApi.ResetInstallState` | app/api/install_workflow.py:511-516 | the handler is the state machine's reset step |
| `InstallApi.InstallApi.RegisterCore` | app/api/install_workflow.py:491-503 | the handler is the state machine's registration step |
| `InstallApi.InstallApi.RestartBroker` | app/api/broker_admin.py:65-78 | the handler is the state machine's restart step |
| `InstallApi.InstallApi.BeginApply` | app/api/install_workflow.py:341-381 | the part up to the saved configuration, with everything that can end an apply there |
| `InstallApi.InstallApi.EnsureBroker` | app/api/install_workflow.py:416-433 | after success the broker group is desired and no supported desired group was dropped, and a desired list that the resolver gave for a request without cycles stays in front in its order; if the read of the list raised, only the broker group and what it needs are desired |
| `InstallApi.InstallApi.ApplyInstall` | app/api/install_workflow.py:336-444 | the handler is the state machine's apply step under every failure of its surroundings; a successful embedded apply desires the broker group and, unless the read of the desired list raised, keeps the others and their order |
| `Readiness.FullReadiness` | app/api/install_workflow.py:89-106 | full readiness means setup done and running = requested up to order, or nothing requested; the missing list is then empty, and the verdict agrees with the reconcile state |
| `Readiness.PartialReadiness` | app/api/install_workflow.py:89-106 | when readiness is partial, and which groups are missing |
| `Readiness.ReconcileCases` | app/api/install_workflow.py:70-86 | the reconcile state case by case |
| `Gateway.MqttGateway.CheckGateway` | app/api/mqtt_publish.py:175-290 | the guarded sequence of checks is the route's decision |
| `Gateway.MqttGateway.CheckDirect` | app/api/mqtt_publish.py:63-139 | the guarded sequence of checks is the route's decision |
| `Gateway.MqttGateway.CheckDiscovery` | app/api/ha_discovery.py:28-106 | the guarded sequence of checks is the route's decision |
| `Gateway.MqttGateway.CheckState` | app/api/ha_discovery.py:148-239 | the guarded sequence of checks is the route's decision |
| `Gateway.MqttGateway.GatewayPublishMessage` | app/api/mqtt_publish.py:175-324 | the whole new state: trace, handed message and usage event for every outcome, nothing else changed |
| `Gateway.MqttGateway.PublishMessage` | app/api/mqtt_publish.py:63-173 | the whole new state for every outcome, nothing else changed |
| `Gateway.MqttGateway.PublishSensorDiscovery` | app/api/ha_discovery.py:28-146 | the whole new state for every outcome, nothing else changed |
| `Gateway.MqttGateway.PublishGatewayState` | app/api/ha_discovery.py:148-278 | the whole new state for every outcome, nothing else changed |
| `Gateway.MqttGateway.UpsertRegistration` | app/api/mqtt_registration.py:38-91 | the route's direct-access rule, the upsert, and the trace, which is missing for a failure the route does not answer |
| `Gateway.MqttGateway.Restart` | app/main.py:35-48 | a new process over the same files starts with an empty policy cache and keeps everything else |
| `Gateway.MqttGateway.IngestPolicy` | app/services/policy_cache.py:31-43 | a policy message changes the cache and nothing else of the service |
| `PublishExact.DirectExact` | app/api/mqtt_publish.py:63-173 | after any history, exactly when the direct route sends, namely the request's own trimmed topic and payload; and which of no, a denied or an error trace it leaves otherwise |
| `PublishExact.GatewayExact` | app/api/mqtt_publish.py:175-324 | after any history, exactly when the gateway sends, namely on the topic asked for, or else the default one, with an envelope of type, addon, time and data; and which trace it leaves otherwise |
| `PublishExact.DiscoveryExact` | app/api/ha_discovery.py:28-146 | after any history, exactly when a discovery message goes out and on which topic; and which trace is left otherwise |
| `PublishExact.StateExact` | app/api/ha_discovery.py:148-278 | after any history, exactly when a state message goes out, namely the request's own trimmed topic and payload; and which trace is left otherwise |
| `PublishExact.RegisterExact` | app/api/mqtt_registration.py:38-91 | after any history, what the registration route stores and traces, for every answer of its surroundings |
| `PublishSafety.RunParts` | app/api/mqtt_publish.py:27-36 | in every run, restarts included, session and registrations have seen exactly their own operations, and the policy cache those payloads that came since the last start |
| `PublishSafety.SenderEntitled` | app/api/ha_discovery.py:28-91 | on all four routes, after any history: setup is applied, the caller has a live grant by what was heard since the last start, and but for the direct route the addon is registered |
| `PublishSafety.GatewayConfinement` | app/api/mqtt_publish.py:175-324 | every message of the gateway route, after any history: setup applied, caller with a live grant, topic in the namespace and scopes of a registered addon (`anonymous` included), envelope complete and naming it |
| `PublishSafety.DirectConfinement` | app/api/mqtt_publish.py:63-173 | under policy enforcement the direct route confines every caller to the namespace of its own id |
| `PublishSafety.StateConfinement` | app/api/ha_discovery.py:148-278 | every state message, after any history: the addon is registered for Home Assistant, the topic is the trimmed one, without wildcards, not reserved, and in the addon's namespace unless the request says exactly `anonymous` |
| `PublishSafety.AnonymousGoesAnywhere` | app/services/topic_permissions.py:85-91 | under a case folding that keeps `active`, for every plain topic that is not reserved there is a run that sends a state message for `anonymous` on it, another addon's topics included |
| `PublishSafety.DiscoveryConfinement` | app/api/ha_discovery.py:28-146 | every discovery message, after any history: the addon is registered for Home Assistant, and the topic is that of its unique id and no platform topic |
| `PublishSafety.EverySentConfined` | app/services/envelope_validation.py:21-47 | every message of the four publish routes, in every run: its sender was entitled when it went out, its topic is not reserved, it lies in its owner's namespace if it has an owner, it carries a complete envelope if it came by the direct or gateway route, and it has an owner unless it is for Home Assistant |
| `PublishSafety.SharedTopicsNested` | app/services/topic_permissions.py:85-91 | in every run two owners have messages on the same topic only if one id leads below the other, and, `anonymous` aside, only if one is nested in the other; never if neither contains `/` |
| `PublishSafety.RevocationForgotten` | app/services/policy_cache.py:20-29 | a run in which a token is revoked, the process restarts, and a message sent with that token goes out |
| `PublishSafety.DiscoveryTopics` | app/api/ha_discovery.py:104 | in every run a discovery message shares its topic with no owned message, and with another discovery message if and only if their unique ids are equal, whoever sent them |
| `PublishSafety.PublishesAccounted` | app/api/mqtt_publish.py:141-173 | in every run success traces and usage events are equally many and at most the accepted messages, and exactly as many if and only if the trace of every accepted message could be saved |
| `Telemetry.TelemetryReporter.EnqueueUsage` | app/services/telemetry_reporter.py:52-74 | the event is appended, and the oldest one dropped exactly when the queue was full; a reporter started from the file now would have this queue |
| `Telemetry.TelemetryReporter.PeekHead` | app/services/telemetry_reporter.py:90-94 | the head is looked at, not removed |
| `Telemetry.TelemetryReporter.PostAnswer` | app/services/telemetry_reporter.py:95 | the answer of a post leaves the queue alone, whatever was enqueued meanwhile |
| `Telemetry.TelemetryReporter.PopHead` | app/services/telemetry_reporter.py:96-98 | the pop always finds an event and removes the first one |
| `Telemetry.TelemetryReporter.FlushOnce` | app/services/telemetry_reporter.py:81-102 | events leave in order up to the first failed post, the rest stays queued, and a reporter started from the file now would have this queue |
| `Telemetry.TelemetryReporter.constructor` | app/services/telemetry_reporter.py:129-143 | a reporter over any queue file, missing, too long or unparsable, starts as a valid one with the newest events of the file |
| `Telemetry.RestartFromFile` | app/services/telemetry_reporter.py:129-149 | in every interleaving, a restart at any moment starts a run with a bounded stretch of consecutive events; it misses queued events if and only if the queue is not empty and the file stops short of the newest event; if it does not stop short, it has the queue preceded by what left it since |
| `Telemetry.StepKeepsInv` | app/services/telemetry_reporter.py:69-102 | every enqueue, peek, post, pop and save keeps the queue a bounded suffix, delivery positions increasing, the counts of popped, dropped and delivered in step, and the file a stretch that was queued once |
| `Telemetry.EventsConserved` | app/services/telemetry_reporter.py:69-102 | in every interleaving: bounded queue, strictly increasing delivery positions, enqueued = delivered + queued + dropped up to the event between post and pop |
| `Telemetry.NoTruncationNoLoss` | app/services/telemetry_reporter.py:89-102 | without saturation delivery is first in, first out, without a gap, and nothing leaves undelivered |
| `Telemetry.PopRemovesPostedIff` | app/services/telemetry_reporter.py:97-100 | the pop removes the posted event if and only if nothing was dropped since the peek |
| `Telemetry.NoLossIff` | app/services/telemetry_reporter.py:89-102 | in every interleaving, every event popped was delivered if and only if no pop so far followed a drop since its peek |
| `Telemetry.SilentLoss` | app/services/telemetry_reporter.py:97-100 | a run that loses an event that was neither delivered nor dropped by saturation |
| `PublishTraces.TraceStore.Append` | app/services/publish_trace_store.py:14-21 | the stored list stays the newest records of everything saved since the file was last lost, which a broken save does, and a read that raises together with a save |
| `PublishTraces.TraceStore.ListRecent` | app/services/publish_trace_store.py:23-36 | the reverse of the last clamped-limit records of everything saved since the file was last lost; none when the read raises |
| `PublishTraces.Metrics` | app/api/mqtt_publish.py:333-352 | the overall figures are the numbers of publish traces with each outcome, and the per-addon ones the counts over them |
| `PublishTraces.MetricsCount` | app/api/mqtt_publish.py:339-352 | the figures of each addon are the numbers of publish traces that name it, or are called by it if they name none, and exactly those addons are reported |
| `PublishTraces.MetricsConserve` | app/api/mqtt_publish.py:339-352 | per-addon figures sum to the overall figure, for each outcome |
| `PublishTraces.OutcomesPartition` | app/api/mqtt_publish.py:342-352 | the three outcome totals sum to the number of publish traces |

## Left out

- FastAPI routing, request validation, HTTP codes, response bodies and log lines.
- paho-mqtt, sockets, threads, the Docker SDK, subprocesses and the text of generated compose, mosquitto and ACL files.
- The core registry calls and the token check; claims are given values.
- JSON text, clocks and revisions as numbers: documents, times and revisions are abstract values.
- `str` of nested lists and objects inside a string list; list items are modelled by the text they yield.
- Optional-group metadata that is not an object: manifest groups are always records.
- Environment look-ups: policy enforcement and telemetry are enabled, the desired path is fixed, the queue bound is at least 1.
- Concurrent writes to `config.json` and `install_state.json`, which the code does not lock: they are sequential here.
- InstallWorkflow.ApplyNeedsTest: of the configuration, only mode, access mode and connection are described, and ports are between 1 and 65535, also in configuration updates, which the code does not check.
- ConfigStore.AssetRoot.PrepareOptionalGroupAssets: a group id is one directory name; ids with `/` are not described.
- RegistrationStore.Store.LoadOrCreateSeed: the save of a new seed succeeds.
- PublishSafety.EverySentConfined: each route is one step, so that a revocation that arrives between the policy check and the hand-over counts as arriving after the message.
- Overlapping requests on the trace and registration files, which the code reads, changes and writes without a lock: they are sequential here.
- Edits of the desired-state document by parties that do not take the lock, and a look-up of its path that raises, which no reader survives.
- Telemetry.TelemetryReporter.EnqueueUsage: the save of the queue file inside a request succeeds; saves that break off are steps of the interleavings only.
- Entries of the trace file that fail validation: every stored record is one that was appended.
- Message and correlation ids, `qos` and `retain`, and the detail texts of traces.
- The topic explorer, health and lifecycle payloads, secret masking and guidance strings.
- The announce and health messages that the service publishes for itself (app/services/mqtt_client.py:151-167): the messages of a run are those of the four publish routes.
- The fields of a sensor description other than its unique id, its `state_topic` included.
- Two flushers at once: stopping the reporter may flush while the background flush still runs.
- Progress of the flush loop: with an empty queue the code persists while holding a lock that is not reentrant; here persisting is a step outside the lock.
- The order in which stale asset directories are removed; a failure part-way leaves an unspecified subset of them.
- The rule of section 4.7.2 of MQTT Version 3.1.1 about topics beginning with `$`, which the matcher does not implement.
- Leftover temporary files after a crash in the middle of a write, and what a failed preparation leaves in the directory of the group it failed at.
- Overlapping writes of the telemetry file by two threads: each write replaces the file, in whole or broken off.
- The lock file itself: a writer that crashes or releases is assumed to free the lock.
