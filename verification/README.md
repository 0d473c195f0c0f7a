# etcdisc: a verified model of the registry, config centre and agent directory

etcdisc keeps namespaces, service instances, configuration items and agent cards in one revisioned
key-value store, and derives from it an agent capability index, a layered configuration view and
two client caches that follow the store through watch streams. This project models that state and
proves what every operation, every run and every interleaving keeps true of it.

The model has two levels.

* **The code's own level.** `MemoryStore.dfy` is the string-keyed store as a class: compare-and-swap,
  leases, prefix listing, watchers with bounded buffers. `NamespaceService.dfy`, `RegistryService.dfy`,
  `ConfigService.dfy`, `AgentService.dfy` and `DiscoveryService.dfy` are the services as classes that call
  it step by step; `Consumer.dfy`, `ConfigSdk.dfy`, `Pickers.dfy` and `Sse.dfy` are the client side and the
  event-stream printer and reader.
* **The specification level.** `Store.dfy`, `Watching.dfy` and `Services.dfy` say what each operation does as
  functions on a store with structured keys. `Keyspace.dfy` proves the string layout exact, and
  `Representation.dfy` proves that the string-keyed store simulates the structured one, so every method of
  the first level is proved equal to its function at the second. The ghost argument `a` of the service
  methods is the structured store that the real one represents. The reading methods require of it only what
  `Reachable.ReachableStates` proves of every state that runs of the services reach from an empty store.

The results about whole runs are stated at the second level: `Invariants.dfy` (placement and normal form),
`CapabilityIndex.dfy`, `CardInterleaving.dfy` and `CardOverlap.dfy` (the capability index, serially and step by step),
`Leases.dfy`, `HealthHistory.dfy`, `UpdateFrame.dfy`, `NoLostUpdate.dfy`, `Isolation.dfy`, `AccessModes.dfy` (what each
mode lets through), `Views.dfy` (what reads return), `ConsumerConvergence.dfy`, `NamespaceConvergence.dfy` and
`ConfigConvergence.dfy` (the two caches), `Reachable.dfy`.

`RegistryLaws.dfy`, `ConfigLaws.dfy`, `AgentLaws.dfy`, `DiscoveryLaws.dfy` and `Names.dfy` state, with fields, modes, constants
and error codes written out, exactly which calls each operation accepts, what an accepted one leaves behind and what readers
then see, independently of how `Services.dfy` defines it.

Where a property one would expect does not hold of the code, the code is kept, the exact condition is proved, and
`Counterexamples.dfy`, `OverlapRuns.dfy` or the lemma's own module gives a concrete run that shows the failure:

* An expected revision that was guessed before the store issued it can match another client's write
  (`NoLostUpdate.SwapReplacesWhatWasRead`, `NoLostUpdate.GuessedRevisionLosesAnUpdate`).
* Overlapping puts of one agent card can leave a surplus or a missing capability entry
  (`CardOverlap.OverlapAgreesExactly`).
* The documented order of the SDKs is snapshot, watch, local cache (README.md:132 of the repository). Changes
  between a snapshot and a later subscription are missed, because the store ignores the start revision of a
  watch (`ConsumerConvergence.LateSubscriptionConvergesExactly`).
* A reset re-syncs the consumer with the default healthy-only filter (`ConsumerConvergence.ResetRestoresExactly`),
  and a healthy-only consumer keeps an instance that turns unhealthy
  (`ConsumerConvergence.HealthyCacheConvergesExactly`).
* A cache of a whole namespace tells instances apart by id alone
  (`NamespaceConvergence.NamespaceCacheConvergesExactly`).
* The configuration cache lets any put overwrite, whatever its scope (`ConfigConvergence.KeysConvergeExactly`).
* The documentation ties a lease to heartbeat mode; registering a probed instance does not clear a lease id the
  caller supplied, and deregistering it revokes that lease (`Leases.RegistrationKeepsOwnershipExactly`,
  `Leases.LeaseSurvivesExactly`).
* Writing is all a write-only namespace allows, yet the update of an agent card there is forbidden, because it reads the
  stored card as an ordinary reader first (`AccessModes.ForbiddenWritesExactly`, `Counterexamples.WriteOnlyRefusesCardUpdates`).
* An event line of 65536 bytes or more ends the client's stream for good (`Sse.RoundTripExactly`).

`dafny verify dfyconfig.toml` checks the whole project.

## Model

| member | source | states |
|---|---|---|
| Keyspace.RenderIsInjective | internal/core/keyspace/keys.go:14-95 | Two different keys never render to the same string, across all eight builders, even when only one of them is made of validated names |
| Keyspace.ResourceOfRenderedKey | internal/core/keyspace/keys.go:103-120 | Classifying a built key returns the family of its builder, whatever its components |
| Keyspace.InstancePrefixesAreExact | internal/core/keyspace/keys.go:24-36 | A stored key has the service prefix iff it is an instance key of that namespace and service, and the namespace prefix iff it is one of that namespace |
| Keyspace.ConfigPrefixesAreExact | internal/core/keyspace/keys.go:44-65 | A stored key has the prefix of one of the three scopes iff it is a config key of that scope and address |
| Keyspace.CardAndCapabilityPrefixesAreExact | internal/core/keyspace/keys.go:73-90 | Card and capability prefixes select exactly the keys whose components match |
| Keyspace.ValidKeysAreSlashFree | internal/core/model/validation.go:13-21 | No name the validators accept contains a slash |
| Names.KeysAreLaidOut | internal/core/keyspace/keys.go:11-95 | Every key is its literal head, from /etcdisc on, followed by its parts between single slashes |
| Names.ValidatorsMatchTheirPatterns | internal/core/model/validation.go:13-21 | Each validator accepts exactly the texts its regular expression matches: names of 3 to 64 characters that begin and end in a letter or digit, and the five one-class patterns with their lengths |
| Names.MetadataMatches | internal/core/model/validation.go:72-82 | Metadata is accepted iff every key matches its pattern and no value holds a null character |
| Model.FillDefaults | internal/core/model/instance.go:79-110 | Filling the defaults field by field computes the normal form; every field the caller sent is kept, and each omitted one gets its documented value: group default, weight 100, heartbeat mode, no metadata, health, the instance's own address and port for probing, and the HTTP and gRPC probe paths |
| Model.NormalizeIsIdempotent | internal/core/model/instance.go:79-110 | A normal form is a fixed point |
| Names.DecimalReadsBack | internal/core/service/registry/service.go:322-325 | The decimal form of a number has only digits, no leading zero, and reads back as the number |
| Names.GeneratedIDsDiffer | internal/core/service/registry/service.go:322-325 | Two different serial numbers never generate the same instance id for a service |
| Store.RunsAreSound | test/testkit/memory_store.go:50-145 | After every run of store operations, replaying the emitted events from empty gives all keys, values and revisions; event revisions strictly increase; the log only grows |
| Store.IssuedRevisionIsUntouched | test/testkit/memory_store.go:75-87 | A record whose revision was issued before some steps ran was there, unchanged, before them: deleting and re-creating never brings a revision back |
| Store.RevisionsStayIssued | test/testkit/memory_store.go:192-195 | No record ever carries a revision that was not issued |
| Watching.OfferIsFaithful | test/testkit/memory_store.go:197-207 | A send to a full buffer loses the event and nothing else |
| Watching.HubRunsAreSound | test/testkit/memory_store.go:148-207 | After every run of operations, subscriptions, cancellations and receives, each channel took an in-order subsequence of its prefix's events while it was open, all of them unless it was ever full |
| Watching.StoreStepDelivers | test/testkit/memory_store.go:197-207 | An event is taken by every open subscription whose prefix matches, and lost exactly by those with sixteen events waiting; a store step changes nothing else of any subscription |
| Watching.CancelledTakesNothing | test/testkit/memory_store.go:155-161 | Whatever runs afterwards, the channel of a cancelled watcher takes no further event |
| MemoryStoreObject.MemoryStore.constructor | test/testkit/memory_store.go:36-42 | A new store is the empty one |
| MemoryStoreObject.MemoryStore.Create | test/testkit/memory_store.go:50-61 | The whole new state, log and subscriptions included, and the result: an existing key is refused and changes nothing |
| MemoryStoreObject.MemoryStore.Put | test/testkit/memory_store.go:64-72 | The whole new state and the new revision of an unconditional write |
| MemoryStoreObject.MemoryStore.Cas | test/testkit/memory_store.go:75-87 | The write happens iff the key is there with the expected revision; otherwise a conflict and no change |
| MemoryStoreObject.MemoryStore.Get | test/testkit/memory_store.go:90-98 | The stored value, revision and lease, or not found |
| MemoryStoreObject.MemoryStore.List | test/testkit/memory_store.go:101-117 | Exactly the records under the prefix, each once, strictly ordered by key |
| MemoryStoreObject.MemoryStore.Delete | test/testkit/memory_store.go:120-131 | The whole new state; the event carries the removed value; a missing key is not found |
| MemoryStoreObject.MemoryStore.DeleteCas | test/testkit/memory_store.go:134-145 | The delete happens iff the key is there with the expected revision |
| MemoryStoreObject.MemoryStore.Watch | test/testkit/memory_store.go:148-154 | A new subscription starts at the end of the log with an empty buffer |
| MemoryStoreObject.MemoryStore.CancelWatch | test/testkit/memory_store.go:155-161 | A cancelled watcher takes no further events |
| MemoryStoreObject.MemoryStore.ReceiveFrom | test/testkit/memory_store.go:148-163 | A receive takes the oldest buffered event |
| MemoryStoreObject.MemoryStore.GrantLease | test/testkit/memory_store.go:166-172 | A new lease id is a fresh revision number and emits no event |
| MemoryStoreObject.MemoryStore.KeepAliveOnce | test/testkit/memory_store.go:175-182 | Succeeds iff the lease is live |
| MemoryStoreObject.MemoryStore.RevokeLease | test/testkit/memory_store.go:185-190 | Removes the lease and leaves all records |
| MemoryStoreObject.MemoryStore.BroadcastLocked | test/testkit/memory_store.go:197-207 | Whatever the order of the watchers, exactly the matching channels with room receive the event |
| Text.SortedStringsAscend | test/testkit/memory_store.go:104-110 | Sorting the collected keys gives the strictly ascending list of the same keys |
| Text.LessIsLexicographic | test/testkit/memory_store.go:104-110 | The order of keys is the lexicographic one: the first difference decides, and a proper prefix comes first |
| Representation.OperationsAreRepresented | test/testkit/memory_store.go:50-190 | A string-keyed store that represents a structured one still does after any of the store's operations |
| Representation.ResultsAgree | test/testkit/memory_store.go:50-190 | The operations return the same results on both, for any key at all |
| Representation.EmptyIsRepresented | test/testkit/memory_store.go:36-42 | A new string-keyed store represents the empty structured one |
| Representation.LookupsAgree | test/testkit/memory_store.go:90-98 | No malformed key reaches another key's record |
| NamespaceServiceObject.NamespaceService.Create | internal/core/service/namespace/service.go:44-65 | On the represented store exactly the specified transition: a valid new name gets a read-write namespace at its own key, an invalid or existing one changes nothing, with the matching error |
| NamespaceServiceObject.NamespaceService.Get | internal/core/service/namespace/service.go:68-82 | The stored namespace with its record revision, or the error for an invalid or missing name, looked up by string key in the represented store |
| NamespaceServiceObject.NamespaceService.UpdateAccessMode | internal/core/service/namespace/service.go:106-132 | Exactly the specified transition: the stored namespace with the new mode replaces the revision the caller expected, or the error and no change; AccessModes.ModeChangeExactly spells it out |
| NamespaceServiceObject.NamespaceService.CheckRead | internal/core/service/namespace/service.go:135-147 | Refused exactly if the namespace is missing or its mode blocks reads, unless asked by an administrator; AccessModes.ReadCheckExactly names the modes |
| NamespaceServiceObject.NamespaceService.CheckWrite | internal/core/service/namespace/service.go:150-162 | Refused exactly if the namespace is missing or its mode blocks writes, unless asked by an administrator; AccessModes.WriteCheckExactly names the modes |
| AccessModes.WriteCheckExactly | internal/core/model/namespace.go:65-72 | The write check passes iff the namespace is stored read-write or write-only; read-only and no-read-no-write are forbidden, a missing namespace is not found, a malformed name invalid |
| AccessModes.ReadCheckExactly | internal/core/model/namespace.go:55-62 | The read check passes iff asked by an administrator or the namespace is stored read-write or read-only, with the matching error otherwise |
| AccessModes.CreationExactly | internal/core/service/namespace/service.go:44-65 | A namespace is created iff its name is valid and free, and is read-write from then on; a refusal changes nothing |
| AccessModes.ModeChangeExactly | internal/core/service/namespace/service.go:106-132 | A mode change is accepted iff the mode is one of the four and the stored revision is the expected one; the namespace then has that mode, its old creation time, and the next revision |
| AccessModes.RunsKeepMode | internal/core/service/namespace/service.go:106-132 | Over every run a stored namespace keeps its mode until its mode is changed |
| AccessModes.ForbiddenWritesExactly | internal/core/service/namespace/service.go:150-162 | In read-only and no-read-no-write namespaces every registration, update, heartbeat, deregistration, scoped configuration change and card put is refused and changes nothing, as forbidden unless its arguments were refused before; otherwise none is forbidden but a card update in a write-only namespace |
| AccessModes.ClosedNamespacesStayClosed | internal/core/service/namespace/service.go:106-162 | Over runs: all of that holds from an accepted mode change on, whatever happens in between, until the mode is changed again |
| AccessModes.ClosedNamespacesCannotBeRead | internal/core/service/namespace/service.go:106-147 | Over runs: after an accepted change to write-only or no-read-no-write listing, raw and resolved configuration, card lookup and discovery answer forbidden to all but administrators, and after the other two modes to nobody |
| RegistryServiceObject.RegistryService.NewInstanceID | internal/core/service/registry/service.go:322-325 | The counter advances by one and names the instance |
| RegistryServiceObject.RegistryService.Register | internal/core/service/registry/service.go:93-131 | Exactly the specified transition: defaults filled in, a generated id only if none was given, validation before the write check, a lease only for heartbeat mode, then the create; the id counter advances only when used; the next rows spell out what it accepts and stores |
| RegistryLaws.RegistrationAcceptedExactly | internal/core/service/registry/service.go:93-131 | Accepted iff names, address, port, weight, metadata, modes and probe port are in range, the namespace is stored read-write or write-only and no instance has the id; the error otherwise |
| RegistryLaws.RegistrationStores | internal/core/service/registry/service.go:93-131 | The answer, and what a reader then finds, is the caller's instance with each omitted field at its documented default, the given or generated id, the current time, a new lease in heartbeat mode, and the new revision |
| RegistryLaws.RefusedRegistrationStoresNothing | internal/core/service/registry/service.go:93-131 | A refused registration leaves all records, events and leases; at most a lease is granted besides |
| RegistryLaws.NewRegistrationsAreListed | internal/core/model/instance.go:92-94 | A registration that sends no status is healthy, newborn in the sense of HealthHistory if its counters are zero, and in every unfiltered or healthy-only listing of its service at once |
| RegistryServiceObject.RegistryService.Get | internal/core/service/registry/service.go:134-140 | The stored instance with the record's revision and lease |
| RegistryServiceObject.RegistryService.Update | internal/core/service/registry/service.go:143-178 | Exactly the specified transition: the stored record with the requested changes, in normal form, replaces the expected revision and keeps its lease, or the error and no change |
| RegistryLaws.UpdateAcceptedExactly | internal/core/service/registry/service.go:143-178 | Accepted iff the namespace is writable, the instance is stored at exactly the expected revision and weight and metadata are in range; a refusal changes nothing and gives the matching error |
| RegistryServiceObject.RegistryService.Heartbeat | internal/core/service/registry/service.go:181-212 | Exactly the specified transition: only for heartbeat mode and a live lease the record becomes healthy with new timestamps and keeps its lease; the next rows spell it out |
| RegistryLaws.HeartbeatAcceptedExactly | internal/core/service/registry/service.go:181-197 | Accepted iff the namespace is writable, the stored instance is in heartbeat mode and its lease, if any, is live; a refusal changes nothing and gives the matching error |
| RegistryLaws.HeartbeatRevives | internal/core/service/registry/service.go:198-212 | The instance is then healthy with current times and the next revision and differs in nothing else, nor does any other record or lease |
| RegistryServiceObject.RegistryService.Deregister | internal/core/service/registry/service.go:215-230 | The lease is revoked and the record removed, or nothing changes; RegistryLaws.DeregistrationExactly spells it out |
| RegistryLaws.DeregistrationExactly | internal/core/service/registry/service.go:215-230 | Accepted iff the namespace is writable and the instance stored; then the record is gone, leased or not, the log ends in its delete event, its lease is revoked, and nothing else changed |
| RegistryLaws.DeregisteredIsUnlisted | internal/core/service/registry/service.go:215-230 | No listing contains a deregistered instance |
| RegistryServiceObject.RegistryService.ApplyProbeResult | internal/core/service/registry/service.go:233-260 | Exactly the specified transition: only for probe modes the health machine's verdict is stored without a lease or the record deleted |
| RegistryLaws.ProbeAcceptedExactly | internal/core/service/registry/service.go:233-260 | Accepted iff the instance is stored in one of the three probe modes, whatever the namespace's mode; a refusal changes nothing |
| RegistryLaws.ProbeStores | internal/core/service/registry/service.go:233-260 | The outcome's counter advances and the other is cleared, the status turns at its threshold, the record loses its lease or is deleted at its limit; without an override the thresholds are 3, 2 and 5 |
| RegistryServiceObject.RegistryService.Filtered | internal/core/service/registry/service.go:275-294 | Keeps exactly the decoded instances that pass every filter, in path order |
| RegistryServiceObject.RegistryService.List | internal/core/service/registry/service.go:263-301 | The access check's error, or exactly the stored instances in scope that pass, strictly ordered by path |
| RegistryLaws.ListingShowsExactly | internal/core/service/registry/service.go:263-301 | An instance is listed iff it is stored in the service, or in the namespace where none is named, healthy if only those are wanted, of the wanted group and version, and its metadata agree on every wanted key, an absent key counting as empty |
| RegistryLaws.ListingsAscendByID | internal/core/service/registry/service.go:295-299 | The instances of one service are listed in strictly ascending order of their ids |
| Views.ListingIsUnique | internal/core/service/registry/service.go:263-301 | That specification determines the list |
| HealthRules.ApplyProbeResult | internal/core/service/health/manager.go:31-56 | The field by field update of a copy computes the transition whose histories HealthHistory describes |
| HealthHistory.CountersSummariseHistory | internal/core/service/health/manager.go:31-56 | From a new healthy record, for every history and policy: counters are the trailing run lengths, status is unhealthy iff the latest run to reach its threshold was a failing one, and the record is deleted iff the trailing failures ever reach the delete limit |
| HealthHistory.DeletedFromUnhealth | internal/core/service/health/manager.go:44-55 | The delete fires when the trailing failures first reach the limit, and the record stored just before is always unhealthy |
| HealthHistory.StoredRecordFollowsHistory | internal/core/service/registry/service.go:233-260 | A run of probes leaves in the store exactly the record its history describes, or none |
| Invariants.RunsStayPlaced | internal/core/service/registry/service.go:93-260 | After every run of all service operations each record and each logged event is valid, sits at the key its own fields name, and instances are fixed points of normalization |
| Invariants.StoredInstance | internal/core/service/registry/service.go:303-311 | A stored instance always decodes, to a valid instance in normal form with its key's identity |
| UpdateFrame.UpdateChangesOnlyMutableFields | internal/core/service/registry/service.go:143-178 | A successful update changes only weight (zero meaning the default 100), metadata, version and the update time, and replaced the expected revision |
| Leases.RunsKeepLeases | internal/core/service/registry/service.go:93-260 | After every run in which no probed instance brings a lease id an instance has a lease iff it is in heartbeat mode, the lease is live, and no two records share one |
| Leases.HeartbeatSucceedsExactly | internal/core/service/registry/service.go:181-212 | A heartbeat is accepted iff the namespace is writable and the stored instance is in heartbeat mode |
| Leases.RegisteredLease | internal/core/service/registry/service.go:109-125 | A new record carries a fresh live lease in heartbeat mode, and otherwise exactly the id the caller supplied, live iff it was |
| Leases.RegistrationKeepsOwnershipExactly | internal/core/service/registry/service.go:93-131 | A registration keeps leases owned one to one iff it is refused, brings no lease id or is in heartbeat mode |
| Leases.HeartbeatNeedsItsLease | internal/core/service/registry/service.go:181-212 | With no assumption on leases: a heartbeat of a stored heartbeat-mode instance in a writable namespace is refused iff its lease is no longer live |
| Leases.LeaseSurvivesExactly | internal/core/service/registry/service.go:215-230 | Over all operations a live lease is lost exactly by deregistering a record that carries it, its own or one brought along |
| ConfigServiceObject.ConfigService.Put | internal/core/service/config/service.go:65-96 | Exactly the specified transition: the write check unless global, then validation, then a create for revision zero and a swap otherwise, with the creation time kept if given; the next rows spell out what it accepts and stores |
| ConfigLaws.PutAcceptedExactly | internal/core/service/config/service.go:65-96 | Accepted iff the layer is global or the namespace writable, the item is well-formed, and the key is absent for expected revision zero and stored at exactly the expected revision otherwise; a refusal changes nothing and gives the matching error |
| ConfigLaws.PutStores | internal/core/service/config/service.go:75-96 | An accepted put stores the item as sent in its own layer, with its creation time or the current one and the next revision; every other record is as before and the log ends in the put |
| ConfigLaws.AcceptedPutIsInForce | internal/core/service/config/service.go:65-169 | An accepted put is in force at once for every caller of its layer, unless an override or a stronger layer holds the key |
| ConfigServiceObject.ConfigService.Delete | internal/core/service/config/service.go:99-110 | Exactly the specified transition: the write check unless global, a positive revision, and a delete only of that revision |
| ConfigLaws.DeleteExactly | internal/core/service/config/service.go:99-110 | Accepted iff the layer is open and the key is stored at exactly the expected revision; then that record is gone, the log ends in its removal and nothing else changed; a refusal changes nothing and gives the matching error |
| ConfigServiceObject.ConfigService.GetRaw | internal/core/service/config/service.go:114-134 | Exactly the items stored at the scope, strictly ordered by key, or the access check's error |
| ConfigServiceObject.ConfigService.Merge | internal/core/service/config/service.go:142-146 | Merging a layer sets exactly its own keys |
| ConfigServiceObject.ConfigService.Override | internal/core/service/config/service.go:162-167 | In any order of iteration: an invalid override fails the call, otherwise the overrides win for their keys and change no other |
| ConfigServiceObject.ConfigService.Resolve | internal/core/service/config/service.go:137-169 | For every key the value of the strongest layer that holds it, and no key that none holds |
| ConfigLaws.ResolvesExactly | internal/core/service/config/service.go:137-169 | Key by key: the caller's override if there is one, else the value and type stored for the service, else for the namespace, else globally, labelled with that layer; a key that none holds is absent |
| ConfigLaws.ResolveAcceptedExactly | internal/core/service/config/service.go:137-167 | Answered iff the namespace is readable or an administrator asks, and every override could be stored |
| Views.DeleteFallsBack | internal/core/service/config/service.go:99-169 | A successful delete leaves for its key exactly the next layer's value unless a stronger one holds it, and changes no other key of any view |
| AgentServiceObject.AgentService.Get | internal/core/service/a2a/service.go:102-111 | The stored card, or the error of the check or of the lookup |
| AgentServiceObject.AgentService.Put | internal/core/service/a2a/service.go:55-99 | Exactly the specified transition of card and index together: the card is created or swapped, then the entries of the card it read are removed and its own written; a failure before the write changes nothing |
| AgentLaws.CardPutAcceptedExactly | internal/core/service/a2a/service.go:55-88 | Accepted iff the namespace is writable, the card is well-formed, and it is absent for expected revision zero, or stored at exactly the expected revision in a namespace that is readable too; a refusal changes nothing and gives the matching error |
| AgentLaws.CardPutStores | internal/core/service/a2a/service.go:64-97 | The answer, and what a reader then finds, is the card as sent, created when the card it replaces was, updated now, at the next revision |
| AgentLaws.CardPutIndexes | internal/core/service/a2a/service.go:90-97 | Then the agent has an entry for each listed capability and no other, naming the card's agent and service |
| AgentLaws.CardPutTouchesNothingElse | internal/core/service/a2a/service.go:55-99 | No other record changes |
| AgentServiceObject.AgentService.PutCapabilityIndexes | internal/core/service/a2a/service.go:189-200 | The loop writes one entry per listed capability |
| AgentServiceObject.AgentService.DeleteCapabilityIndexes | internal/core/service/a2a/service.go:202-209 | The loop removes the listed entries and passes over missing ones |
| CapabilityIndex.RunsKeepAgreement | internal/core/service/a2a/service.go:55-99 | After every serial run there is an entry for namespace, capability and agent iff the stored card lists the capability, and it names the card's agent and service |
| CapabilityIndex.PutCardKeepsAgreement | internal/core/service/a2a/service.go:80-97 | One put keeps that agreement, whatever capabilities repeat, disappear or change service |
| CapabilityIndex.PutCardReplacesWhatItRead | internal/core/service/a2a/service.go:64-92 | A successful put read exactly the card it replaced, or created one where there was none |
| CapabilityIndex.PutCardFailureChangesNothing | internal/core/service/a2a/service.go:55-88 | A failed put leaves the store untouched |
| CapabilityIndex.OnlyTheTargetChanges | internal/core/service/registry/service.go:93-260 | Every other operation changes at most the one key it addresses |
| AgentServiceObject.AgentService.ResultsOf | internal/core/service/a2a/service.go:163-178 | One result per listed instance that runs the card's agent, in order, each with the instance's address, port and status and the card's agent, service, protocols, auth mode and metadata |
| AgentServiceObject.AgentService.JoinRecords | internal/core/service/a2a/service.go:147-179 | Results that describe, field by field, exactly the pairs the index records lead to, each once |
| AgentServiceObject.AgentService.Discover | internal/core/service/a2a/service.go:135-187 | When allowed it never fails and returns, sorted by agent and address, every result exactly as often as it describes, field by field, a pair of a stored card with the capability and protocol and a stored instance of its service that runs its agent, healthy unless all are wanted |
| Views.ResultsAreStoredEndpoints | internal/core/service/a2a/service.go:163-178 | Every result carries the address, port and status of a stored instance and the agent, service, protocols, auth mode and metadata of the stored card whose agent it runs |
| Views.StoredEndpointsHaveResults | internal/core/service/a2a/service.go:135-187 | Every stored card with the capability and protocol and every stored instance of its service that runs its agent have their result |
| AgentLaws.DiscoveryAnswers | internal/core/service/a2a/service.go:135-187 | Answered iff the namespace is readable or an administrator asks and the capability is well-formed, in the order of agent ids and then of addresses |
| AgentLaws.AcceptedCardIsDiscovered | internal/core/service/a2a/service.go:55-187 | After an accepted card put, discovery by any of its capabilities and protocols shows every running instance of its agent with its address, port and status |
| AgentServiceObject.EntriesMakeTheJoin | internal/core/service/a2a/service.go:135-187 | The pairs reached through the index are exactly those of the naive join over all cards and instances |
| CardInterleaving.AloneIsSerial | internal/core/service/a2a/service.go:55-99 | The store steps of an uninterrupted put compose to the serial operation |
| CardInterleaving.NothingEverDangles | internal/core/service/a2a/service.go:80-97 | Under every interleaving of puts at store steps with each other and with all other operations, every entry names a stored card |
| CardInterleaving.AgreementWithoutOverlap | internal/core/service/a2a/service.go:55-99 | Under every interleaving in which no swap succeeds while another put of the same agent is re-indexing, lost races included, the index agrees for every agent with no put re-indexing |
| CardInterleaving.EmptyWorldIsOrderly | internal/core/service/a2a/service.go:47-52 | The invariant of both interleaving results holds of an empty store with no call in progress |
| CardOverlap.OverlapEntry | internal/core/service/a2a/service.go:80-97 | After every interleaving of two overlapping re-indexings the newer card is stored, the last step about each entry decides it, and an entry is right iff that step is what the newer card asks |
| CardOverlap.OverlapAgreesExactly | internal/core/service/a2a/service.go:80-97 | The index agrees after every interleaving of the two, and equally when the slower put steps last, iff the slower put has no entry left to write that the newer card does not list for the same service, and none left to remove for good that it lists |
| CardOverlap.LastTouchIsSomeones | internal/core/service/a2a/service.go:189-209 | Whatever the interleaving, what is done to an entry last is the last thing one of the two puts does to it |
| CardOverlap.WovenIsARun | internal/core/service/a2a/service.go:80-97 | Such an interleaving is a run of the world of concurrent calls |
| NoLostUpdate.SwapReplacesWhatWasRead | test/testkit/memory_store.go:75-87 | When a swap succeeds after arbitrary steps of others, it replaces exactly the record read before iff the expected revision was issued by then |
| NoLostUpdate.UpdateIsNotLost | internal/core/service/registry/service.go:143-178 | For every interleaving, a successful instance update is the requested change applied to the record it replaced |
| NoLostUpdate.AccessModeIsNotLost | internal/core/service/namespace/service.go:106-132 | The same for access-mode updates: the record replaced, with the requested mode and the update time |
| NoLostUpdate.CardUpdateIsNotLost | internal/core/service/a2a/service.go:65-92 | The same for card updates, whose creation time is that of the card replaced |
| NoLostUpdate.ConfigPutIsNotLost | internal/core/service/config/service.go:65-96 | For every interleaving: a successful configuration update replaces exactly the record the caller saw at its revision iff that revision was issued by then, a successful creation replaces nothing, and the item is stored as sent |
| NoLostUpdate.ConfigDeleteRemovesWhatWasSeen | internal/core/service/config/service.go:99-110 | The same for configuration deletes |
| NoLostUpdate.UninterruptedUpdateIsSerial | internal/core/service/registry/service.go:143-178 | With nothing in between the interleaved update is the serial one |
| NoLostUpdate.UninterruptedAccessModeIsSerial | internal/core/service/namespace/service.go:106-132 | The same for access-mode updates |
| NoLostUpdate.UninterruptedCardSwapIsSerial | internal/core/service/a2a/service.go:55-99 | A serial card update is the uninterrupted swap followed by the re-indexing of the card it read |
| NoLostUpdate.UninterruptedConfigIsSerial | internal/core/service/config/service.go:65-110 | With nothing in between, the interleaved configuration put and delete are the serial ones |
| NoLostUpdate.GuessedRevisionLosesAnUpdate | test/testkit/memory_store.go:75-87 | A concrete run in which a guessed revision overwrites a value that was never read |
| Isolation.RunsStayInTheirNamespaces | internal/core/service/namespace/service.go:135-162 | Every run addressed to other namespaces, global configuration excluded, leaves every record of this namespace and the global configuration as it was |
| Isolation.ReadersSeeNoChange | internal/core/service/registry/service.go:263-301 | So access checks, listings, resolved values and discovery joins of this namespace are unchanged |
| Isolation.RefusedOperationsChangeNothing | internal/core/service/namespace/service.go:150-162 | An operation the access check refuses leaves the whole store as it was |
| Reachable.RunsExtend | test/testkit/memory_store.go:192-195 | Every run of service operations only appends to the log and only raises the revision |
| Reachable.ReachableStates | internal/core/service/a2a/service.go:55-99 | Every state reachable from an empty store has valid, placed records, an agreeing index and, if no probed instance brings a lease id, owned leases |
| OverlapRuns.OverlappingPutsBreakAgreement | internal/core/service/a2a/service.go:80-97 | A concrete run from the empty store: a card update that overtakes the card's creation leaves an entry for a capability the stored card does not list |
| OverlapRuns.LateRemovalLosesAnEntry | internal/core/service/a2a/service.go:90-97 | A concrete run from the empty store: an update that restores a capability while an earlier update is still removing it leaves the stored card without an entry for it |
| Counterexamples.ProbedInstanceKeepsSuppliedLease | internal/core/service/registry/service.go:109-125 | A probed instance registered with its own lease id is stored with that lease |
| Counterexamples.BorrowedLeaseStopsHeartbeats | internal/core/service/registry/service.go:181-230 | A concrete run: deregistering a probed instance that brought another instance's lease revokes it, and that instance's heartbeat, accepted before, is refused |
| Counterexamples.WriteOnlyRefusesCardUpdates | internal/core/service/a2a/service.go:64-69 | A concrete run: in a namespace changed to write-only a new card is accepted, while the update of the stored one at its own revision is forbidden |
| DiscoveryServiceObject.DiscoveryService.Snapshot | internal/core/service/discovery/service.go:45-58 | The registry's listing, of healthy instances only unless the caller says otherwise |
| DiscoveryLaws.SnapshotShowsExactly | internal/core/service/discovery/service.go:45-58 | Answered iff the namespace is readable, with exactly the stored instances the filters let through, unhealthy ones only if the caller explicitly asks for all |
| DiscoveryServiceObject.DiscoveryService.Watch | internal/core/service/discovery/service.go:61-67 | Opens a store subscription under the prefix of the service, or of the namespace where none is named |
| DiscoveryServiceObject.DiscoveryService.Forward | internal/core/service/discovery/service.go:61-100 | The loop produces the specified instance events: unhealthy puts dropped on a healthy-only watch, a reset or an undecodable document ends the stream |
| DiscoveryLaws.NextItemAdds | internal/core/service/discovery/service.go:75-98 | Each change appends its event with key, revision and instance, unless it is the put of an unhealthy instance on a healthy-only watch; a compaction appends a reset with its revision |
| DiscoveryLaws.NothingAfterTheEnd | internal/core/service/discovery/service.go:75-89 | After a compaction or an undecodable document nothing more is passed on |
| Consumer.RemoveInstance | pkg/consumer/client.go:162-170 | Compaction in place keeps exactly the instances with another id, in order |
| Consumer.Client.Sync | pkg/consumer/client.go:41-50 | A snapshot replaces this service's list and no other; a failed one changes nothing |
| Consumer.Client.ApplyEvent | pkg/consumer/client.go:74-92 | The new list of this service after a put, a delete or a reset; no other service's list changes |
| Consumer.Client.Watch | pkg/consumer/client.go:53-71 | The loop over a stream computes the fold of its events and stops at the first failed re-sync |
| Consumer.FailedResyncEndsTheStream | pkg/consumer/client.go:53-71 | The first reset whose snapshot fails ends the stream with its error and leaves the list as the deliveries before it made it, whatever follows |
| Consumer.CacheKeysAreInjective | pkg/consumer/client.go:172-174 | Two services with valid namespaces never share a cache entry |
| ConsumerConvergence.UnfilteredSnapshotMirrors | internal/core/service/discovery/service.go:45-58 | An unfiltered snapshot holds each id once and exactly the stored instances |
| ConsumerConvergence.StreamsWithoutReset | pkg/consumer/client.go:53-71 | On a stream without resets the client never fails and computes the plain fold of the events |
| ConsumerConvergence.TailDecides | pkg/consumer/client.go:74-92 | Applying all events from a log position on to any list makes every touched id current and leaves every other id as cached |
| ConsumerConvergence.StreamDecides | pkg/consumer/client.go:74-92 | Applying any stream caches for each id what its last event says, or what was cached |
| ConsumerConvergence.CacheConverges | pkg/consumer/client.go:41-92 | Subscribing no later than an unfiltered snapshot and applying all events since makes the cache hold each id at most once and exactly the stored instances, up to revision and lease |
| ConsumerConvergence.LateSubscriptionConvergesExactly | pkg/consumer/client.go:41-71 | For a subscription opened after the snapshot: converged iff the events in the gap together leave every id not touched afterwards as the snapshot has it |
| ConsumerConvergence.MirrorsTheListing | pkg/consumer/client.go:95-99 | A converged cache and the current listing hold the same instances |
| ConsumerConvergence.DeliveredEvents | internal/core/service/discovery/service.go:61-108 | The events delivered through the watch prefix of the string-keyed store, healthy-only or not, for one service or a namespace, are exactly those of the log |
| ConsumerConvergence.SubscriptionConverges | internal/core/service/discovery/service.go:61-100 | End to end from the store's subscription: if its buffer was never full, what it took makes the cache converge |
| ConsumerConvergence.SubscriptionConvergesExactly | test/testkit/memory_store.go:197-207 | With events lost to a full buffer: converged iff for every id the events taken say last what all of them say last |
| Watching.StoreStepsKeep | test/testkit/memory_store.go:50-145 | Store steps keep every subscription open with its prefix and start and only append to what it took; every service method promises the same |
| ConsumerConvergence.ResetRestoresExactly | pkg/consumer/client.go:75-77 | The re-sync of a reset restores agreement iff every stored instance of the service is healthy |
| ConsumerConvergence.HealthyCacheConvergesExactly | internal/core/service/discovery/service.go:61-100 | Over whole streams: a healthy-only snapshot and the healthy-only events since leave exactly the stored healthy instances cached iff no stored unhealthy instance has a put as its last visible event, or sits in the snapshot without any |
| NamespaceConvergence.NamespaceCacheConvergesExactly | pkg/consumer/client.go:74-92 | A cache of a whole namespace holds exactly its stored instances iff for every stored instance no other service had the last event with its id |
| NamespaceConvergence.UniqueIDsConverge | pkg/consumer/client.go:162-170 | Instance ids that no two services of the namespace ever shared are enough |
| Counterexamples.LateSubscriptionMissesAnInstance | pkg/consumer/client.go:41-71 | A concrete run of accepted operations: an instance registered between an accepted snapshot and the subscription never appears |
| Counterexamples.ResetDropsUnhealthyInstance | pkg/consumer/client.go:75-77 | A concrete run: the re-sync of a reset is accepted and drops the one stored, unhealthy instance |
| Counterexamples.HealthyWatchKeepsStaleInstance | internal/core/service/discovery/service.go:85-87 | A concrete run: a healthy-only consumer keeps the healthy copy of an instance whose probe has since failed |
| Counterexamples.SharedIDsDisplaceEachOther | internal/core/service/discovery/service.go:63-66 | A concrete run: of two stored instances of different services with one id, a namespace cache holds only the later |
| Consumer.Client.PickRoundRobin | pkg/consumer/client.go:121-128 | Returns the position given by the counter modulo the current list size and advances only this service's counter |
| Consumer.Client.Pick | pkg/consumer/client.go:102-119 | Each strategy's choice; a refusal for an empty list or an unknown strategy; the library's panic for a weighted pick without positive total weight; only round robin changes state |
| Pickers.RoundRobinIsFair | pkg/consumer/client.go:121-128 | From any counter value n times k consecutive counter values fall on each of n positions exactly k times |
| Consumer.Client.PickRounds | pkg/consumer/client.go:121-128 | n times k consecutive picks over an unchanged cache of n instances return each instance exactly k times as often as it is cached, whatever the counter was |
| Pickers.PickWeightedRandom | pkg/consumer/client.go:130-144 | Returns the first instance whose running total exceeds the draw, and panics iff the total is not positive |
| Pickers.WeightedPickIsProportional | pkg/consumer/client.go:130-144 | Each position is the choice of exactly its weight many of the draws, and the fallback is never reached |
| Pickers.PickConsistentHash | pkg/consumer/client.go:146-160 | Returns the first instance with the smallest score |
| Names.EndpointsDiffer | internal/core/model/instance.go:178-180 | Two instances share an endpoint, and with it every score, only at one address and port |
| Pickers.RemovalKeepsChoice | pkg/consumer/client.go:146-160 | Removing an instance other than the chosen one keeps the choice |
| Pickers.AppendingKeepsOrSelectsNew | pkg/consumer/client.go:146-160 | Appending an instance selects it iff it scores lower, and otherwise keeps the choice |
| Pickers.ChoiceDependsOnTheSet | pkg/consumer/client.go:146-160 | With distinct scores the choice depends only on the set of instances |
| Pickers.OrderMattersOnEqualScores | pkg/consumer/client.go:154-157 | With equal scores it depends on their order |
| ConfigSdk.Client.Sync | pkg/configsdk/client.go:37-46 | Loaded values replace this service's cache and no other; a failure changes nothing |
| ConfigSdk.Client.ApplyEvent | pkg/configsdk/client.go:70-86 | A put sets its key; a delete or reset loads everything; no other service's cache changes |
| ConfigSdk.Client.EffectiveConfig | pkg/configsdk/client.go:89-98 | The copy made in any order equals the cached map |
| ConfigConvergence.SingleScopeKeysConverge | pkg/configsdk/client.go:37-86 | For every interleaving of store changes, three scope streams and loads: once loaded and with no event about the key queued, a key that only ever had values at one layer is cached exactly as it resolves |
| ConfigConvergence.RunsKeepInformed | pkg/configsdk/client.go:49-86 | All along, the last queued event about the key on each stream says what the store holds there, and the cached value comes from the last load or from the layer of the last put since |
| ConfigConvergence.PutEventIsRightExactly | pkg/configsdk/client.go:84-84 | The put of a current item makes the cache right about its key iff no stronger layer holds the key |
| ConfigConvergence.KeysConvergeExactly | pkg/configsdk/client.go:37-86 | For every interleaving and any layers holding the key: once loaded and drained the key is right iff no put about it was delivered since the last load, or no layer stronger than that of the last such put holds it |
| Counterexamples.GlobalPutHidesServiceValue | pkg/configsdk/client.go:84-84 | A concrete session over accepted puts, loaded and drained, in which a delivered global put replaces the cached service-level value that stays in force |
| ConfigConvergence.StreamsAreWatches | internal/core/service/config/service.go:172-220 | The three streams of the session are what store watches under the three scope prefixes deliver |
| Sse.ResponseWriter.WriteSSE | internal/api/httpx/response.go:60-78 | Appends exactly one frame |
| Sse.ResponseWriter.WriteAll | internal/api/http/discovery/handlers.go:86-90 | The handler's loop writes the frames of all events in order, each under its own type |
| Sse.FramesAreLaidOut | internal/api/httpx/response.go:60-78 | The bytes of one event, and the sizes of type and body up to which it can be read back |
| Sse.ReadStream | pkg/consumer/client.go:212-234 | The line loop computes the specified reading of any body |
| Sse.WrittenEventsReadBack | pkg/consumer/client.go:212-234 | Reading what was written yields exactly the events before the first one with a line that is too long |
| Sse.RoundTripExactly | internal/api/httpx/response.go:60-78 | The round trip is complete iff every line is shorter than the scanner limit |
| Counterexamples.OversizedEventEndsTheStream | pkg/consumer/client.go:216-233 | An oversized event hides itself and every event after it |

## Left out

- HTTP and gRPC handlers, console, middleware, bootstrap, configuration loading, metrics and logging: plumbing around the modelled services.
- The etcd adapter: its client library is not part of this model. It differs from the in-memory store in three ways: revoking a lease removes the attached records, a compare-and-swap with revision zero matches a missing key, and a watch honours its start revision.
- JSON: stored documents are datatypes. A document of the wrong kind fails to decode; a document of the right kind always decodes. Marshalling errors are not modelled.
- Validation of integer, boolean and JSON config values: the parsers' verdict is a field of the item.
- The regular expression library: `Names.Matches` covers the pieces the repository's patterns are made of. Metadata copies are value copies.
- Time is a parameter of each operation; lease durations and expiry are not modelled, so a lease lives until it is revoked.
- Goroutines, mutexes and contexts: each store method is one atomic step, interleavings are sequences of steps, and a stream is the sequence of items it delivers.
- A read that takes several store reads (listing, resolving, discovery) is one serial step. So are heartbeats and probe results, which overwrite without a revision check and can bring back a record deleted in between.
- Namespace listing, agent card listing, existence checks, the audit log and the network probes: easy members or input and output.
- The library's sort is an insertion sort; results with equal agent and address may come in either order.
- MemoryStoreObject.MemoryStore.Watch: the start revision is ignored, as in the source; closing the channel on cancellation is the end of the subscription.
- RegistryServiceObject.RegistryService.Register: the lease duration is left out because the store ignores it.
- RegistryServiceObject.RegistryService.ApplyProbeResult: when the delete itself fails the source also returns the record; only the error is modelled.
- Leases.RunsKeepLeases: excludes registrations of probed instances that supply a lease id, after which it fails; Leases.RegistrationKeepsOwnershipExactly and Leases.LeaseSurvivesExactly are the exact conditions.
- CardInterleaving.AgreementWithoutOverlap: excludes swaps that succeed while another put of the agent is re-indexing, after which it fails; CardOverlap.OverlapEntry and CardOverlap.OverlapAgreesExactly give the outcome of every interleaving of two such puts.
- CardOverlap.OverlapAgreesExactly: two overlapping puts; three or more at once are covered by CardInterleaving.NothingEverDangles only.
- ConsumerConvergence.CacheConverges: for the unfiltered stream of one named service, without resets and without a full buffer. Late subscriptions, full buffers, resets, healthy-only streams and whole namespaces each have their own exact condition, one at a time, not in combination.
- ConfigConvergence.SingleScopeKeysConverge: for keys with values at one layer, because the cache overwrites without comparing scopes; ConfigConvergence.KeysConvergeExactly covers all keys. Both have the streams opened no later than the first load, without resets and without full buffers.
- Consumer.Client.Pick: the random index and the weighted draw are parameters.
- Consumer.Client.PickRoundRobin: the counter does not overflow.
- Pickers.PickConsistentHash: the 64-bit hash is an arbitrary function.
- Sse.RoundTripExactly: the codec is a pair of inverse functions whose text has no line feed and does not end in a carriage return; characters stand for bytes. Writer errors are not modelled.
- The configuration client reads its stream with the same line loop as the consumer, so that loop is modelled once.
- The HTTP transport of the consumer sends only namespace and service, so its snapshots are always healthy-only; the model passes the snapshot's answer in.
