# Audit hashing, lease watching and client protocols of Vault, modelled in Dafny

The project models five parts of the repository and proves what they are for.

1. **Audit entries.** `hashWalker` rewrites a nested tree of maps and slices in place, driven by callbacks and
   keeping four stacks. `HashWalker` keeps the stacks and the mutable containers and proves that the walk leaves exactly
   the tree of a recursive function, which is in turn characterised place by place. `CloneData`, `HashData`,
   `EntryData`, `AuditRecords`, `EntryContents` and `EntryFormatter` build up to `createEntry`: what the entry says of the
   event field by field, what it leaves of the caller's data, and when it fails. `FormatterNodes` takes any number of formatter nodes over one event.
2. **The lease lifetime watcher** (`LifetimeWatcher`): one loop over a script of answers, stops, backoffs and late timers;
   safety of every sleep, a bound on the number of rounds, each kind of round case by case, exactly which errors are
   returned, and the exact behaviour without renewals.
3. **The read-your-writes store** (`StateText`, `StateStore`): parsing of replication states with its inverse, merging under
   a two-dimensional partial order, and invariants over every sequence of responses.
4. **Small protocols**: the double-checked salt cell (`SaltCell`), optimistic patches and rollbacks of versioned secrets
   (`KvVersions`), the lossy log monitor (`LogMonitor`), and audit device registration with its success threshold
   (`AuditBroker`).
5. **Cache and traversal**: the audited-headers cache against its storage (`AuditHeaders`) and the depth-first walk over a
   secrets tree (`SecretsWalk`).

Conventions. A data map or slice is a `Container` object; a ghost `Shape` gives the identities and contents of a whole
tree, `Holds` says that the heap holds it, `Unshared` that no container occurs twice in it, and `Abs` forgets the
identities. Hashing, marshaling, time formatting, base64, hexadecimal and path joining are function parameters. What
storage, the network, the clock, the random source, other threads and the event broker do is a parameter too: a script,
an interleaving, or the set of calls that fail. The reflectwalk driver is modelled by the order in which it makes its calls.

Findings. Four promises hold only under a condition, which is proved to be exact: an event with supplemental audit
data is not left alone by a formatter node, because that data is shared or copied only at its top level
(audit/entry_formatter.go:564, 621); the stored replication states stop covering earlier ones when a response replaces the
store, which also happens within one cluster after three incomparable states; the header cache drifts from storage when a
write fails or a default header is removed; and a patch or rollback written after the metadata of the secret was deleted
is checked against a version number that has started anew, so it can overwrite a version its client never read. A
filtering audit device that is registered first may go unlogged without an error: an event can, in any reachable state
with devices, exactly when the success threshold is 0. The doc comment of `WithCheckAndSet` is taken as the server's
contract.

## Model

| member | source | states |
|---|---|---|
| HashWalker.HashStructure | audit/hashstructure.go:189-192 | the walk succeeds exactly when the input is not a bare time and, with a callback, no string lies outside every map (always for a map); then the heap holds, in the same containers, the recursively hashed tree |
| HashWalker.HashTreeAt | audit/hashstructure.go:332-378 | hashing keeps every path and length, and at each place does what the nearest map key on the way, looking through slices, asks for |
| HashWalker.HashedLeaf | audit/hashstructure.go:284-378 | every leaf of a map, by the last key on its path: a string is the callback's result unless that key's text (or the fixed name of a time used as a key) is exempt, a time is its formatted text, anything else is unchanged |
| HashWalker.HashedContainer | audit/hashstructure.go:239-282 | every map keeps its kind and keys and every slice its kind and length |
| HashWalker.HashTreeFixed | audit/hashstructure.go:332-378 | a tree is its own hash exactly when it has no time and each string is exempt or its own hash |
| HashWalker.HashShapeAbs | audit/hashstructure.go:189-192 | hashing container by container is hashing of the tree |
| HashWalker.StacksAligned | audit/hashstructure.go:239-282 | at every position one slot per container and one key per enclosing map are on the stacks, locations and slots agree pairwise, and the top key is the nearest map key |
| HashWalker.Walker.Enter | audit/hashstructure.go:239-242 | the location is pushed and nothing else changes |
| HashWalker.Walker.Exit | audit/hashstructure.go:244-260 | exactly the stacks that belong to the location left are popped; every pop is in range |
| HashWalker.Walker.MapStart | audit/hashstructure.go:262-265 | the map becomes the top container |
| HashWalker.Walker.MapElem | audit/hashstructure.go:267-272 | slot and key name of the entry are pushed |
| HashWalker.Walker.SliceStart | audit/hashstructure.go:274-277 | the slice becomes the top container |
| HashWalker.Walker.SliceElemStart | audit/hashstructure.go:279-282 | the index is pushed as a slot |
| HashWalker.Walker.SetTop | audit/hashstructure.go:299-320 | the slot named by the tops of the stacks is the one being visited, and only it changes |
| HashWalker.Walker.StructTime | audit/hashstructure.go:284-324 | a time as direct input is refused; elsewhere its slot gets the formatted text, and a time used as a key changes nothing |
| HashWalker.Walker.Primitive | audit/hashstructure.go:332-378 | a string value is replaced by its hash unless its nearest key is exempt; keys and other scalars stay; without any key the access that names it is out of range |
| HashWalker.Walker.WalkValue | audit/hashstructure.go:239-378 | a value at any position: stacks restored, its slot and its containers hold the hashed value, nothing else changes |
| HashWalker.Walker.WalkMapElems | audit/hashstructure.go:262-272 | after the entries in any order the map holds its hash and the stacks are as before |
| HashWalker.Walker.WalkSliceElems | audit/hashstructure.go:274-282 | after the elements the slice holds its hash; the walk stops exactly at an element that cannot be completed |
| HashWalker.Walker.Walk | audit/hashstructure.go:189-192 | all four stacks are empty again after a completed walk |
| CloneData.Clone | audit/entry_formatter.go:250-255 | a deep copy: equal tree, every container new |
| CloneData.CloneMap | audit/entry_formatter.go:250-255 | the same for a map |
| HashData.MarshalAll | audit/hashstructure.go:96-107 | succeeds exactly when each value that must be marshaled can be, and then has replaced exactly those |
| HashData.HashMap | audit/hashstructure.go:96-110 | fails exactly when a value cannot be marshaled; otherwise the data is the hash of its marshaled form |
| HashData.HashedDataFixed | audit/hashstructure.go:96-110 | a data map is unchanged exactly when nothing in it is to be marshaled or hashed |
| HashData.HashedDataLeaf | audit/hashstructure.go:96-110 | every leaf of a data map: a value of the map itself that marshals is replaced by its bytes, a string by its keyed hash unless its nearest key is exempt, a time by text |
| HashData.ElideMeans | audit/entry_formatter.go:482-506 | entry by entry: a list of strings under keys and a map under key_info become their sizes, everything else stays |
| HashData.RawBodyHashed | audit/hashstructure.go:135-144 | a raw body of bytes is hashed as text unless exempt; other responses are hashed like any data |
| HashData.ElideBeforeHashing | audit/entry_formatter.go:475-514 | eliding a list response and then hashing gives what hashing and then replacing keys and key_info by their sizes gives |
| EntryData.CloneOrElide | audit/entry_formatter.go:482-506 | the size for a list of keys or a map of key infos, a fresh copy for everything else |
| EntryData.CloneResponseData | audit/entry_formatter.go:475-514 | fresh response data equal to the caller's, elided if required |
| EntryData.ShallowCopy | audit/entry_formatter.go:620-622 | a new map over the very same nested containers |
| EntryData.TextualRawBody | audit/hashstructure.go:135-138 | raw bytes of an HTTP body become text in place; nothing else changes |
| AuditRecords.NewAuth | audit/entry_formatter.go:309-392 | a new record and a new metadata map, with actor fields added to a copy of the caller's metadata |
| AuditRecords.MergeEnterpriseTokenMetadata | audit/entry_formatter.go:259-299 | the enterprise fields present are merged into the entry's metadata; fails exactly when a list cannot be marshaled |
| AuditRecords.HashAuth | audit/hashstructure.go:31-51 | token, and accessor if asked for, are hashed unless empty; needs a salt unless there is no auth |
| AuditRecords.CloneHeaders | audit/entry_formatter.go:410-413 | new arrays with the same values under the same names |
| AuditRecords.RequestHeaders | audit/entry_formatter.go:653-661 | the header configuration applied to a copy speaks of the caller's headers and fails only without a salt |
| AuditRecords.HashRequest | audit/hashstructure.go:60-94 | both data maps hashed in place; succeeds exactly with a salt and data that can be marshaled |
| AuditRecords.HashResponseData | audit/hashstructure.go:135-144 | the raw body is made text before the data is hashed |
| AuditRecords.HashResponse | audit/hashstructure.go:118-183 | auth, data, supplemental data and wrapping info hashed; succeeds exactly with a salt and data that can be marshaled |
| EntryContents.MergedMeans | audit/entry_formatter.go:259-299 | an auth can be merged exactly when each list of the enterprise token that is there can be marshaled |
| EntryContents.MetadataMeans | audit/entry_formatter.go:259-392 | the entry's metadata key by key: the actor and enterprise keys with a value hold it, every other key is the caller's |
| EntryContents.AuthMeans | audit/hashstructure.go:31-51 | an entry's auth against the caller's: token and, if asked for, accessor are the keyed hashes, empty ones stay empty, the rest is the caller's |
| EntryContents.RawAuthMeans | audit/entry_formatter.go:589-596 | the same without hashing |
| EntryFormatter.SupplementalCopy | audit/entry_formatter.go:618-622 | response events carry a copy of the supplemental request data whose nested containers are the caller's |
| EntryFormatter.EntryAuth | audit/entry_formatter.go:589-596 | the entry's auth is new, merged, and carries the inbound consistency token if there is one |
| EntryFormatter.BuildResponse | audit/entry_formatter.go:460-566 | fresh response records and data; the supplemental data is the caller's own map |
| EntryFormatter.BuildEntry | audit/entry_formatter.go:570-669 | everything before hashing, without changing anything of the caller's; with a salt it fails exactly when metadata cannot be merged |
| EntryFormatter.HashEntry | audit/entry_formatter.go:671-688 | both sides of the entry become their hashes and the formatted headers stay |
| EntryFormatter.FormEntry | audit/entry_formatter.go:570-691 | the entry is the hashed (or raw) view of the event, shares with the caller exactly the nested supplemental containers, and writes to no others |
| EntryFormatter.RequestMeans | audit/entry_formatter.go:589-651 | that view means, field by field: client token, accessor, path, consistency token, auth, metadata and both data maps of the request |
| EntryFormatter.ResponseMeans | audit/entry_formatter.go:460-566 | and of the response: auth, wrapping info with its token unwrapped before hashing, elided and hashed data |
| EntryFormatter.CreatableMeans | audit/entry_formatter.go:570-691 | it can be built exactly when there is a request, the auths can be merged and the data can be marshaled |
| EntryFormatter.CreateEntry | audit/entry_formatter.go:570-691 | with a salt it succeeds exactly when the event has a request, its auths can be merged and its data marshaled; each field of the entry is the event's, hashed with the salt exactly where the configuration asks for it; only containers shared through supplemental data may change, none for a request event or a raw entry |
| EntryFormatter.NestedHolds | audit/entry_formatter.go:621-621 | hashing the shallow copy hashes the nested containers of the caller's supplemental request data |
| EntryFormatter.CallerAfter | audit/entry_formatter.go:564-564 | what the caller's event holds after an entry has been hashed: its own data as before, the shared data hashed |
| FormatterNodes.Format | audit/entry_formatter.go:83-183 | the entry returned holds the hashed values the event held and the headers the node is configured to show; with a salt it fails exactly when these cannot be built or marshaled; the caller's own data and headers survive a failure too, and everything does when nothing is shared |
| FormatterNodes.FormatEach | audit/broker.go:253-318 | any number of nodes, in any order and whichever fail: each succeeds exactly when it can, formats the same raw values with its own configuration, and the event is at the end what it was; for every request event, for raw nodes, and for responses without shared containers |
| FormatterNodes.FormatAll | audit/entry_formatter.go:570-691 | nodes in a row over shared data: each formats what the ones before left, all see the same raw values when the shared data is undisturbed, and it stops only at a node that cannot format |
| FormatterNodes.EventUnchanged | audit/entry_formatter.go:564-564 | a node leaves the event as it was exactly when it has nothing to hash in the shared data |
| FormatterNodes.SameRawValues | audit/entry_formatter.go:570-691 | without shared containers, or with settled ones, every node finds the event as the first did |
| FormatterNodes.HashShapeFixed | audit/hashstructure.go:189-192 | the same fixed-point condition for containers as for trees |
| FormatterNodes.SecondNodeHashesHash | audit/entry_formatter.go:564-564 | a string in supplemental response data: the second node formats the first one's hash hashed again, unless the hash is the string |
| AuditHeaders.ReloadDetermined | audit/headers.go:184-221 | a reload has one possible outcome exactly when stored names that agree ignoring case agree on their setting |
| AuditHeaders.ReloadedLower | audit/headers.go:200-218 | after a reload every name is in lower case |
| AuditHeaders.ToLowerMeans | audit/headers.go:111-135 | each capital letter becomes its small letter, every other character and the length stay |
| AuditHeaders.EditsMean | audit/headers.go:111-164 | name by name: the lower-cased header alone is set or removed, and storage is the cache when the write succeeds and as before when it fails |
| AuditHeaders.ReloadMeans | audit/headers.go:184-221 | every stored name is in the cache in lower case, with its setting unless an equal name differs, the three defaults are there, and nothing else is |
| AuditHeaders.AppliedShows | audit/headers.go:225-265 | a header of the request is shown exactly when it is configured, ignoring case |
| AuditHeaders.AppliedMeans | audit/headers.go:225-265 | each value shown is the keyed hash of the request's, or the value itself, as configured for that header |
| AuditHeaders.StepSynced | audit/headers.go:111-221 | from a cache that a reload gives back, an operation leads to such a cache exactly under its guard: the write succeeds or changes nothing, and no default is removed |
| AuditHeaders.RunSynced | audit/headers.go:111-221 | over every sequence of operations that keep their guards the cache is in lower case and a fixed point of reloading |
| AuditHeaders.FailedPutDiverges | audit/headers.go:111-135 | a header added while the write fails is in the cache and is lost by the next reload |
| AuditHeaders.HeadersConfig.AddHeader | audit/headers.go:111-135 | the lower-cased header is set in the cache and, if the write succeeds, in storage |
| AuditHeaders.HeadersConfig.RemoveHeader | audit/headers.go:139-164 | the lower-cased header is removed from the cache and, if the write succeeds, from storage |
| AuditHeaders.HeadersConfig.InvalidateHeaders | audit/headers.go:184-221 | the cache becomes a possible reload of storage: all stored names, lower-cased, and missing defaults |
| AuditHeaders.HeadersConfig.ApplyConfig | audit/headers.go:225-265 | exactly the configured headers present ignoring case, values in order and hashed exactly when configured, in new arrays; fails only when a value must be hashed without a salt |
| LifetimeWatcher.GraceFor | api/lifetime_watcher.go:409-426 | the grace period of a positive duration d lies in [d/10, d/5), of any other it is 0 |
| LifetimeWatcher.GraceReaches | api/lifetime_watcher.go:409-426 | every grace period in that range is reached by some random number |
| LifetimeWatcher.GraceArgument | api/lifetime_watcher.go:397-399 | whenever grace is computed anew the duration is non-positive or at least a second, so the modulus is never zero |
| LifetimeWatcher.GraceOfSeconds | api/lifetime_watcher.go:273-274 | with lease and increment in whole seconds the smaller is non-positive or at least a second, and its grace lies within a tenth and a fifth of it |
| LifetimeWatcher.SleepsIffBeyondFourGraces | api/lifetime_watcher.go:376-378 | the two comparisons with grace amount to remaining > 4 * grace |
| LifetimeWatcher.RestKeeps | api/lifetime_watcher.go:356-388 | the second half of a round sleeps only if it wakes more than a grace period before expiry |
| LifetimeWatcher.RoundKeeps | api/lifetime_watcher.go:277-388 | every round keeps priorDuration within the lease and grace at 0.1 s for a positive lease; only one round, on denied permission, goes on without a sleep |
| LifetimeWatcher.RoundSleepsIff | api/lifetime_watcher.go:356-378 | without backoff a round sleeps exactly when the remaining lease exceeds four grace periods, and otherwise returns cleanly |
| LifetimeWatcher.ExpiryTracked | api/lifetime_watcher.go:344-353 | the expiry a sleep respects is that of the latest lease granted, counted from the arrival of its answer |
| LifetimeWatcher.FlagsTracked | api/lifetime_watcher.go:296-330 | a watcher that goes on is non-renewable once permission was denied, and backs off exactly when the latest attempt to renew brought no lease |
| LifetimeWatcher.RemainingShrinks | api/lifetime_watcher.go:286-294 | without renewals the next remaining duration is at most a third of what exceeds grace, rounded up |
| LifetimeWatcher.RunSafe | api/lifetime_watcher.go:277-388 | in every run, whatever is granted, fails, is denied or comes late, each sleep is scheduled to end more than grace, itself at least 0.1 s, before the latest known expiry, and sleeps do not overlap |
| LifetimeWatcher.RunEnds | api/lifetime_watcher.go:277-388 | if no lease reaches past a limit and no backoff is shorter than q <= 0.3 s, a loop still going after n rounds has n * q <= time to the limit, plus one q while renewal is not denied |
| LifetimeWatcher.OneSleep | api/lifetime_watcher.go:286-294 | a positive lease that is not renewed is slept on exactly once, for 70 to 73.4 per cent of it, and then the watcher returns |
| LifetimeWatcher.GrantRound | api/lifetime_watcher.go:332-388 | a lease granted counts from the arrival of the answer; grace is computed anew exactly if the lease extends; it is slept on for two thirds of it and a third of grace if it exceeds four graces, else the watcher returns cleanly |
| LifetimeWatcher.RefusedRound | api/lifetime_watcher.go:304-378 | an attempt without a lease, errors ignored: the watcher backs off against the expiry of the lease it has, returns the error when the backoff gives up, and returns cleanly within grace |
| LifetimeWatcher.UnattemptedRound | api/lifetime_watcher.go:286-388 | without an attempt the remaining duration is slept on, or a backoff under way goes on |
| LifetimeWatcher.DeniedRound | api/lifetime_watcher.go:299-303 | denied permission starts the round over at once, without renewals from then on |
| LifetimeWatcher.RoundError | api/lifetime_watcher.go:304-342 | a round returns an error exactly when it attempts a renewal whose answer is fatal in the given behaviour; a stop is always clean |
| LifetimeWatcher.ErrorsExact | api/lifetime_watcher.go:277-388 | in every run and for all three behaviours: an error is returned exactly when a round is reached that attempts a renewal with that fatal answer |
| LifetimeWatcher.Watcher.CalculateGrace | api/lifetime_watcher.go:409-426 | computes that grace period into the field |
| LifetimeWatcher.Watcher.CalculateSleepDuration | api/lifetime_watcher.go:393-404 | recomputes grace exactly when the lease is extending, and returns two thirds of the remaining plus a third of grace, truncated |
| LifetimeWatcher.Watcher.RenewOrReturn | api/lifetime_watcher.go:285-354 | the renewal half of a round, for all three behaviours and both modes |
| LifetimeWatcher.Watcher.SleepOrReturn | api/lifetime_watcher.go:356-388 | the sleeping half of a round |
| LifetimeWatcher.Watcher.RenewLoop | api/lifetime_watcher.go:277-389 | the loop makes the sleeps and has the ending and final grace of the specified run |
| LifetimeWatcher.Watcher.DoRenewWithOptions | api/lifetime_watcher.go:264-389 | no credential, or a non-renewable one where errors are errors, ends at once; otherwise the specified run from the initial grace |
| StateText.ParseInverse | api/client.go:1820-1863 | every state with a cluster name and 64-bit indices reads back from its text, with or without a key |
| StateText.ParseForm | api/client.go:1820-1863 | whatever is read has that text, up to leading zeros of the indices, and its keyed hash matches if a key is given |
| StateText.ValueMeans | api/client.go:1849-1856 | the indices are read in positional decimal notation |
| StateText.RemoveDuplicatesMeans | api/client.go:1811-1811 | the result is strictly ascending and holds exactly the non-blank trimmed items |
| StateStore.ParseIgnoresSpace | api/client.go:1820-1825 | white space around a state does not change what it parses to, given that base64 ignores it |
| StateStore.Compare | api/client.go:1762-1786 | defined exactly within one cluster: 1 when at least as new in both indices, -1 when strictly older, 0 when incomparable |
| StateStore.MergeReplicationStates | api/client.go:1791-1812 | the loop computes the specified merge |
| StateStore.MergeShape | api/client.go:1791-1812 | merging keeps the shape: at most three states, two are incomparable, three share a cluster and hold an incomparable pair |
| StateStore.MergeExact | api/client.go:1791-1812 | exactly which states a merge leaves: each stored one unless the new one is newer, and the new one unless every stored one is at least as new |
| StateStore.MergeCovers | api/client.go:1791-1812 | a merge that does not replace the store covers the new state and all that was covered |
| StateStore.CoverageKeptIff | api/client.go:1791-1812 | recording loses no coverage exactly when the store is not replaced or the new state covers every stored one |
| StateStore.CoverageLost | api/client.go:1796-1801 | any state of another cluster drops what was covered |
| StateStore.ThreeReached | api/client.go:1791-1812 | any three mutually incomparable states fill the store with three, and the next state, whatever it is, replaces them all |
| StateStore.LostWithinCluster | api/client.go:1792-1794 | (1,3), (2,2) and (3,1) of one cluster are all covered and then all dropped by (2,1) of the same cluster |
| StateStore.StepInv | api/client.go:1908-1914 | one response keeps shape, coverage and origin of the stored states |
| StateStore.RecordMeans | api/client.go:1908-1914 | one response against any store: it alone is left exactly when the store was empty, held three, or held a state of another cluster or one that does not parse; otherwise nothing covered is lost, and it is covered itself |
| StateStore.RunRecords | api/client.go:1908-1914 | the same at the end of every sequence of responses |
| StateStore.RunInv | api/client.go:1908-1914 | after every sequence of responses the store has that shape and covers every state recorded since it was last replaced outright |
| StateStore.ThreeCollapse | api/client.go:1792-1794 | the record after three stored states leaves one |
| StateStore.RunChain | api/client.go:1908-1914 | while the states since the last replacement form a chain the store is its single maximum, one of them |
| StateStore.ReplicationStateStore.RecordState | api/client.go:1908-1914 | the object steps as specified, keeps the invariant and covers the state recorded, replacing the store only where it must; an absent header changes nothing |
| StateStore.ReplicationStateStore.RequireState | api/client.go:1918-1924 | every stored state is required, after what the request required already |
| SaltCell.Linearizable | audit/backend.go:170-245 | for any number of threads and any interleaving: one legal sequential history of hits, creations, failures and clearings explains the cell; each finished Salt call is a hit, creation or failure of its thread between its beginning and end, its salt in the cell at that instant; each finished Invalidate call is a clearing, the cell empty at that instant; and every operation belongs to a call |
| SaltCell.CreatedAtMostOncePerClearing | audit/backend.go:170-192 | successful creations never exceed invalidations plus one |
| SaltCell.SameBetweenClearings | audit/backend.go:170-192 | between two invalidations every call returns the same salt and only the first can have created it |
| SaltCell.OneCreator | audit/backend.go:176-191 | at most one thread at a time loads a new salt |
| SaltCell.CallsBegin | audit/backend.go:170-245 | an idle thread begins the operation it asks for |
| SaltCell.CreatedAsHanded | audit/backend.go:184-191 | in every run, each thread's creations and failures are, in order, exactly the salts and failures it was handed while creating |
| SaltCell.SaltHits | audit/backend.go:171-174 | on a full cell Salt returns what is in it without the lock |
| SaltCell.SaltRechecks | audit/backend.go:176-181 | a salt stored while a thread waited for the lock is what its call returns |
| SaltCell.SaltCreates | audit/backend.go:170-192 | on an empty cell with the lock free Salt stores and returns what it was handed, or returns the failure with the cell empty, and releases the lock |
| SaltCell.InvalidateClears | audit/backend.go:240-245 | Invalidate with the lock free empties the cell and releases the lock |
| SaltCell.StepKeeps | audit/backend.go:170-245 | every atomic step keeps lock, cell, history, order of calls and ownership of operations in agreement |
| SaltCell.RunKeeps | audit/backend.go:170-245 | so does every interleaving |
| KvVersions.Combine | api/kv_v2.go:734-738 | the loop gives the read data overlaid with the new data |
| KvVersions.RollbackAccepts | api/kv_v2.go:630-656 | a version is accepted for rollback exactly when it exists and is neither deleted nor destroyed |
| KvVersions.ReadMeans | api/kv_v2.go:115-165 | a version is found exactly when it exists, 0 being the latest, with its content exactly when it is neither deleted nor destroyed |
| KvVersions.ServeMeans | api/kv_v2.go:363-452 | version by version: a write adds one, marking changes only the versions named and never their content, destruction is not undone, and nothing is left when the metadata is deleted |
| KvVersions.StepKeeps | api/kv_v2.go:717-746 | every request of any client, also one that deletes the metadata, keeps what all versions ever written and all clients promise |
| KvVersions.UpdatesExact | api/kv_v2.go:717-746 | in every run and for every version ever written: a patch is the version before it overlaid with its new data exactly when no metadata was deleted between its read and its write, or the version it read and the one it follows agree on all other keys; a rollback equals its target exactly when none was deleted between fetch and write, or the target is the same in both epochs |
| KvVersions.EpochIsDeletions | api/kv_v2.go:401-410 | epochs count the deletions of the metadata |
| KvVersions.UpdatesKept | api/kv_v2.go:454-489 | so where the metadata is never deleted no interleaving and no lost reply loses an update |
| KvVersions.SuccessReported | api/kv_v2.go:454-489 | in every run a successful call reports the version it created itself |
| KvVersions.PatchAlone | api/kv_v2.go:717-746 | a patch on its own succeeds exactly when the latest version can be read, writes it overlaid with its data and reports the next number; else it changes nothing |
| KvVersions.RollbackAlone | api/kv_v2.go:454-489 | a rollback on its own succeeds exactly when its target can be read, writes it again and reports the next number; else it changes nothing |
| KvVersions.WriteDecides | api/kv_v2.go:724-746 | a write is admitted exactly at the version it names and is then reported as a success, whatever others do before the reply; a refused one changes nothing |
| KvVersions.PatchesAccumulate | api/kv_v2.go:717-746 | concurrent patches in a row that read in one epoch leave the effect of each, in version order, whatever happened in other epochs |
| KvVersions.StalePatch | api/kv_v2.go:93-100 | a patch admitted over a version its client never read, which keeps that version's data only if it agrees with what was read outside the new data |
| KvVersions.StaleRollback | api/kv_v2.go:454-489 | a rollback that writes what its target was before the metadata was deleted |
| LogMonitor.Monitor | api/sys_monitor.go:35-71 | the messages expand, position by position, to the lines scanned with a gap for each one reported dropped; their number plus the pending count is the number scanned; it scans on until cancelled or out of lines; nothing is dropped while the consumer keeps up |
| LogMonitor.Forward | api/sys_monitor.go:53-69 | one line keeps that account; exactly what is sent and counted follows from the room before each send: a pending report first, then the line, each exactly when there is room |
| LogMonitor.ReceivedMatches | api/sys_monitor.go:35-71 | the same holds of what the consumer has received so far |
| LogMonitor.Channel.TrySend | api/sys_monitor.go:54-68 | a send succeeds exactly when there is room, and keeps the order |
| AuditBroker.Broker.Register | audit/broker.go:200-224 | succeeds exactly for a new name when no call fails; then the device, its pipeline and the threshold are there, and a failure adds no device |
| AuditBroker.Broker.Deregister | audit/broker.go:226-251 | the device under the trimmed name, and no other, is gone even if the call fails; on success its pipeline is too and the threshold is owed by those left |
| AuditBroker.Broker.RegisterNodesAndPipeline | audit/broker.go:178-198 | fails exactly when a node or the pipeline cannot be registered; the pipeline is added only on success |
| AuditBroker.Broker.RequiredSuccessThresholdSinks | audit/broker_ce.go:39-45 | one exactly when a device is present |
| AuditBroker.Broker.Log | audit/broker.go:255-385 | returns no error exactly when there is no device, or nothing failed and a sink completed or there was nothing to warn of |
| AuditBroker.RegisterEnforcedIff | audit/broker.go:136-141 | a successful registration leaves present devices owed a success exactly when the device does not filter or is not the first |
| AuditBroker.DevicesExact | audit/broker.go:200-251 | in every run, whatever fails: a device is there under a name exactly when a registration of it went through that no deregistration of that name, even a failed one, came after, and it is the first such one's device |
| AuditBroker.LogExact | audit/broker.go:255-385 | in every reachable state with devices a call to log returns no error exactly when preparing and sending returned none and a sink completed or nothing warned; without devices it never does |
| AuditBroker.DeregisterEnforced | audit/broker.go:156-174 | deregistration always does, whatever fails |
| AuditBroker.RunEnforced | audit/broker.go:130-174 | in every run of unfiltered devices, with any call failing midway, present devices imply threshold 1 |
| AuditBroker.RunPiped | audit/broker.go:130-174 | in every run each device has a pipeline, and threshold 0 leaves at most one device, a filtering one |
| AuditBroker.LoggedSomewhere | audit/broker.go:255-385 | so with unfiltered devices present, logging without error has completed at least one sink |
| AuditBroker.UnloggedOnlyIfOneFilter | audit/broker.go:255-385 | with filtering devices only a single such device can go without |
| AuditBroker.UnloggedIffThresholdZero | audit/broker.go:255-385 | in every reachable state with devices an event can go unlogged without an error exactly when the threshold is 0 |
| AuditBroker.FirstFilterMayGoUnlogged | audit/broker.go:136-141 | and it can: registered first, its threshold is 0 |
| AuditBroker.UntrimmedStays | audit/broker.go:230-240 | a device whose name has white space around it is never deregistered |
| SecretsWalk.SortedMeans | command/kv_helpers.go:244-244 | the keys are the same strings in ascending order |
| Strings.LessMeans | command/kv_helpers.go:244-244 | a string comes before another exactly when it is a proper beginning of it or has the smaller character where they first differ |
| Strings.TrimMeans | audit/broker.go:230-230 | trimming removes white space around a string and nothing else |
| SecretsWalk.IsDirMeans | command/kv_helpers.go:250-250 | a directory is exactly a key that ends with a slash |
| SecretsWalk.CollectKeys | command/kv_helpers.go:233-241 | all keys in list order, or an error exactly when one is not a string |
| SecretsWalk.WalkSecretsTree | command/kv_helpers.go:213-269 | for every tree and every visitor, the calls and the error of the plan cut off at its first failure |
| SecretsWalk.OrderMeans | command/kv_helpers.go:244-266 | the order names every node exactly once, parents before contents and siblings by key |
| SecretsWalk.PlanVisits | command/kv_helpers.go:246-266 | the plan visits the nodes in that order, with the joined path and whether it is a directory |
| SecretsWalk.CutPrefix | command/kv_helpers.go:250-265 | the calls made are a prefix of the plan's, and all of them when no error is returned |
| SecretsWalk.CutError | command/kv_helpers.go:250-265 | a failing visit is the last call and its error is returned; any other error is that of the list reached next; the calls before returned none |
| SecretsWalk.WalkMeans | command/kv_helpers.go:213-269 | together: call i visits the i-th node in preorder |
| SecretsWalk.WalkFinishes | command/kv_helpers.go:213-269 | with visits that do not fail, the walk returns no error exactly when every list below can be gone through, and then it has visited every node |
| SecretsWalk.StopMeans | command/kv_helpers.go:214-241 | a list that stops the walk is the first one or that of the directory visited just before, and the error is that list's |

## Left out

- The approval workflow in the repository's README is described there but its code is not part of this model.
- HTTP, TLS, retries and the rest of the API client; the command line; enterprise-only branches: plumbing or easy members.
- Structs other than time.Time, structs held by reference, containers of a concrete element type such as []time.Time, containers shared inside one tree, and values that marshal themselves below the top level of a data map are not among the modelled trees.
- The lastValue field of hashWalker and its StructField callback, which nothing modelled reads.
- Auth, request and response fields that are only copied (policies, granting policies, mount and namespace fields, warnings, response headers, time stamps), the recovery from panics and the JSON and JSONx encoding in Process; nil backends and options.
- One salt is used for the whole of one entry, though Salt is asked anew for each part.
- Int64 overflow and float64 rounding in the watcher, the renewal channel, and the exponential backoff itself: any positive backoff or giving up is allowed.
- EntryFormatter.CreateEntry: an event whose two supplemental maps share a container with each other is left out, since hashing would go over that container twice; what is said of the event afterwards also needs its request and response data to share no container with them.
- FormatterNodes.FormatAll: where a node fails halfway through hashing shared data, what it leaves of that data is not described, so the nodes after it are covered by FormatterNodes.FormatEach only, which needs nothing to be shared.
- AuditHeaders.HeadersConfig.AddHeader: lower-casing is modelled for ASCII letters only, because header names are ASCII.
- LifetimeWatcher.OneSleep: the bounds are on the scheduled sleep; with late timers the elapsed time is longer by the lateness.
- StateStore.RunInv: for any reader of states that ignores white space around them; StateStore.ParseIgnoresSpace gives this for ParseReplicationState from the same property of base64, which refuses spaces and ignores line breaks.
- KvVersions.UpdatesExact: the server is modelled by the documented check-and-set contract; max_versions pruning, delete_version_after and the HTTP PATCH method are not modelled.
- AuditBroker.LoggedSomewhere: assumes, as the event broker promises, that Send errs when fewer sinks than the threshold complete.
- LogMonitor.Monitor: a message is a line or a report; the text of a report is not modelled, so a line that looks like one is still told apart.
- SecretsWalk.WalkMeans: keys within one list are distinct; with repeated keys the order is still sorted but a node is visited once for each repetition.
