# Account lookup: a verified model

The account lookup bounded context answers which financial service provider owns a party, and keeps that
directory. This project models its stateful core in Dafny and proves what it keeps:

- `values.dfy`, `cache_key.dfy`: absent fields as JavaScript has them, first match in a list, and the cache key.
- `directory.dfy`, `builtin_provider.dfy`, `directory_answers.dfy`, `directory_properties.dfy`: the builtin oracle,
  a collection with wildcard queries behind a cache that expires, as transitions on a value and as the class that
  makes them; what each operation answers, and what runs keep.
- `freshness.dfy`, `interleaving.dfy`: the same oracle with every await of every call a step of its own.
- `search.dfy`: search terms, keywords, and paging through results.
- `remote_oracle.dfy`, `remote_properties.dfy`, `remote_interleaving.dfy`: the HTTP oracle's map and file.
- `registry.dfy`, `administration.dfy`, `builtin_listing.dfy`: stored oracles, their adapters, routing, and the
  shared listing.
- `events.dfy`, `event_answers.dfy`, `aggregate.dfy`: the event state machine, which event every message gets, and
  the aggregate class around it.
- `batch.dfy`, `redelivery.dfy`, `end_to_end.dfy`: batches, their redelivery, and queries after associations
  and removals.

Each operation is a function from the state before to the reply and the state after, with the store call that
fails, if any, as an input. The classes change their fields step by step as the source does and are proved
to compute these functions; the lemmas are about the functions and about runs of them. A field that a message
leaves out is `Undefined`, distinct from `Null`: some handlers turn one into the other and some do not.
Time is a clock that only waiting moves. Participants, remote oracles and random ids are inputs.

## Where the code promises less than its shape suggests

- A disassociation with a field left out deletes a matching document but not its cached answer; the answer is
  served until it expires (`PartialDisassociationLeavesStaleAnswer`, exactly when in `DisassociateKeepsCoherenceIff`,
  bounded by `ServedAnswersAreFresh`).
- The duplicate guard includes the owner, so a party may have several; then cache and collection may name
  different ones (`CacheIsTransparentIff`).
- The check and the insert of an association are separate awaits, so duplicates can be stored
  (`ConcurrentAssociationsDuplicate`, exactly when in `InsertKeepsNonSubsumingIff`); one association at a time
  avoids it (`OneWriterKeepsInvariant`).
- Messages that leave a field out may not survive redelivery (`RedeliveryIsCleanIff`), and a removal that leaves
  one out may leave another answer of the same owner (`RemovalSilencesIff`).
- An association that leaves a field out is cached under "undefined", where a party query does not look
  (`NormalisedLookupAgreesIff`).
- The page limit is 20 whatever the page size, so page sizes above 20 skip matches (`ServedIff`).
- The keyword search returns its three lists once per distinct combination of values (`GetSearchKeywords`).
- The HTTP oracle joins its keys by dashes, so different parties can share one (`RemoteRefinement.KeyIsUniqueIff`).
- The HTTP oracle's comments say that its key includes the sub type
  (`packages/http-oracle-svc/src/remote_oracle.ts:117` and `165`); the code at lines 146-151 leaves it out, and
  the model follows the code.
- A failed save is not undone in memory (`FailedSaveBlocksRetry`), and writes that overtake each other lose
  records (`OvertakenWriteLosesAssociation`, exactly when in `MoveKeepsTracksIff`).
- An oracle whose adapter fails to initialise stays stored; a remote one without an endpoint then keeps the
  service from starting (`RefusedOracleBlocksRestart`).

## Model

| member | source | states |
|---|---|---|
| CacheKeys.KeyInjective | packages/implementations-lib/src/oracles/adapters/builtin/mongo_oracleprovider.ts:139-141 | Two parties with the same joined cache key are equal when party type, sub type and currency hold no underscore and neither optional field is spelt "null" or "undefined"; the party id may hold underscores |
| CacheKeys.KeyIsUniqueIff | packages/implementations-lib/src/oracles/adapters/builtin/mongo_oracleprovider.ts:139-141 | A party's key is produced by no other arguments exactly when no component holds an underscore and both optional fields are texts that do not look absent |
| BuiltinProvider.MongoOracleProviderRepo.GetParticipantFspId | packages/implementations-lib/src/oracles/adapters/builtin/mongo_oracleprovider.ts:173-222 | The reply and the whole new state of a lookup, fault by fault: a live cache entry answers alone, a found document is cached, a miss is not |
| BuiltinProvider.MongoOracleProviderRepo.AssociateParticipant | packages/implementations-lib/src/oracles/adapters/builtin/mongo_oracleprovider.ts:224-259 | The reply and the whole new state of an association, fault by fault: refused if the query built from it selects a document, otherwise appended and cached |
| BuiltinProvider.MongoOracleProviderRepo.DisassociateParticipant | packages/implementations-lib/src/oracles/adapters/builtin/mongo_oracleprovider.ts:261-288 | The reply and the whole new state of a disassociation, fault by fault: the first selected document goes, then the cache entry of the party |
| BuiltinProvider.MongoOracleProviderRepo.SetToCache | packages/implementations-lib/src/oracles/adapters/builtin/mongo_oracleprovider.ts:163-166 | Writing the cache sets the entry under the record's key to expire one lifetime from now and touches nothing else |
| DirectoryAnswers.QueriesMatch | packages/implementations-lib/src/oracles/adapters/builtin/mongo_oracleprovider.ts:327-350 | A lookup selects the documents whose type, id and given optional fields agree with the party, a duplicate check and a delete those that also have the owner; the stored document holds exactly the owner and the given fields |
| DirectoryAnswers.AssociateSucceedsIff | packages/implementations-lib/src/oracles/adapters/builtin/mongo_oracleprovider.ts:224-259 | An association succeeds exactly if its owner has no matching document and no store call fails, and is refused as existing exactly if there is one and the read succeeds |
| DirectoryAnswers.AssociateLeaves | packages/implementations-lib/src/oracles/adapters/builtin/mongo_oracleprovider.ts:224-259 | It then adds the one document at the end and caches the answer for one lifetime; an earlier failure or a match changes nothing |
| DirectoryAnswers.DisassociateSucceedsIff | packages/implementations-lib/src/oracles/adapters/builtin/mongo_oracleprovider.ts:261-288 | Whatever is stored, even if nothing matches, a disassociation succeeds exactly if neither of its store calls fails |
| DirectoryAnswers.DisassociateLeaves | packages/implementations-lib/src/oracles/adapters/builtin/mongo_oracleprovider.ts:261-288 | It takes away the first document of the owner that matches, if there is one, and the cached answer for the party, and nothing else |
| DirectoryAnswers.LookupAnswersIff | packages/implementations-lib/src/oracles/adapters/builtin/mongo_oracleprovider.ts:173-222 | A lookup answers with an owner exactly if the live cached answer names it, or without one the first matching document; with null exactly if there is neither; in all other cases a store call failed |
| DirectoryAnswers.AnswerLivesForLifetime | packages/implementations-lib/src/oracles/adapters/builtin/mongo_oracleprovider.ts:163-166 | A cached answer is live for less than its lifetime, and waiting changes nothing else |
| DirectoryProperties.NonSubsumptionInvariant | packages/implementations-lib/src/oracles/adapters/builtin/mongo_oracleprovider.ts:231-247 | Over every serial run, faults and wildcard calls included, no stored document read as a query selects an earlier one |
| DirectoryProperties.ExactDelete | packages/implementations-lib/src/oracles/adapters/builtin/mongo_oracleprovider.ts:268-276 | In such a collection there are no duplicates and the delete built from a stored document removes that document at its place and nothing else, though others match |
| DirectoryProperties.DeletedForGood | packages/implementations-lib/src/oracles/adapters/builtin/mongo_oracleprovider.ts:268-276 | In such a collection one delete takes a tuple away altogether |
| DirectoryProperties.DisassociationIsFinal | packages/implementations-lib/src/oracles/adapters/builtin/mongo_oracleprovider.ts:224-288 | From an empty store and through any calls and faults, a disassociation whose delete succeeds leaves no copy of its document |
| DirectoryProperties.WildcardDeleteIff | packages/implementations-lib/src/oracles/adapters/builtin/mongo_oracleprovider.ts:268-276 | A delete hits a document other than the one named exactly if the named one is not stored and a more specific one is |
| DirectoryProperties.DisassociateUndoesAssociate | packages/implementations-lib/src/oracles/adapters/builtin/mongo_oracleprovider.ts:224-288 | Disassociating right after a successful association restores the collection and forgets at most the cached answer for that party, from any state |
| DirectoryProperties.StepKeepsCoherence | packages/implementations-lib/src/oracles/adapters/builtin/mongo_oracleprovider.ts:173-288 | Every single call keeps each cached answer under a full party backed by a stored document, provided each disassociation deletes nothing or is full and reaches the cache |
| DirectoryProperties.DisassociateKeepsCoherenceIff | packages/implementations-lib/src/oracles/adapters/builtin/mongo_oracleprovider.ts:261-288 | That proviso is exact: a disassociation keeps every coherent directory coherent if and only if its delete fails, or it leaves no field out and its cache delete succeeds |
| DirectoryProperties.CoherenceInvariant | packages/implementations-lib/src/oracles/adapters/builtin/mongo_oracleprovider.ts:173-288 | The same over every serial run, lookups and associations being as partial and as faulty as they like |
| DirectoryProperties.ExactLookupIsLive | packages/implementations-lib/src/oracles/adapters/builtin/mongo_oracleprovider.ts:173-222 | In every state reached from an empty cache, a full lookup answers with a current owner if there is one, and with null exactly if there is none |
| DirectoryProperties.DirectLookupIsOwner | packages/implementations-lib/src/oracles/adapters/builtin/mongo_oracleprovider.ts:199-211 | What the collection alone answers is an owner, and nothing exactly if there is no owner |
| DirectoryProperties.CacheIsTransparentIff | packages/implementations-lib/src/oracles/adapters/builtin/mongo_oracleprovider.ts:173-222 | Every coherent cache answers a full party as the collection would exactly when the party has at most one owner |
| DirectoryProperties.PartialDisassociationLeavesStaleAnswer | packages/implementations-lib/src/oracles/adapters/builtin/mongo_oracleprovider.ts:261-288 | A disassociation that leaves the currency out deletes the document and not its cached answer |
| Freshness.ServedAnswersAreFresh | packages/implementations-lib/src/oracles/adapters/builtin/mongo_oracleprovider.ts:163-259 | For every interleaving of the awaits of lookups, associations and disassociations, with failures anywhere, the answer a store reply settles comes from a matching document that was live less than lifetime plus the longest time in flight before; with calls that take no time the bound is the lifetime |
| Freshness.DeliveredAnswersAreFresh | packages/implementations-lib/src/oracles/adapters/builtin/mongo_oracleprovider.ts:173-222 | By the time the caller has the answer, that document was live less than lifetime plus twice the longest time in flight before |
| Freshness.DeliveredWasServed | packages/implementations-lib/src/oracles/adapters/builtin/mongo_oracleprovider.ts:173-222 | In every interleaving an answer handed to a caller was settled for that call by a store reply before |
| Freshness.StepKeepsInv | packages/implementations-lib/src/oracles/adapters/builtin/mongo_oracleprovider.ts:143-288 | Each step keeps every cached answer, and every answer on its way to the cache, that recent |
| Interleaving.BoundsAreTight | packages/implementations-lib/src/oracles/adapters/builtin/mongo_oracleprovider.ts:163-288 | For every lifetime, delay, party and owner some interleaving settles and delivers an answer one time unit short of either bound |
| Interleaving.SoloLookupIsGet | packages/implementations-lib/src/oracles/adapters/builtin/mongo_oracleprovider.ts:173-222 | Uninterrupted, the steps of a lookup give the reply and state of the whole operation, fault for fault |
| Interleaving.SoloAssociation | packages/implementations-lib/src/oracles/adapters/builtin/mongo_oracleprovider.ts:224-259 | Uninterrupted, the steps of an association give the state of the whole operation, fault for fault |
| Interleaving.SoloDisassociation | packages/implementations-lib/src/oracles/adapters/builtin/mongo_oracleprovider.ts:261-288 | Uninterrupted, the steps of a disassociation give the state of the whole operation, fault for fault |
| ConcurrentStore.InsertKeepsNonSubsumingIff | packages/implementations-lib/src/oracles/adapters/builtin/mongo_oracleprovider.ts:233-241 | An insert keeps the collection free of subsumed documents exactly if its check, made again at the moment of the insert, would still pass |
| ConcurrentStore.CompatibleInsertsKeepInvariant | packages/implementations-lib/src/oracles/adapters/builtin/mongo_oracleprovider.ts:224-288 | Over every interleaving, failures included, in which no two inserts of overlapping documents are pending at once, no stored document comes to subsume an earlier one and every passed check stands until its insert |
| ConcurrentStore.OneWriterKeepsInvariant | packages/implementations-lib/src/oracles/adapters/builtin/mongo_oracleprovider.ts:224-288 | In particular a caller who lets one association at a time check and insert keeps the serial invariant, whatever else interleaves |
| ConcurrentStore.ConcurrentAssociationsDuplicate | packages/implementations-lib/src/oracles/adapters/builtin/mongo_oracleprovider.ts:233-241 | Without that, two interleaved associations both pass the check and store the same document twice |
| BuiltinProvider.MongoOracleProviderRepo.Filter | packages/implementations-lib/src/oracles/adapters/builtin/mongo_oracleprovider.ts:372-390 | The conditions pushed for the search terms hold of a document exactly if it meets every term given; with none everything is selected |
| DirectoryAnswers.ExactSearchIsQuery | packages/implementations-lib/src/oracles/adapters/builtin/mongo_oracleprovider.ts:372-390 | Where texts match only themselves, a search by a party's fields, with or without an owner, shows exactly what a lookup or delete query for them selects |
| Searching.MatchingCounts | packages/implementations-lib/src/oracles/adapters/builtin/mongo_oracleprovider.ts:372-404 | The matches of a search are the documents that meet its terms, each as often as it is stored |
| Searching.MatchingKeepsOrder | packages/implementations-lib/src/oracles/adapters/builtin/mongo_oracleprovider.ts:393-404 | The matches come in stored order |
| BuiltinProvider.MongoOracleProviderRepo.SearchAssociations | packages/implementations-lib/src/oracles/adapters/builtin/mongo_oracleprovider.ts:352-423 | The search result for every combination of terms, page index, page size (zero and below included) and failing find: a page of the documents that meet the terms, and the page count as the division gives it |
| Pagination.SearchReturns | packages/implementations-lib/src/oracles/adapters/builtin/mongo_oracleprovider.ts:352-423 | For every page index, page size and failing find: which matches are the items, the effective page index and page size, and the page count as the ceiling of matches by page size, or the quotient by zero |
| BuiltinProvider.MongoOracleProviderRepo.GetSearchKeywords | packages/implementations-lib/src/oracles/adapters/builtin/mongo_oracleprovider.ts:425-471 | Each keyword list holds the distinct values of its field among the groups yielded before the aggregation fails, or among all documents, and the result repeats the three lists once per yielded group |
| Pagination.PageHolds | packages/implementations-lib/src/oracles/adapters/builtin/mongo_oracleprovider.ts:393-406 | Match i is among the items of page q exactly when q*p <= i < q*p + 20, at that offset |
| Pagination.NonEmptyIff | packages/implementations-lib/src/oracles/adapters/builtin/mongo_oracleprovider.ts:393-415 | A page is non-empty exactly when its index is below the page count |
| Pagination.ServedIff | packages/implementations-lib/src/oracles/adapters/builtin/mongo_oracleprovider.ts:362-415 | Match i is served on some counted page exactly when i mod p is below 20, so larger page sizes skip matches |
| Pagination.PagesPartition | packages/implementations-lib/src/oracles/adapters/builtin/mongo_oracleprovider.ts:393-415 | With page size 20 the counted pages in order are the list of matches |
| RemoteOracles.RemoteOracle.Init | packages/http-oracle-svc/src/remote_oracle.ts:75-86 | Start-up loads the file if there is one and fails exactly if it cannot be read, is not JSON or is the JSON text null; a missing file leaves the map as it is |
| RemoteOracles.RemoteOracle.LoadFromFile | packages/http-oracle-svc/src/remote_oracle.ts:92-130 | The loop over the records of the file builds exactly the map that loading specifies; an unreadable or malformed file leaves the map empty and throws; what a loaded record keeps is stated by FirstRecordWins and InitAnswers |
| RemoteOracles.RemoteOracle.SaveToFile | packages/http-oracle-svc/src/remote_oracle.ts:133-144 | A save writes the values of the map in order, or fails and leaves the file alone |
| RemoteOracles.RemoteOracle.GetParticipantFspId | packages/http-oracle-svc/src/remote_oracle.ts:153-162 | A lookup answers with the owner stored under the party's key, or nothing |
| RemoteOracles.RemoteOracle.AssociateParticipant | packages/http-oracle-svc/src/remote_oracle.ts:164-178 | The answer, map and file of an association: refused under a taken key, otherwise appended and saved; a failed save is not undone |
| RemoteOracles.RemoteOracle.DisassociateParticipant | packages/http-oracle-svc/src/remote_oracle.ts:180-194 | The answer, map and file of a disassociation: only the stored owner may remove its entry |
| RemoteRefinement.SameKeyIff | packages/http-oracle-svc/src/remote_oracle.ts:146-151 | Clean parties have the same key exactly if party id, party type and currency agree; sub type plays no part and party ids may hold dashes |
| RemoteRefinement.StepRefines | packages/http-oracle-svc/src/remote_oracle.ts:153-194 | Each call gives the same answer as on a map from party identity to owner, and keeps the two representing each other |
| RemoteRefinement.RunRefines | packages/http-oracle-svc/src/remote_oracle.ts:146-194 | Every sequence of calls on clean parties, whatever saves fail, gives the answers of that map |
| RemoteRefinement.FreshRunRefines | packages/http-oracle-svc/src/remote_oracle.ts:66-194 | In particular from the empty oracle |
| RemoteRefinement.KeyIsUniqueIff | packages/http-oracle-svc/src/remote_oracle.ts:146-151 | A party shares its key with no other identity exactly if neither its party id nor its party type holds a dash and its currency is a text without dashes other than NULL |
| RemoteRefinement.UncleanPartiesCollide | packages/http-oracle-svc/src/remote_oracle.ts:146-151 | For instance, a currency spelt NULL collides with an absent one, and dashes move text between fields |
| RemotePersistence.KeysInvariant | packages/http-oracle-svc/src/remote_oracle.ts:164-194 | In every reachable state keys are unique and every record's recomputed key is the one it is stored under |
| RemotePersistence.LoadRebuilds | packages/http-oracle-svc/src/remote_oracle.ts:107-144 | Loading what such a map saved rebuilds it, key for key and in order, undefined fields becoming null |
| RemotePersistence.LoadIsWellKeyed | packages/http-oracle-svc/src/remote_oracle.ts:107-126 | Loading any record list gives unique, recomputable keys and records that loading again would not change |
| RemotePersistence.LoadSaveLoad | packages/http-oracle-svc/src/remote_oracle.ts:92-144 | For any record list, load after save after load is load |
| RemotePersistence.FirstRecordWins | packages/http-oracle-svc/src/remote_oracle.ts:117-124 | Under each key the loaded map holds the first record of the file with that key, with its owner and every field the file gives, or nothing |
| RemotePersistence.AnswerTellsEffect | packages/http-oracle-svc/src/remote_oracle.ts:164-194 | A normal return of a change leaves the file equal to the map, a failed save leaves it behind, and refusals and lookups change nothing |
| RemotePersistence.Durability | packages/http-oracle-svc/src/remote_oracle.ts:133-194 | After every serial run the file holds the map of the latest successful save, and the current map if no later change failed to save |
| RemotePersistence.RestartRecoversLatestSave | packages/http-oracle-svc/src/remote_oracle.ts:75-194 | A restart then recovers, key for key and in order, what that save held, each record with its owner and fields, undefined ones as null |
| RemotePersistence.RestartAnswersAsSaved | packages/http-oracle-svc/src/remote_oracle.ts:75-162 | So the restarted oracle answers every lookup as it did after that save |
| RemotePersistence.InitAnswers | packages/http-oracle-svc/src/remote_oracle.ts:75-130 | Start-up succeeds exactly if there is no file or it is readable JSON other than null; every lookup is then answered with the owner in the first record of the file under the party's key, and without a file the oracle is as before |
| RemotePersistence.FailedSaveBlocksRetry | packages/http-oracle-svc/src/remote_oracle.ts:164-178 | After a failed save the association is served and its retry refused as a duplicate, while a restart forgets it |
| RemoteInterleaving.SoloCalls | packages/http-oracle-svc/src/remote_oracle.ts:164-194 | Uninterrupted, the step up to the file write and the write itself give the whole call |
| RemoteInterleaving.InsertsBalanceRemovals | packages/http-oracle-svc/src/remote_oracle.ts:164-189 | However calls interleave, under each key inserts and removals balance against what is stored before and after, and keys stay unique |
| RemoteInterleaving.AtMostOneInsert | packages/http-oracle-svc/src/remote_oracle.ts:164-189 | Between removals of a key any number of concurrent associations insert it at most once, and not at all if it is taken |
| RemoteInterleaving.MoveKeepsTracksIff | packages/http-oracle-svc/src/remote_oracle.ts:133-194 | A step keeps the newest text in flight, or else the file, the current map exactly if the newest write is not overtaken or lost, or the text left in its place is the same |
| RemoteInterleaving.NewestWriteLastIsDurable | packages/http-oracle-svc/src/remote_oracle.ts:133-194 | If the newest write always finishes last and succeeds, older ones failing and overtaking each other as they may, then once none is in flight the file is the current map |
| RemoteInterleaving.OrderedWritesAreDurable | packages/http-oracle-svc/src/remote_oracle.ts:133-144 | In particular if writes succeed in the order they started |
| RemoteInterleaving.OvertakenWriteLosesAssociation | packages/http-oracle-svc/src/remote_oracle.ts:133-144 | Out of order, both calls return normally and the file has lost an association the map holds |
| Registries.MongoOracleFinderRepo.AddOracle | packages/implementations-lib/src/oracles/mongo_oraclefinder.ts:90-119 | The finder appends an oracle unless its read fails, the same registration is present or the insert fails |
| Registries.MongoOracleFinderRepo.RemoveOracle | packages/implementations-lib/src/oracles/mongo_oraclefinder.ts:121-137 | The finder removes the first oracle with the id, and reports when there is none |
| Registries.MongoOracleFinderRepo.GetOracle | packages/implementations-lib/src/oracles/mongo_oraclefinder.ts:192-224 | Sorting the oracles of the type into two lists and taking the first of either selects the first stored oracle with that exact currency, else the first of the type |
| Administration.RouteIff | packages/implementations-lib/src/oracles/mongo_oraclefinder.ts:192-224 | A route goes to the first stored oracle with exactly the party type and currency, if there is none to the first of the type, and nowhere exactly if there is none of the type |
| Administration.FinderAddSucceedsIff | packages/implementations-lib/src/oracles/mongo_oraclefinder.ts:90-119 | The finder stores an oracle exactly if none with the same type, kind, id, name and endpoint is stored and its calls succeed |
| Administration.FinderRemoveSucceedsIff | packages/implementations-lib/src/oracles/mongo_oraclefinder.ts:121-137 | It removes the first oracle with the id, and succeeds exactly if there is one and the delete does not fail |
| Aggregates.AccountLookupAggregate.Init | packages/domain-lib/src/aggregate.ts:155-173 | Start-up pushes an adapter per stored oracle, in order; it adds none if the finder fails, and stops at the first that cannot be created or initialised |
| Administration.StartSucceedsIff | packages/domain-lib/src/aggregate.ts:155-173 | Start-up succeeds exactly if the finder answers and every stored oracle is supported, has its endpoint and can be reached; the adapters set up are those of the oracles before the first that cannot start |
| Aggregates.AccountLookupAggregate.AddOracle | packages/domain-lib/src/aggregate.ts:1133-1162 | The reply and the whole new registry of an addition, for a failure of each of its awaits, including the oracle that stays stored when its adapter fails to initialise; a field left out is stored as null |
| Administration.AddAnswersIff | packages/domain-lib/src/aggregate.ts:1133-1162 | For every request and every failing await, exactly when an addition succeeds, is a duplicate, is of an unsupported type or fails to initialise, and the id it returns |
| Administration.AddStoresRequest | packages/domain-lib/src/aggregate.ts:1133-1162 | What is stored has the id, name, type, party type and currency of the request, and its endpoint unless it is builtin, what is left out being null; its adapter is held exactly if it initialises |
| Administration.AddedOracleIsReachedIff | packages/domain-lib/src/aggregate.ts:1060-1162 | Right after it is added, an oracle receives the requests of its party type and currency exactly if no stored oracle had both before |
| Aggregates.AccountLookupAggregate.RemoveOracle | packages/domain-lib/src/aggregate.ts:1164-1179 | The reply and the whole new registry of a removal |
| Administration.RemoveAnswersIff | packages/domain-lib/src/aggregate.ts:1164-1179 | For every id and every failing await, which answer a removal gets |
| Administration.RemovedOracleIsGone | packages/domain-lib/src/aggregate.ts:1164-1179 | After a removal no stored oracle, adapter or route has the id, and all other oracles and adapters stay |
| Aggregates.AccountLookupAggregate.GetOracleAdapter | packages/domain-lib/src/aggregate.ts:1060-1095 | The adapter of the routed oracle, or the error of the step that fails |
| RegistryProperties.AgreementInvariant | packages/domain-lib/src/aggregate.ts:1133-1179 | Over every serial run of additions and removals, with any failures, stored ids and names and adapter ids stay unique, and the adapters are exactly those of the stored oracles that did not fail to initialise |
| RegistryProperties.ReachableRegistryAgrees | packages/domain-lib/src/aggregate.ts:1133-1179 | From the empty registry this always holds, and without such failures adapter ids and stored ids coincide |
| RegistryProperties.AddSucceedsIff | packages/domain-lib/src/aggregate.ts:1133-1162 | When nothing fails, an addition succeeds exactly if id and name are new, the type is supported and a remote oracle has an endpoint |
| RegistryProperties.RejectionsChangeNothing | packages/domain-lib/src/aggregate.ts:1133-1179 | Every rejected call changes nothing, except that a failed initialisation leaves the oracle stored |
| RegistryProperties.AdapterFoundIff | packages/domain-lib/src/aggregate.ts:1060-1095 | In an agreeing registry a request reaches an adapter exactly if it is routed to an oracle that is not lost, and then that oracle's |
| Administration.AdapterMissingIff | packages/domain-lib/src/aggregate.ts:1060-1095 | A request fails for want of an oracle exactly if the finder fails or none is routed, and for want of an adapter exactly if the routed oracle is lost |
| RegistryProperties.RestartSucceedsIff | packages/domain-lib/src/aggregate.ts:160-168 | A service starts exactly if every stored oracle's adapter can be created and initialised, and then holds one per oracle in order |
| RegistryProperties.RefusedOracleBlocksRestart | packages/implementations-lib/src/oracles/adapters/remote/http_oracleprovider.ts:71-82 | A remote oracle without an endpoint is refused with an error yet stored, and no restart succeeds while it is |
| RoutingProperties.AppendFrame | packages/implementations-lib/src/oracles/mongo_oraclefinder.ts:192-224 | Appending an oracle changes exactly the routes it takes over: its currency where nothing matched exactly, its party type where there was none |
| RoutingProperties.RemoveFrame | packages/implementations-lib/src/oracles/mongo_oraclefinder.ts:192-224 | Removing an oracle changes only the routes that selected it |
| RoutingProperties.AddThenRemoveRestores | packages/domain-lib/src/aggregate.ts:1133-1179 | Adding an oracle and removing it again restores the registry and with it every route |
| Aggregates.AccountLookupAggregate.GetBuiltInOracleAssociations | packages/domain-lib/src/aggregate.ts:1181-1202 | The overwriting loop gives the answer for the latest builtin oracle, or an error if the finder fails or as soon as one of them gets none |
| BuiltinListing.ListingSucceedsIff | packages/domain-lib/src/aggregate.ts:1186-1199 | The listing succeeds exactly if the route of every builtin oracle answers |
| BuiltinListing.RouteAnswers | packages/domain-lib/src/aggregate.ts:1190-1199 | A route to a builtin adapter answers every stored document unless the store fails, and a route to a remote one that oracle's own listing |
| BuiltinListing.ListingIsLastAnswer | packages/domain-lib/src/aggregate.ts:1181-1202 | A listing that succeeds is the answer for the last builtin oracle, and empty if there is none |
| BuiltinListing.ListingCollapses | packages/domain-lib/src/aggregate.ts:1181-1202 | If every builtin oracle's own route selects a present builtin adapter, the shared collection is listed once, document by document, however many builtin oracles there are |
| Events.CheckParticipant | packages/domain-lib/src/aggregate.ts:837-1055 | A participant passes exactly if found under the same id, approved and active, and each refusal names the first thing wrong |
| Aggregates.AccountLookupAggregate.GetParticipantIdFromOracle | packages/domain-lib/src/aggregate.ts:1097-1128 | The owner named by the routed oracle, or none if any step fails, and the directory after it |
| Aggregates.AccountLookupAggregate.HandlePartyQueryReceived | packages/domain-lib/src/aggregate.ts:257-337 | The event and directory after a party query, in the order of its checks |
| Aggregates.AccountLookupAggregate.HandleParticipantQueryReceived | packages/domain-lib/src/aggregate.ts:416-495 | The event and directory after a participant query |
| Aggregates.AccountLookupAggregate.HandleAssociationRequestReceived | packages/domain-lib/src/aggregate.ts:624-707 | The event and directory after an association request |
| Aggregates.AccountLookupAggregate.HandleDisassociateRequestReceived | packages/domain-lib/src/aggregate.ts:711-794 | The event and directory after a disassociation request |
| Aggregates.AccountLookupAggregate.HandleEvent | packages/domain-lib/src/aggregate.ts:185-253 | One event and one directory for every message and every outcome of every dependency, a throw included |
| EventProperties.SuccessIsGuarded | packages/domain-lib/src/aggregate.ts:185-794 | A success event is the one its message calls for, repeats the message, and everyone it vouches for was found under the same id, approved and active |
| EventProperties.FailureHasCause | packages/domain-lib/src/aggregate.ts:185-1055 | Every error event answering a valid message has the cause its kind names: the participant and the problem, the oracle without an answer, the missing adapter, the refused write |
| EventAnswers.QueryAnsweredIff | packages/domain-lib/src/aggregate.ts:257-495 | A query that asks an oracle is answered with an owner exactly if the routed oracle names it (the live cached answer or first matching document, or the remote reply), requester and owner are valid and nothing throws |
| EventAnswers.RemoteQueryAnsweredIff | packages/domain-lib/src/aggregate.ts:1097-1128 | Through a remote oracle the query is answered with exactly the non-empty owner it replies, and the builtin directory is untouched |
| EventAnswers.GivenDestinationIsKept | packages/domain-lib/src/aggregate.ts:257-337 | A party query that names its destination is sent there exactly if requester and destination are valid, without asking an oracle |
| EventAnswers.PassedOnIff | packages/domain-lib/src/aggregate.ts:344-622 | Messages that are only passed on succeed exactly if requester and destination are valid, and write nothing |
| EventAnswers.AssociationCreatedIff | packages/domain-lib/src/aggregate.ts:624-707 | An association is created exactly if the owner is valid, an adapter is reached and accepts it: a builtin one if nothing matches and no store fails, a remote one if it writes |
| EventAnswers.AssociationRemovedIff | packages/domain-lib/src/aggregate.ts:711-794 | An association is removed, from every directory alike, exactly if the owner is valid, an adapter is reached and its calls succeed |
| EventAnswers.RemoteMessagesLeaveDirectory | packages/domain-lib/src/aggregate.ts:185-253 | No message routed to a remote oracle touches the builtin directory |
| EventAnswers.InvalidMessageAnswered | packages/domain-lib/src/aggregate.ts:801-833 | A message without payload or of another message type gets the error for that, and nothing else happens |
| EventAnswers.ThrowAnswered | packages/domain-lib/src/aggregate.ts:185-253 | A throw inside a handler, and nothing else, is answered as an unknown error about the party |
| EventAnswers.ThrowKeepsWork | packages/domain-lib/src/aggregate.ts:185-253 | A throw at the start of a handler prevents its work; one at the end comes after the work, which stays done |
| EventAnswers.FailureNamesParty | packages/domain-lib/src/aggregate.ts:185-1055 | Every other error event is about the party as its handler read it |
| EventProperties.OnlyAssociationsWrite | packages/domain-lib/src/aggregate.ts:185-794 | Documents change only for an association or disassociation with a valid owner, and then by that owner's document alone |
| EventProperties.SuccessMeansWritten | packages/domain-lib/src/aggregate.ts:624-794 | By way of a builtin oracle, a created event means the document is stored and a removed event, in a reachable collection, that it is gone |
| EventHandlers.AccountLookupEventHandler.BatchMsgHandler | packages/account-lookup-svc/src/handler.ts:124-191 | What a batch sends, whether it throws and what it leaves in the directory, for every fault around every message and for a failing producer |
| Batches.PrefixLaw | packages/account-lookup-svc/src/handler.ts:131-183 | The outputs of the messages that go through are sent, one per input in order, each the event its handler returned with the protocol type and opaque state of its input, plus one when the failing message threw after its push |
| Batches.EffectLaw | packages/account-lookup-svc/src/handler.ts:131-175 | The directory is left as the messages handled so far made it, the failing one included unless it threw before it was handled |
| EndToEnd.BatchTakesItsDelays | packages/account-lookup-svc/src/handler.ts:131-175 | A batch moves the clock by the delays of the messages it gets to and by nothing else |
| Writes.LastMessageDecides | packages/account-lookup-svc/src/handler.ts:131-183 | After a batch of fully specified messages, the last handled one that writes a document decides whether it is stored; if none does it stays as it was |
| Writes.TurnActs | packages/domain-lib/src/aggregate.ts:624-794 | A message handled without failures does to the collection exactly its insert or delete, wildcards and refusals included, if its owner is valid and it is routed to a builtin oracle, and else nothing |
| Writes.FullWriteActs | packages/implementations-lib/src/oracles/adapters/builtin/mongo_oracleprovider.ts:224-288 | On a collection without duplicates a fully specified insert or delete adds or takes away its document and nothing else |
| Writes.BatchWrites | packages/account-lookup-svc/src/handler.ts:131-175 | A batch does to the set of documents what its handled messages write, in order, wherever each single message does |
| Writes.RedeliveryIsIdempotent | packages/account-lookup-svc/src/handler.ts:131-183 | Handling messages of a batch, a prefix or any selection in any order and ending in a throw anywhere, and then the whole batch leaves the set of documents that the batch leaves alone |
| Redelivery.RedeliveryIsCleanIff | packages/account-lookup-svc/src/handler.ts:131-183 | Delivering a batch of a message and fully specified ones twice leaves the documents of delivering it once, for all such batches and collections without duplicates, exactly if the message writes nothing, is fully specified, or is a partial association whose documents no full disassociation can reach through a builtin oracle |
| Redelivery.FullySpecifiedRedeliversIff | packages/account-lookup-svc/src/handler.ts:131-183 | So for a writing message, its documents within reach of a full disassociation if it is an association, exactly if it is fully specified |
| Redelivery.WildcardRedeliveryDeletesMore | packages/domain-lib/src/aggregate.ts:711-794 | For every partial disassociation that writes: some directory from which a second delivery deletes another document |
| Redelivery.PartialAssociationComesBack | packages/domain-lib/src/aggregate.ts:624-794 | For every such partial association: a directory and a disassociation after it, so that the association is refused at the first delivery and stored at the second |
| EndToEnd.BatchKeepsMemory | packages/implementations-lib/src/oracles/adapters/builtin/mongo_oracleprovider.ts:173-288 | Until its deadline a cached association survives every batch that does not write associations of the same party, faults and throws included |
| EndToEnd.ParticipantQueryFindsOwner | packages/domain-lib/src/aggregate.ts:416-495 | After an association through a builtin oracle and such a batch shorter than the cache's lifetime, a participant query for the party is answered with that owner |
| EndToEnd.PartyQueryFindsOwner | packages/domain-lib/src/aggregate.ts:257-337 | So is a party query without destination, the owner becoming the destination, if the association left no field out |
| EndToEnd.NormalisedLookupAgreesIff | packages/domain-lib/src/aggregate.ts:272-275 | Right after every successful association of a party the lookup of a party query names the new owner exactly if the association left no field out |
| EndToEnd.BatchKeepsForgotten | packages/account-lookup-svc/src/handler.ts:131-175 | Once neither collection nor cache names an owner for a full party, no batch that does not associate them again changes that, whatever fails in it |
| EndToEnd.QueryForgetsOwner | packages/domain-lib/src/aggregate.ts:257-495 | After a full association is removed through a builtin oracle, and any batch that does not restore it, however long, neither kind of query for that party is answered with that owner |
| EndToEnd.RemovalSilencesIff | packages/implementations-lib/src/oracles/adapters/builtin/mongo_oracleprovider.ts:173-288 | Right after a successful removal the lookup does not name the owner, in any collection free of subsumed documents, exactly if the removal left no field out |

## Left out

- SearchAssociations: takes text matching as a parameter and keeps stored order, because regular expressions and the sort on a field that no document has are the database's; fractional page sizes and indices are not modelled.
- GetSearchKeywords: takes the distinct combinations as the database yields them, in any order.
- GetBuiltInOracleAssociations: a finder that fails only between its reads is not an outcome.
- BatchMsgHandler: takes time to pass only before a message, and a store call to fail at most once per message.
- Searches and keywords across several oracles: the loop keeps the last oracle's answer and the remote adapter does not implement them.
- Error codes and which of the party's fields each error payload copies: an error event keeps its kind and the party as its handler read it.
- Missing party ids and party types: they are declared as strings, and only the optional fields may be absent.
- The HTTP oracle adapter's URLs and its client, the participants client, and the account lookup client: their answers are inputs; only the missing endpoint is kept.
- A file write that fails half way: a failed write leaves the file as it was.
- JSON text: records are taken to survive it but for undefined fields, and cached records are taken to parse.
- Express routes, authentication, privileges, service start and stop, health checks, logging, metrics and tracing, except that metrics and tracing may throw.
- Concurrent administration of oracles, and messages handled while oracles are added or removed.
