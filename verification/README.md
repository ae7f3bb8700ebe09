# A verified model of the CRM's algorithmic core

This project models the parts of the CRM back end that compute something a reader cannot check at a glance, and proves
what they are for. Every module follows one component of the program:

- `DisjointSets`, `DuplicateGroups`, `LegacyCleanup` - the script that merges duplicate clients: its union-find on a
  mutable map, the bucketing that feeds it, the choice of a primary and the loop that moves records and archives losers.
- `KmzReader` - the ZIP reader that pulls the first `.kml` out of an upload, against a writer of the format.
- `Territory` - which city belongs to which seller, under the six operations that change the table.
- `OpportunityImport`, `ReportCsv` - the opportunity import with its client index, resolver and accounting, and the
  printed report with a reader of it.
- `OpportunityItems` - order-item money in cents and the opportunity value that follows it.
- `ClientRegistry`, `ClientRoutes` - every route that writes clients, as a state machine over documents, codes and the
  audit trail; `ClientCodes` - when codes stay distinct; `ClientRecords` - the records that move or go with a client.
- `AuditedCleanup` - what the clean-up script does to that audit trail.
- `Agenda` - the day's items, its conflicts and the suggested order.
- `Calendar`, `Dashboard`, `Portfolio` - month ranges, daily series, ABC curve and wallet.
- `Scheduler` - the clock of the automatic ERP synchronisation.
- `ErpCodes` - the code normaliser and the option printer it undoes.

`CleanupAnswers`, `TerritoryAnswers`, `ImportAnswers`, `ItemAnswers` and `ClientAnswers` state what each of those operations
answers and writes in terms of the request and the columns of the tables.

`Text`, `StableSort`, `Chains` and `Grouping` hold the string functions, the stable sort, reachability and the
insertion-ordered maps the others share.

Where the program mutates something, the model is a class or a method with loops, proved equal to a function of the old
state; what the program promises is then proved about that function, for all inputs or all runs. What the world does
(database answers and failures, keys handed out, access rules, text normalisers, scores, distances, the clock) is a
parameter.

Some promises of the program do not hold. The code is modelled as it is, and a lemma says exactly when it keeps the
promise:

- territory codes are compared untrimmed (`Territory.LinkingKeepsCodes`, `Territory.SpacedCodeLinkedTwice`);
- an import that rolls back a client it created keeps it in its index, and rows of that client fail from then on
  (`OpportunityImport.IndexOutlivesRollback`, `OpportunityImport.ForgottenClientBlocksRows`,
  `OpportunityImport.OneThrowEndsTheClient`); its deduplication does not see the file itself
  (`OpportunityImport.SameRowCreatedTwice`, `OpportunityImport.EachTimeAnotherClient`);
- active clients can come to share a code (`ClientCodes.StepKeepsCodes`, `ClientCodes.RunsKeepCodes`,
  `ClientCodes.TwoClientsOneCode`), and a client import overwrites the region and the last purchase it says it only
  fills (`ClientCodes.FirstUpdateOverwrites`);
- the clean-up script changes codes without an audit row (`AuditedCleanup.CleanupKeepsTrail`,
  `AuditedCleanup.CodedLoserBreaksTrail`);
- a lost recalculation leaves an opportunity value behind its items (`OpportunityItems.LostRecalculation`);
- overlaps across 21:00 in Brasilia go unreported and others are invented (`Agenda.LocalDayIsJudged`,
  `Agenda.EveningOverlapMissed`, `Agenda.MidnightFalseAlarm`), ties behind an item of no length are missed
  (`Agenda.DayIsJudged`), and items are moved although their reason denies it (`Agenda.ReasonsHoldExactly`,
  `Agenda.ConcludedVisitIsMoved`);
- daily buckets lose sales on clocks more than three hours behind UTC (`Dashboard.BucketsConserveBehind`);
- a failed insert silences the scheduler for good (`Scheduler.StuckForever`, `Scheduler.StuckExactly`).

## Model

| member | source | states |
|---|---|---|
| `DisjointSets.DisjointSet.Add` | apps/api/src/scripts/erpFixLegacyDuplicates.ts:60-62 | adding an id twice changes nothing; a new id starts a class of its own at the end of the iteration order |
| `DisjointSets.DisjointSet.Find` | apps/api/src/scripts/erpFixLegacyDuplicates.ts:64-70 | returns the representative of the class; path compression moves pointers but leaves every class, and who represents it, as it was |
| `DisjointSets.DisjointSet.Union` | apps/api/src/scripts/erpFixLegacyDuplicates.ts:72-78 | adds both ids and joins exactly their two classes, under the representative of the first |
| `DisjointSets.DisjointSet.Groups` | apps/api/src/scripts/erpFixLegacyDuplicates.ts:80-87 | lists the classes, in order of their first member, without changing any of them |
| `DisjointSets.RunClassesAreUnionChains` | apps/api/src/scripts/erpFixLegacyDuplicates.ts:57-88 | over any sequence of add, union and find, two ids share a representative exactly when a chain of unions of that sequence joins them |
| `DisjointSets.Perform` | apps/api/src/scripts/erpFixLegacyDuplicates.ts:57-88 | any sequence of add, union and find on a new set leaves exactly the classes and the key order the run describes |
| `DisjointSets.Acyclic` | apps/api/src/scripts/erpFixLegacyDuplicates.ts:64-78 | under the class invariant a climb along parent pointers that returns to its start never left it |
| `DisjointSets.ClimbReachesRoot` | apps/api/src/scripts/erpFixLegacyDuplicates.ts:64-70 | from every id the climb ends, at the representative, which points to itself |
| `DisjointSets.ClassShape` | apps/api/src/scripts/erpFixLegacyDuplicates.ts:80-87 | every listed class is non-empty, lists each of its ids once and holds all ids of its representative |
| `DisjointSets.ClassesDisjoint` | apps/api/src/scripts/erpFixLegacyDuplicates.ts:80-87 | no id is listed in two classes |
| `DisjointSets.ClassesCover` | apps/api/src/scripts/erpFixLegacyDuplicates.ts:80-87 | every added id is listed in some class |
| `DuplicateGroups.IndexClients` | apps/api/src/scripts/erpFixLegacyDuplicates.ts:161-174 | the first loop adds every client to the union-find as a class of its own and fills the three bucket tables |
| `DuplicateGroups.LinkBuckets` | apps/api/src/scripts/erpFixLegacyDuplicates.ts:176-181 | uniting the first member of each bucket with the rest is enough: every bucket ends inside one class, and no class joins clients that no chain of buckets joins |
| `DuplicateGroups.ClassesAreDuplicateChains` | apps/api/src/scripts/erpFixLegacyDuplicates.ts:161-187 | after the linking loop two clients are in one class exactly when a chain of shared buckets (strong code, valid document, or name/city/state with a legacy-prefixed client) joins them |
| `DuplicateGroups.BuildDuplicateGroups` | apps/api/src/scripts/erpFixLegacyDuplicates.ts:161-187 | returns exactly the chain classes that have two members or a legacy-prefixed one: each complete, no client in two, none of them missing |
| `LegacyCleanup.PrimaryIsFirstBest` | apps/api/src/scripts/erpFixLegacyDuplicates.ts:90-103 | the primary is the first of the best-ranked clients of its group; a visible client beats every archived or legacy-named one |
| `LegacyCleanup.NobodyBeatsPrimary` | apps/api/src/scripts/erpFixLegacyDuplicates.ts:90-103 | field by field, nobody in the group beats the primary: shown first, then a name without the prefix, more activities, more opportunities, the later ERP update (else creation); among equals the first listed |
| `CleanupAnswers.StrongCodeReads` | apps/api/src/scripts/erpFixLegacyDuplicates.ts:46-48 | the strong code of a client is its code trimmed and without the zeros in front of a digit, unless it is marked as merged |
| `CleanupAnswers.DocumentCounts` | apps/api/src/scripts/erpFixLegacyDuplicates.ts:49-52 | a document counts exactly when its digits are eleven or fourteen and not all the same |
| `CleanupAnswers.TogetherExactly` | apps/api/src/scripts/erpFixLegacyDuplicates.ts:161-187 | two clients share a linked bucket exactly when their codes read the same, their valid documents have the same digits, or they have one name, city and state and some client of that identity carries the legacy prefix |
| `CleanupAnswers.LastRow` | apps/api/src/scripts/erpFixLegacyDuplicates.ts:202-286 | every column of every loaded client at the end: merged clients archived with marked code and document, nobody else's identifiers changed, legacy names archived, the primary of a merged class unarchived |
| `CleanupAnswers.MergedIsNotRegrouped` | apps/api/src/scripts/erpFixLegacyDuplicates.ts:265-276 | loaded again, a merged client has no strong code, and the digits of its document are followed by those of the primary's id |
| `CleanupAnswers.ConflictsExactly` | apps/api/src/scripts/erpFixLegacyDuplicates.ts:214-234 | a group is a conflict exactly when two of its clients have different strong codes or different valid documents |
| `CleanupAnswers.GroupCounts` | apps/api/src/scripts/erpFixLegacyDuplicates.ts:208-284 | what one group adds to each counter of the summary, dry runs and conflicts included |
| `CleanupAnswers.EventsTell` | apps/api/src/scripts/erpFixLegacyDuplicates.ts:246-284 | which groups leave events: one for a lone legacy client, those of the losers for a merged group, none otherwise |
| `CleanupAnswers.LoserEventsTell` | apps/api/src/scripts/erpFixLegacyDuplicates.ts:259-284 | two events per merged client on the primary's timeline, with its name and its code or id |
| `LegacyCleanup.CrmStore.MoveRelationships` | apps/api/src/scripts/erpFixLegacyDuplicates.ts:105-115 | re-points the records of all six kinds from one client to another and returns how many there were |
| `LegacyCleanup.CrmStore.CreateCleanupAuditEvent` | apps/api/src/scripts/erpFixLegacyDuplicates.ts:117-128 | adds one timeline event on the client and changes no other record |
| `LegacyCleanup.CrmStore.FixFlags` | apps/api/src/scripts/erpFixLegacyDuplicates.ts:211-228 | archives exactly the legacy-named clients of the group that need it and counts them |
| `LegacyCleanup.CrmStore.MergeDuplicate` | apps/api/src/scripts/erpFixLegacyDuplicates.ts:259-284 | moves the loser's records, leaves the two events on the primary and archives the loser under its neutralised code and document |
| `LegacyCleanup.CrmStore.MergeDuplicates` | apps/api/src/scripts/erpFixLegacyDuplicates.ts:259-284 | all losers of a group are archived once, their records end at the primary, two events are left per loser, and the counters rise by what was moved and archived |
| `LegacyCleanup.CrmStore.ArchiveSingle` | apps/api/src/scripts/erpFixLegacyDuplicates.ts:246-258 | a lone legacy-named client is archived with the clean-up reason and one event |
| `LegacyCleanup.CrmStore.CleanGroup` | apps/api/src/scripts/erpFixLegacyDuplicates.ts:208-286 | one turn of the loop: dry runs write nothing, conflicting groups only get their flags fixed, other groups end merged; clients outside the group are untouched |
| `LegacyCleanup.CrmStore.CleanupLegacyDuplicates` | apps/api/src/scripts/erpFixLegacyDuplicates.ts:202-286 | the whole script: every loaded client ends in the row its duplicate chain calls for, every earlier record survives at the home of its client, exactly the listed events are added, and the summary is the sum over the groups |
| `LegacyCleanup.MovedCount` | apps/api/src/scripts/erpFixLegacyDuplicates.ts:202-286 | `relationshipsMoved` is the number of earlier records whose client changed |
| `LegacyCleanup.LoadedHome` | apps/api/src/scripts/erpFixLegacyDuplicates.ts:231-284 | records of a loaded client end at the primary of its class, or stay where they were when the class carries two codes or two documents |
| `LegacyCleanup.OtherHome` | apps/api/src/scripts/erpFixLegacyDuplicates.ts:202-286 | records of clients that were not loaded stay where they are |
| `LegacyCleanup.LegacyEndsArchived` | apps/api/src/scripts/erpFixLegacyDuplicates.ts:211-229 | every loaded client whose name carries the legacy prefix ends archived with the clean-up reason, conflicting groups included |
| `LegacyCleanup.OnlyPrimaryStaysVisible` | apps/api/src/scripts/erpFixLegacyDuplicates.ts:242-284 | in a merged class of two or more only the primary may stay unarchived, and it is archived only for its own name |
| `KmzReader.FindZipEndOfCentralDirectory` | apps/api/src/routes/crudRoutes.ts:9878-9884 | finds the last end-of-directory signature within the format's reach, or reports that there is none |
| `KmzReader.ExtractFromCentralDirectory` | apps/api/src/routes/crudRoutes.ts:9886-9911 | the directory walk from the last end record returns what its functional form says, never reading outside the buffer |
| `KmzReader.ExtractFirstKmlFromKmz` | apps/api/src/routes/crudRoutes.ts:9913-9928 | ends on every buffer with the directory's answer or, failing a non-empty one, the answer of a linear scan that strictly advances |
| `KmzReader.ReadZipLocalFile` | apps/api/src/routes/crudRoutes.ts:9862-9876 | a local file that is read ends inside the buffer, at least thirty bytes after its header started |
| `KmzReader.ReadsFirstKml` | apps/api/src/routes/crudRoutes.ts:9886-9928 | for every archive laid out as PKWARE APPNOTE sections 4.3.7, 4.3.12 and 4.3.16 describe, with a comment that hides no end record, the reader returns the content of the first `.kml` member in directory order |
| `KmzReader.DirectoryAnswers` | apps/api/src/routes/crudRoutes.ts:9856-9928 | on every laid-out archive: the first `.kml` entry is delivered when it is declared at most 8 MiB and stored or deflated, a broken deflated one throws, and without a non-empty answer the linear scan decides; a larger one is refused |
| `KmzReader.KmlNames` | apps/api/src/routes/crudRoutes.ts:9903-9903 | a name is a `.kml` name exactly when it ends in a dot and those three letters in either case |
| `KmzReader.WriterLaysOut` | apps/api/src/routes/crudRoutes.ts:9862-9911 | what the specification writer writes has that layout |
| `KmzReader.RoundTrip` | apps/api/src/routes/crudRoutes.ts:9856-9928 | writing stored members and reading the archive gives back the first `.kml` payload of at most 8 MiB, byte for byte |
| `KmzReader.ScanRecovers` | apps/api/src/routes/crudRoutes.ts:9917-9928 | when the directory is missing the linear scan still finds the first `.kml` member, whatever bytes follow the local parts |
| `KmzReader.RecoversWithoutDirectory` | apps/api/src/routes/crudRoutes.ts:9913-9928 | an upload that lost its end record is still read through the scan |
| `KmzReader.LastEndUnique` | apps/api/src/routes/crudRoutes.ts:9878-9884 | there is only one such signature, so the scan's answer is determined |
| `Territory.NormalizedKeysTellApart` | apps/api/src/routes/crudRoutes.ts:10036-10036 | two normalised keys are equal exactly when state and normalised city are |
| `Territory.ValidateOfficialCities` | apps/api/src/routes/crudRoutes.ts:10097-10130 | the loop accepts each official city once per stable key and reports the rest, in input order |
| `TerritoryAnswers.FindsWhatIsNamed` | apps/api/src/routes/crudRoutes.ts:9784-9796 | the official city of a request is the first place with its trimmed code or, when none has it, the first with its normalised name; none exactly when no place has either |
| `TerritoryAnswers.StableKeysTellApart` | apps/api/src/routes/crudRoutes.ts:10036-10041 | two cities have one stable key exactly when state and trimmed code agree or, without codes, state and normalised name |
| `TerritoryAnswers.ValidatesInOrder` | apps/api/src/routes/crudRoutes.ts:10097-10130 | one request after another: an unknown city and one already named are errors, any other is accepted with the request's code where the list has none |
| `TerritoryAnswers.AcceptsWhatIsNamed` | apps/api/src/routes/crudRoutes.ts:10097-10130 | every accepted city is one some request names, and every request that names a city has it accepted, for itself or an earlier one |
| `TerritoryAnswers.PassesExactly` | apps/api/src/routes/crudRoutes.ts:10097-10130 | a list has no errors exactly when every request names a city and no two name one city |
| `Territory.LinkedExactly` | apps/api/src/routes/crudRoutes.ts:10146-10158 | the search for another seller succeeds exactly when one holds the same city key in the state, or stores the trimmed code character by character |
| `Territory.TerritoryTable.PostCity` | apps/api/src/routes/crudRoutes.ts:10306-10325 | adds one city or refuses; the table and the reply are those of the functional step |
| `Territory.TerritoryTable.PostCitiesBulk` | apps/api/src/routes/crudRoutes.ts:10327-10377 | creates the cities that are free, with a message for every line it passes over |
| `Territory.TerritoryTable.PostKmlConfirm` | apps/api/src/routes/crudRoutes.ts:10248-10282 | creates all missing cities, or none at the first one another seller holds |
| `Territory.TerritoryTable.PutSellerCities` | apps/api/src/routes/crudRoutes.ts:10379-10405 | replaces the seller's whole territory, or changes nothing |
| `Territory.TerritoryTable.PutCity` | apps/api/src/routes/crudRoutes.ts:10407-10431 | edits one row or refuses, the unique index included |
| `Territory.TerritoryTable.DeleteCity` | apps/api/src/routes/crudRoutes.ts:10433-10441 | removes the row with that id and no other |
| `Territory.CitiesStayExclusive` | apps/api/src/routes/crudRoutes.ts:10097-10441 | over every sequence of the six operations no normalised city of a state is ever linked to two sellers |
| `Territory.CodesStayExclusive` | apps/api/src/routes/crudRoutes.ts:10097-10441 | while the official lists carry trimmed codes, no IBGE code of a state is ever linked to two sellers either, and all stored codes stay trimmed |
| `Territory.LinkingKeepsCodes` | apps/api/src/routes/crudRoutes.ts:10146-10158 | a city that passed the check keeps codes exclusive exactly when no other seller's row spells its code with white space around it |
| `Territory.SpacedCodeLinkedTwice` | apps/api/src/routes/crudRoutes.ts:10146-10158 | concrete tables in which a spaced code ends up with two sellers |
| `Territory.StepKeepsIndexes` | apps/api/src/routes/crudRoutes.ts:10306-10441 | every operation keeps the primary key and the unique index on seller, state and city; a single add never runs into the index |
| `Territory.OthersUntouched` | apps/api/src/routes/crudRoutes.ts:10248-10441 | no operation adds, changes or removes a row of a seller other than its own |
| `Territory.ReplaceIsExact` | apps/api/src/routes/crudRoutes.ts:10379-10405 | after a successful replacement the seller holds exactly the validated cities |
| `Territory.ConfirmLeavesNoneOut` | apps/api/src/routes/crudRoutes.ts:10248-10282 | after a successful confirmation every requested city is covered by a row the seller had or by a city created |
| `TerritoryAnswers.AddAnswers` | apps/api/src/routes/crudRoutes.ts:10306-10325 | a single add refuses by access, with 400 for an unknown city and 409 when a row of any seller stands for it, and otherwise appends exactly the named city |
| `TerritoryAnswers.PlansInOrder` | apps/api/src/routes/crudRoutes.ts:10256-10268 | bulk add and confirmation city by city: passed over when the seller has it, reported or ending the plan when another seller holds it, created otherwise |
| `TerritoryAnswers.InsertsInOrder` | apps/api/src/routes/crudRoutes.ts:10269-10274 | insertion city by city: passed over when the seller has its very name in the state, appended under the next key otherwise |
| `TerritoryAnswers.BulkAnswers` | apps/api/src/routes/crudRoutes.ts:10327-10377 | status, created cities and messages of a bulk add |
| `TerritoryAnswers.ConfirmAnswers` | apps/api/src/routes/crudRoutes.ts:10248-10282 | status and created cities of a confirmed upload, or its refusal |
| `TerritoryAnswers.ReplaceAnswers` | apps/api/src/routes/crudRoutes.ts:10379-10405 | a replacement is refused by access, for errors or when another seller holds one of its cities, and otherwise starts from the other sellers' rows alone |
| `TerritoryAnswers.EditAnswers` | apps/api/src/routes/crudRoutes.ts:10407-10431 | an edit answers 404, the access refusal, 400, 409 when another seller or another first-matching own row holds the city, 500 from the index, and otherwise changes that row and no other |
| `TerritoryAnswers.DeleteAnswers` | apps/api/src/routes/crudRoutes.ts:10433-10441 | a deletion removes the rows of that id and keeps all others, or refuses |
| `OpportunityImport.ResolvesSoleMember` | apps/api/src/routes/crudRoutes.ts:1601-1641 | the resolver answers `resolved` exactly with the sole member of the first tier that has any (id; document; name and city, name and state, name), and `not_found` exactly when no tier has one |
| `OpportunityImport.UuidNeverAmbiguous` | apps/api/src/routes/crudRoutes.ts:1612-1617 | a lookup by UUID is never ambiguous while ids are distinct |
| `ImportAnswers.QuestionsAsked` | apps/api/src/routes/crudRoutes.ts:1601-1641 | the tiers client by client: id for a UUID, document when given, else name with city, name with state, name |
| `OpportunityImport.OrderDoesNotMatter` | apps/api/src/routes/crudRoutes.ts:1601-1641 | the order in which the index lists its clients does not change the answer |
| `OpportunityImport.UpsertKeepsCoherent` | apps/api/src/routes/crudRoutes.ts:2216-2228 | an upsert keeps map and list describing the same clients, each id once |
| `OpportunityImport.Importer.Upsert` | apps/api/src/routes/crudRoutes.ts:2216-2228 | replaces the one entry with the id, or appends |
| `OpportunityImport.Importer.Load` | apps/api/src/routes/crudRoutes.ts:2230-2243 | loading the clients found leaves a coherent index |
| `OpportunityImport.Importer.LocateClient` | apps/api/src/routes/crudRoutes.ts:2367-2435 | finds, creates or previews the client of a row, keeping the index coherent |
| `ImportAnswers.LocateAnswers` | apps/api/src/routes/crudRoutes.ts:2367-2435 | the client of a row on every path: decided by the index, found by the database, created under its bare name, or invented for a preview with its document and city |
| `OpportunityImport.Importer.WriteOpportunity` | apps/api/src/routes/crudRoutes.ts:2437-2559 | skips, updates or creates the opportunity, all its columns and notes included, according to the deduplication options and the remembered candidates |
| `ImportAnswers.FindsNewestTwin` | apps/api/src/routes/crudRoutes.ts:2437-2487 | the duplicate found is the newest deal of the same client and owner, inside the window, open or of the same stage, with the same normalised title; there is none exactly when no deal is such |
| `ImportAnswers.WriteAnswers` | apps/api/src/routes/crudRoutes.ts:2437-2559 | with a twin the row is ignored or, under upsert, the newest twin is changed field by field and nothing else; without one exactly the row is appended; previews report the same and change nothing; throws in their order |
| `OpportunityImport.MergeTakesNothingAway` | apps/api/src/routes/crudRoutes.ts:2504-2533 | an update keeps id, client, title and every column the row does not give, writes every one it gives, opens the new notes with the old and hands the owner over exactly outside a seller's import of another seller's deal |
| `OpportunityImport.Importer.ImportRow` | apps/api/src/routes/crudRoutes.ts:2279-2609 | one turn with its transaction and its catch: a throw rolls the tables back and keeps the memory |
| `ImportAnswers.ProblemsInOrder` | apps/api/src/routes/crudRoutes.ts:2283-2360 | which rows fail before the transaction, and with which reason |
| `ImportAnswers.RowAnswers` | apps/api/src/routes/crudRoutes.ts:2279-2609 | what a row reports and leaves on every path: its own problem, its client, a throw, or the answer of the write |
| `OpportunityImport.Importer.Process` | apps/api/src/routes/crudRoutes.ts:2158-2639 | both loops and the batches of fifty compute the fold of the single rows, invalid ones first |
| `OpportunityImport.RowKeepsIndex` | apps/api/src/routes/crudRoutes.ts:2216-2435 | map and list agree after every row, whatever the database does |
| `OpportunityImport.RowAddsWhatItReports` | apps/api/src/routes/crudRoutes.ts:2367-2609 | a row adds one opportunity exactly when it reports `created` outside a preview; a failed row and every preview row leave both tables as they were |
| `OpportunityImport.IndexOutlivesRollback` | apps/api/src/routes/crudRoutes.ts:2367-2609 | every client in the index exists in the table after a row unless the row creates its client and the database throws afterwards, in the deduplication query, the write or the commit: then, and only then, the index keeps a client the table has lost |
| `OpportunityImport.RollbackForgets` | apps/api/src/routes/crudRoutes.ts:2402-2559 | such a row leaves its client in the index, out of the table and without opportunities |
| `OpportunityImport.ForgottenClientBlocksRows` | apps/api/src/routes/crudRoutes.ts:2279-2609 | through every later run of rows, even with a database that works again, that client stays in the index and out of the table, gets no opportunity, and every row that resolves to it is reported as failed |
| `OpportunityImport.KnownAgain` | apps/api/src/routes/crudRoutes.ts:1601-1641 | outside a preview the client a row was handled with is found in the index when the row comes again exactly when it answers one of the row's questions; otherwise the index knows nobody |
| `OpportunityImport.CreatedAnswers` | apps/api/src/routes/crudRoutes.ts:2402-2416 | a client the import creates answers a row that names it without a document, and never one with a document: the import does not store the document |
| `OpportunityImport.EachTimeAnotherClient` | apps/api/src/routes/crudRoutes.ts:2367-2416 | a repeated row whose created client does not answer it creates another client exactly when the database finds none and does not throw before |
| `OpportunityImport.RolledBackRowNeverImports` | apps/api/src/routes/crudRoutes.ts:2402-2559 | after a rolled-back creation the same row fails again whatever the database does |
| `OpportunityImport.OneThrowEndsTheClient` | apps/api/src/routes/crudRoutes.ts:2402-2559 | a concrete row of an import from nothing: one throw at the write, and the client and its row are lost for the rest of the import |
| `OpportunityImport.SameRowCreatedTwice` | apps/api/src/routes/crudRoutes.ts:2437-2559 | deduplication does not see the rows of the file: a row created once and handled with the same client again, however the client is found, is created again exactly unless the database throws at the write (outside a preview) or at the commit |
| `OpportunityImport.EveryRowAccounted` | apps/api/src/routes/crudRoutes.ts:2171-2639 | every row is counted once: created, updated, ignored and failed add up to the rows, each row number has one result, one error per failed row, one detail per skipped row |
| `OpportunityImport.RunKeepsIndex` | apps/api/src/routes/crudRoutes.ts:2171-2609 | over a whole import the index stays coherent and the opportunity table grows by the number reported as created; a preview leaves both tables as they were |
| `ReportCsv.BuildReport` | apps/api/src/routes/crudRoutes.ts:2127-2156 | the report is a header line and one escaped line per row result |
| `ReportCsv.RoundTrip` | apps/api/src/routes/crudRoutes.ts:2127-2156 | a reader following section 2, rules 5 to 7, of RFC 4180 recovers every field of every non-empty table |
| `ReportCsv.ReportRoundTrip` | apps/api/src/routes/crudRoutes.ts:2127-2156 | reading a report gives back the header and every cell, whatever quotes, commas, newlines or empty texts the rows hold |
| `ReportCsv.ReportsTellApart` | apps/api/src/routes/crudRoutes.ts:2127-2156 | equal reports come from the same number of rows with the same numbers, statuses and texts |
| `ReportCsv.ColumnsHoldTheirFields` | apps/api/src/routes/crudRoutes.ts:2127-2156 | every column holds the field its heading names |
| `OpportunityItems.CentsIsNearest` | apps/api/src/routes/crudRoutes.ts:6156-6170 | rounding to two digits picks the one whole cent at most half a cent away, the upper of two |
| `OpportunityItems.TotalsBalance` | apps/api/src/routes/crudRoutes.ts:6153-6174 | for every accepted quantity, price and discount: both error cases exactly, discount and net between zero and gross and adding up to it to the cent, and the negative-net throw never reached |
| `ItemAnswers.TotalsBill` | apps/api/src/routes/crudRoutes.ts:6153-6174 | gross is quantity times price to the nearest cent, the discount its percentage or the amount given to the nearest cent, net the difference; they fail exactly when the discount is too much |
| `OpportunityItems.MorePercentLessNet` | apps/api/src/routes/crudRoutes.ts:6153-6174 | a larger percentage never leaves more to pay |
| `OpportunityItems.NextLineIsFree` | apps/api/src/routes/crudRoutes.ts:6512-6518 | a line number left to the route never collides |
| `OpportunityItems.ItemStore.RecalculateOpportunityValue` | apps/api/src/routes/crudRoutes.ts:6182-6190 | sets the value to the sum of the net totals of the opportunity's items |
| `OpportunityItems.ItemStore.PostItem` | apps/api/src/routes/crudRoutes.ts:6498-6544 | creates the item with its totals and the texts kept of its product and recalculates, or refuses without writing |
| `ItemAnswers.CreateAnswers` | apps/api/src/routes/crudRoutes.ts:6498-6544 | every refusal with its status and cause; otherwise the one new item carries the request's quantity, price, discount, product, line and texts, with defaults and fallbacks spelled out, and its billing |
| `OpportunityItems.ItemStore.PutItem` | apps/api/src/routes/crudRoutes.ts:6546-6600 | rewrites one item from the merged payload, its product texts, unit and notes included, and recalculates, or refuses without writing |
| `ItemAnswers.UpdateAnswers` | apps/api/src/routes/crudRoutes.ts:6546-6600 | every refusal with its status and cause; otherwise each field of that item is the request's where given and the old one where not, billed afresh, and no other item changes |
| `OpportunityItems.ItemStore.DeleteItemOf` | apps/api/src/routes/crudRoutes.ts:6602-6612 | removes one item and recalculates, or refuses without writing |
| `ItemAnswers.DeleteAnswers` | apps/api/src/routes/crudRoutes.ts:6602-6612 | 404 without the opportunity or the item; otherwise only the items of that key go |
| `OpportunityItems.SumsFollowItems` | apps/api/src/routes/crudRoutes.ts:6498-6612 | a successful request changes the sum of its own opportunity by the net added, changed or removed and no other sum; a refused one changes nothing |
| `OpportunityItems.ItemRequestsBringInStep` | apps/api/src/routes/crudRoutes.ts:6498-6612 | after every completed item request the opportunity value is the sum of its items' net totals, whatever it was before |
| `OpportunityItems.LostRecalculation` | apps/api/src/routes/crudRoutes.ts:6520-6541 | the two writes share no transaction: when the second is lost the value stays in step exactly when the sum did not change |
| `OpportunityItems.OthersKeepStep` | apps/api/src/routes/crudRoutes.ts:6182-6190 | a request neither breaks nor mends the value of another opportunity |
| `OpportunityItems.TypedValue` | apps/api/src/routes/crudRoutes.ts:7809-7812 | a value typed into the opportunity is in step exactly when it happens to be the sum |
| `OpportunityItems.StepKeeps` | apps/api/src/routes/crudRoutes.ts:6498-6612 | every item on file keeps sound totals and both keys of the item table stay unique |
| `OpportunityItems.RunsStayInStep` | apps/api/src/routes/crudRoutes.ts:6498-6612 | in every run an opportunity is in step from its first completed item request on, until a value is typed in or a recalculation is lost |
| `OpportunityItems.EmptiedOpportunityIsWorthNothing` | apps/api/src/routes/crudRoutes.ts:6602-6612 | removing the last item leaves the value at zero |
| `ClientRegistry.RecordedReplays` | apps/api/src/services/clientCodeAuditService.ts:18-51 | recording a change extends the chain: replay then ends in the new code, other clients' trails are untouched, and no row goes from a code to itself |
| `ClientRegistry.CheckedIsAdmissible` | apps/api/src/routes/crudRoutes.ts:1236-1345 | a candidate that passed the duplicate check carries a document no other active client has |
| `ClientAnswers.ChecksInOrder` | apps/api/src/routes/crudRoutes.ts:1236-1345 | the check reports a code first, then a document, against all sellers, then name, city and state within scope; and nothing exactly when no active client is in the way |
| `ClientRoutes.ClientRegister.RecordClientCodeChange` | apps/api/src/services/clientCodeAuditService.ts:45-51 | appends a row exactly when the trimmed code changes |
| `ClientRoutes.ClientRegister.PostClient` | apps/api/src/routes/crudRoutes.ts:4556-4585 | creates the client and its first audit row, or refuses |
| `ClientAnswers.CreateAnswers` | apps/api/src/routes/crudRoutes.ts:4556-4585 | 409 exactly when an active client has its code, document or identity or the database refuses; otherwise 201 with every column as requested and the audit row of its code |
| `ClientRoutes.ClientRegister.PutClient` | apps/api/src/routes/crudRoutes.ts:4811-4858 | edits the client and audits its code, or refuses |
| `ClientAnswers.UpdateAnswers` | apps/api/src/routes/crudRoutes.ts:4811-4858 | 404, 403 and 409 with their causes; otherwise each column is the one given or the old one, normalised afresh, and the code's change is audited |
| `ClientRoutes.ClientRegister.DeleteClient` | apps/api/src/routes/crudRoutes.ts:4860-4902 | deletes a client without audit rows together with its records and those of its opportunities, or refuses and changes nothing |
| `ClientAnswers.DeleteAnswers` | apps/api/src/routes/crudRoutes.ts:4860-4902 | 404, 403 and 500 with their causes; otherwise exactly that client goes |
| `ClientRecords.DeletedClientIsGone` | apps/api/src/routes/crudRoutes.ts:4867-4899 | whatever remains after a deletion is unchanged and refers to the client no longer; below its opportunities only contacts and agenda stops may remain |
| `ClientRoutes.ClientRegister.PostCompany` | apps/api/src/routes/crudRoutes.ts:5026-5053 | creates a client without a code, or refuses |
| `ClientAnswers.CreateCompanyAnswers` | apps/api/src/routes/crudRoutes.ts:5026-5053 | a company is checked like any client and written with its placeholders and without a code |
| `ClientRoutes.ClientRegister.PutCompany` | apps/api/src/routes/crudRoutes.ts:5055-5100 | edits name and document and leaves the code alone, or refuses |
| `ClientAnswers.UpdateCompanyAnswers` | apps/api/src/routes/crudRoutes.ts:5055-5100 | 404 and 409 with their causes; otherwise name and document change and nothing else but what is normalised from them |
| `ClientRoutes.ClientRegister.MergeDuplicates` | apps/api/src/routes/crudRoutes.ts:6412-6454 | moves the six kinds of records of every duplicate to the primary, archives and audits each once, or refuses the whole list |
| `ClientAnswers.MergeAnswers` | apps/api/src/routes/crudRoutes.ts:6412-6454 | 400, 404 and 500 with their causes; otherwise every listed duplicate is archived under marked identifiers, column by column, and everybody else stays |
| `ClientRecords.MergeEmptiesDuplicates` | apps/api/src/routes/crudRoutes.ts:6428-6434 | a merge loses no record and leaves none with a duplicate |
| `ClientRoutes.ClientRegister.UpdateFromRow` | apps/api/src/routes/crudRoutes.ts:4717-4768 | fills the columns the memory shows empty, audits the code and refreshes the memory |
| `ClientAnswers.FindsTheMeant` | apps/api/src/routes/crudRoutes.ts:1873-1892 | the import means the last remembered client with the row's document or, when none has it, the last with its code |
| `ClientAnswers.UpdateRowAnswers` | apps/api/src/routes/crudRoutes.ts:1825-1871 | a row for a remembered client is ignored when it brings nothing, a conflict when somebody is in the way, and otherwise fills exactly the columns found empty |
| `ClientAnswers.CreateRowAnswers` | apps/api/src/routes/crudRoutes.ts:1769-1808 | a row for nobody remembered is trimmed, checked, written and remembered like any new client |
| `ClientAnswers.TurnAnswers` | apps/api/src/routes/crudRoutes.ts:4692-4801 | one row counts once, under the kind of its result |
| `ClientAnswers.AutoCreateAnswers` | apps/api/src/routes/crudRoutes.ts:2402-2416 | the client an opportunity import creates has a name, an owner and placeholders, unchecked and not normalised |
| `ClientRoutes.ClientRegister.ImportRow` | apps/api/src/routes/crudRoutes.ts:4692-4801 | one row of the import; both maps stay the index of the memory |
| `ClientRoutes.ClientRegister.PostClientsImport` | apps/api/src/routes/crudRoutes.ts:4632-4806 | the whole import is the fold of its rows over store, memory and counters |
| `ClientRegistry.FoundIsRemembered` | apps/api/src/routes/crudRoutes.ts:1873-1892 | a match is a remembered client with the row's document or, failing one, its code |
| `ClientRegistry.UpdateRowIsGood` | apps/api/src/routes/crudRoutes.ts:4717-4768 | an update by a row keeps both invariants, because the remembered code is the stored one |
| `ClientRegistry.ImportIsGood` | apps/api/src/routes/crudRoutes.ts:4632-4806 | through a whole import the memory goes on matching the store and every row is counted once |
| `ClientRegistry.StepIsGood` | apps/api/src/routes/crudRoutes.ts:1236-6454 | each of the nine routes keeps one active client per document and a trail that tells every code |
| `ClientRegistry.RunsAreGood` | apps/api/src/routes/crudRoutes.ts:1236-6454 | over any run of the routes no two active clients share a document, and replaying a client's audit rows from nothing ends in its trimmed code |
| `ClientRegistry.RecordedClientStays` | apps/api/src/routes/crudRoutes.ts:4860-4902 | once a code of a client has been recorded, no run of the routes removes the client |
| `ClientRegistry.CodedClientIsKept` | apps/api/src/routes/crudRoutes.ts:4860-5105 | a client that has a code cannot be deleted by either route |
| `ClientRegistry.MergeArchivesDuplicates` | apps/api/src/routes/crudRoutes.ts:6412-6454 | a merge archives every listed duplicate once, frees its document and changes nobody else, the primary and repeated ids included |
| `ClientCodes.UpdateFillsOnlyEmpty` | apps/api/src/routes/crudRoutes.ts:1825-1871 | an import row never replaces a code, city or trade name a client has, and never touches name, document, owner or archiving |
| `ClientCodes.FirstUpdateOverwrites` | apps/api/src/routes/crudRoutes.ts:1825-1871 | a region the client has survives an import update exactly when the import has written the client before, or the row has none to give or the same one; the last purchase likewise |
| `ClientCodes.FillingCodeSharesIt` | apps/api/src/routes/crudRoutes.ts:1825-1871 | an import update keeps active codes distinct exactly when nobody had the code it fills in |
| `ClientCodes.CreateKeepsCodes` | apps/api/src/routes/crudRoutes.ts:4556-4585 | a created client keeps active codes distinct exactly when no other active client has the same code written with white space around it |
| `ClientCodes.UpdateKeepsCodes` | apps/api/src/routes/crudRoutes.ts:4811-4858 | an edited client likewise, unless it is archived |
| `ClientCodes.ImportKeepsCodes` | apps/api/src/routes/crudRoutes.ts:4632-4806 | a whole import keeps active codes distinct exactly when none of its rows creates such a client or fills in a code somebody has |
| `ClientCodes.StepKeepsCodes` | apps/api/src/routes/crudRoutes.ts:1236-6454 | of the nine routes only creating, editing and importing can make two active clients share a code, each exactly in the case stated |
| `ClientCodes.RunsKeepCodes` | apps/api/src/routes/crudRoutes.ts:1236-6454 | codes stay distinct throughout a run of the routes exactly when none of its requests shares one |
| `ClientCodes.ImportSharesCode` | apps/api/src/routes/crudRoutes.ts:4632-4806 | two creations and an import row with the document of the one client and the code of the other, in any spelling, end with two clients of one code, and with the row's region in place of the client's |
| `ClientCodes.TwoClientsOneCode` | apps/api/src/routes/crudRoutes.ts:4632-4806 | three concrete requests the schemas accept, from an empty table: two clients end with code 7 and the region of one is overwritten |
| `AuditedCleanup.UnauditedWrite` | apps/api/src/services/clientCodeAuditService.ts:18-51 | codes written to any number of clients without audit rows leave the trail true exactly when no trimmed code changed |
| `AuditedCleanup.LoserCode` | apps/api/src/scripts/erpFixLegacyDuplicates.ts:265-276 | the code the clean-up gives an archived loser equals its old one, trimmed, exactly when it had none |
| `AuditedCleanup.CleanupKeepsTrail` | apps/api/src/scripts/erpFixLegacyDuplicates.ts:202-286 | after the whole clean-up the trail still tells every client's code exactly when no client merged away had a code |
| `AuditedCleanup.CodedLoserBreaksTrail` | apps/api/src/scripts/erpFixLegacyDuplicates.ts:259-284 | a client created with any code and then archived by the script: its trail was true before and is not afterwards |
| `Agenda.BuildItems` | apps/api/src/services/agendaIntelligenceService.ts:328-398 | the nested loops list every stop, or stopless event, once, numbered from 1 |
| `Agenda.StopShows` | apps/api/src/services/agendaIntelligenceService.ts:330-398 | what the item of a stop shows: the planned time for sixty minutes or else its event's times, its place, client and score, its period, and whether it may move |
| `Agenda.EventShows` | apps/api/src/services/agendaIntelligenceService.ts:330-398 | the same for an event without stops |
| `Agenda.DetectConflicts` | apps/api/src/services/agendaIntelligenceService.ts:469-502 | reports one overlap per clashing pair of neighbours, one entry per item without coordinates, one per overfull period |
| `Agenda.ConflictsListed` | apps/api/src/services/agendaIntelligenceService.ts:469-502 | an overlap is listed exactly when some neighbours clash, a missing location exactly when an item has none, a period exactly when it holds more than four items |
| `Agenda.ScanSeesAllPairs` | apps/api/src/services/agendaIntelligenceService.ts:473-483 | the neighbour scan reports an overlap exactly when, of any two timed items, the one scanned first ends after the other starts |
| `Agenda.ScanAgainstOverlap` | apps/api/src/services/agendaIntelligenceService.ts:473-483 | what is reported is an overlap in the symmetric sense; every overlap is reported unless an item that ends no later than it starts is tied in front of another |
| `Agenda.DayIsJudged` | apps/api/src/services/agendaIntelligenceService.ts:473-483 | a day of any length is judged rightly exactly when no item that ends no later than it starts is tied in front of another, or some two items clash in the order of the scan anyway |
| `Agenda.PairIsJudged` | apps/api/src/services/agendaIntelligenceService.ts:473-483 | two items alone are judged rightly exactly when they are no such tie |
| `Agenda.ReportsRealOverlap` | apps/api/src/services/agendaIntelligenceService.ts:134-135 | when the fixed commitments are whole minutes inside one UTC day, an overlap is reported exactly when two of them overlap in real time |
| `Agenda.ReportsSeen` | apps/api/src/services/agendaIntelligenceService.ts:134-135 | on a Brasilia day of commitments in whole minutes an overlap is reported exactly when two overlap on one side of 21:00 without running into it, or a stop planned in the last hour wraps onto an earlier commitment |
| `Agenda.LocalDayIsJudged` | apps/api/src/services/agendaIntelligenceService.ts:134-135 | such a day is judged rightly exactly when an overlap is seen, or overlaps are missed and false alarms raised together or not at all |
| `Agenda.MidnightFalseAlarm` | apps/api/src/services/agendaIntelligenceService.ts:134-135 | a concrete day of one false alarm: a meeting at midnight and a stop planned for 23:30 |
| `Agenda.EveningOverlapMissed` | apps/api/src/services/agendaIntelligenceService.ts:134-135 | across midnight UTC the minutes wrap: 20:30 to 21:30 and 21:00 to 22:00 in Brasilia are not reported |
| `Agenda.FixedTimesFirst` | apps/api/src/services/agendaIntelligenceService.ts:428-463 | the suggestion is a permutation numbered from 1 with all fixed-time items first in non-decreasing start |
| `Agenda.CitiesStandTogether` | apps/api/src/services/agendaIntelligenceService.ts:454-463 | among items of one start, or of none, those of one city stand together |
| `Agenda.BestScoreFirst` | apps/api/src/services/agendaIntelligenceService.ts:454-463 | within start, city and territory the higher score goes first and ties keep their order |
| `Agenda.OrderKept` | apps/api/src/services/agendaIntelligenceService.ts:428-463 | the suggestion leaves a day alone exactly when it is listed in that order already |
| `Agenda.PlaceIsRank` | apps/api/src/services/agendaIntelligenceService.ts:428-463 | every item stands in the suggestion where the number of items that go before it says, and keeps its place exactly when as many were listed before it |
| `Agenda.ReasonsHoldExactly` | apps/api/src/services/agendaIntelligenceService.ts:428-438 | the reason given for items that may not move, that they keep their place, is true of a day exactly when for each of them as many items go before it as were listed before it |
| `Agenda.ConcludedVisitIsMoved` | apps/api/src/services/agendaIntelligenceService.ts:428-438 | a concrete day: a concluded visit and a meeting, neither movable, change places |
| `Agenda.EstimateDistance` | apps/api/src/services/agendaIntelligenceService.ts:503-510 | a distance is given exactly when two or more items are all located: the sum along the order, to a tenth |
| `Agenda.TenthIsClose` | apps/api/src/services/agendaIntelligenceService.ts:509-509 | the rounded distance is within 50 metres of the sum |
| `Agenda.BuildMetrics` | apps/api/src/services/agendaIntelligenceService.ts:401-410 | fixed and movable stops are counted and add up to all; the distance is that of the suggested order; confidence is high exactly with a distance and low exactly when nothing is located |
| `Calendar.MonthRangeIsReportRange` | apps/api/src/routes/dashboardRoutes.ts:11-19 | the dashboard month equals the report range from the month's first to its last day, leap years included |
| `Calendar.MonthsTile` | apps/api/src/routes/dashboardRoutes.ts:11-19 | from the year 100 on every millisecond lies in exactly one month |
| `Calendar.TwoDigitYearsAlias` | apps/api/src/routes/dashboardRoutes.ts:11-19 | the years 0 to 99 share their ranges with 1900 to 1999 |
| `Calendar.MonthsAddUp` | apps/api/src/routes/dashboardRoutes.ts:21-26 | each won opportunity counts in exactly one month: the months' revenues add up to the report over the whole span |
| `Dashboard.GetBusinessDaysOfMonth` | apps/api/src/routes/dashboardRoutes.ts:33-41 | lists exactly the working days of the month |
| `Dashboard.SalesSeries` | apps/api/src/routes/dashboardRoutes.ts:214-247 | the loop computes daily values, their prefix sums and the total for both series |
| `Dashboard.SaleInBucket` | apps/api/src/routes/dashboardRoutes.ts:232-235 | a sale closed during a local day of the month is in that day's bucket and in no other |
| `Dashboard.MonthHasTwenty` | apps/api/src/routes/dashboardRoutes.ts:28-41 | every month has at least twenty working days |
| `Dashboard.WeekendsAreOff` | apps/api/src/routes/dashboardRoutes.ts:28-31 | Saturdays and Sundays, and no other days, are no working days |
| `Dashboard.ObjectiveReached` | apps/api/src/routes/dashboardRoutes.ts:214-247 | the accumulated objective ends at the objective, so the guard against a month without working days never acts |
| `Dashboard.BucketsConserve` | apps/api/src/routes/dashboardRoutes.ts:232-247 | on a server clock from three hours behind UTC to twenty-one ahead the daily buckets add up to all won opportunities of the month |
| `Dashboard.BucketsConserveBehind` | apps/api/src/routes/dashboardRoutes.ts:232-247 | further behind, they do so for every list exactly when the month before is no longer than the month |
| `Portfolio.LastSaleByClient` | apps/api/src/routes/dashboardRoutes.ts:307-314 | the map holds each client's latest close and nobody else |
| `Portfolio.WalletStatus` | apps/api/src/routes/dashboardRoutes.ts:316-328 | the three counts are those of the three recency bands and add up to the clients |
| `Portfolio.WalletCounts` | apps/api/src/routes/dashboardRoutes.ts:316-328 | the counts are those of the clients whose last sale is under 31 days old, from 31 to under 91 days old, and older or missing |
| `Portfolio.GroupingConserves` | apps/api/src/routes/dashboardRoutes.ts:330-333 | grouping by client keeps every client's total and the grand total |
| `Portfolio.AbcCurve` | apps/api/src/routes/dashboardRoutes.ts:335-361 | class sizes are the rounded-up fifth and half of the earning clients, with the others in C; revenues add up to the sales; heads to the larger of clients and earners |
| `Portfolio.AbcIsAFairCut` | apps/api/src/routes/dashboardRoutes.ts:335-358 | nobody in a lower class earned more than anybody in a higher one, and the three slices hold all revenue |
| `Portfolio.BestHoldTheirShare` | apps/api/src/routes/dashboardRoutes.ts:335-358 | the best k of n clients hold at least k in n of the revenue |
| `Scheduler.CalculateNextAutomaticRunAt` | apps/api/src/jobs/erpSyncScheduler.ts:245-257 | returns the earliest whole hour after the instant inside 07:00 to 19:00, at most thirteen hours on; the fallback after 48 probes is never reached |
| `Scheduler.NextRunUnique` | apps/api/src/jobs/erpSyncScheduler.ts:245-257 | there is only one such hour |
| `Scheduler.ErpSyncScheduler.Execute` | apps/api/src/jobs/erpSyncScheduler.ts:315-613 | the tick's effect on the module's variables on each of its paths |
| `Scheduler.TickAnswers` | apps/api/src/jobs/erpSyncScheduler.ts:315-613 | each path of a tick with its skip reason, error, flag, last success and next run: steps that all pass record the time they ended, the first critical failure leaves a lock or a step as reason |
| `Scheduler.TickLeavesFuture` | apps/api/src/jobs/erpSyncScheduler.ts:330-568 | every tick that returns leaves a run hour strictly after it, whole and inside the window |
| `Scheduler.FlagGivenBack` | apps/api/src/jobs/erpSyncScheduler.ts:404-613 | a tick that starts a run gives the running flag back exactly when the run row could be inserted |
| `Scheduler.StuckForever` | apps/api/src/jobs/erpSyncScheduler.ts:345-420 | once an insert has failed neither the timer nor a tick by hand ever synchronises again, whatever is switched on or off in between |
| `Scheduler.StuckExactly` | apps/api/src/jobs/erpSyncScheduler.ts:345-836 | from rest, a sequence of timer checks, ticks by hand and changes of plan ends stuck exactly when one of them started a run whose row could not be inserted |
| `Scheduler.PlanHolds` | apps/api/src/jobs/erpSyncScheduler.ts:615-625 | checks before the planned hour change nothing |
| `Scheduler.OneTickPerHour` | apps/api/src/jobs/erpSyncScheduler.ts:615-625 | a tick that returned and the next one that fires never fall in the same clock hour |
| `ErpCodes.NormalizesToCode` | packages/shared/src/index.ts:381-396 | on arbitrarily nested values the result is empty or a trimmed text without the separator |
| `ErpCodes.Idempotent` | packages/shared/src/index.ts:381-396 | normalising twice is normalising once |
| `ErpCodes.OptionsComeBack` | apps/api/src/routes/ultraFv3Routes.ts:71-117 | for every option read from every payload, normalising its label, its value or the option object itself gives back its code, whatever the description contains |
| `ErpCodes.ListedExactly` | apps/api/src/routes/ultraFv3Routes.ts:89-117 | a row is listed exactly when its first text among the code keys normalises to a code; its fields |
| `ErpCodes.OptionsAreOfRows` | apps/api/src/routes/ultraFv3Routes.ts:71-117 | the options of a payload are exactly those of its rows, none lost and none made up |
| `ErpCodes.Describes` | apps/api/src/routes/ultraFv3Routes.ts:82-104 | the description is what follows the dot after the code, the text itself otherwise, and the fallback entry when that leaves nothing |
| `ErpCodes.ObjectWithCode` | packages/shared/src/index.ts:390-395 | an option object is accepted in place of its code |
| `ErpCodes.ObjectsByFirstKey` | packages/shared/src/index.ts:381-396 | an object normalises to what its first code key that normalises to anything does |
| `ErpCodes.LabelIsStable` | apps/api/src/routes/ultraFv3Routes.ts:99-106 | a printed label read back as a description prints the same label; the code is not prefixed twice |

## Left out

- DisjointSets.DisjointSet.Find: recursion depth; the source recurses once per pointer and could exhaust the stack.
- DuplicateGroups.BuildDuplicateGroups: the order of the returned groups and of their members is not promised.
- LegacyCleanup.CrmStore.CleanupLegacyDuplicates: the final search counts per term, the console output and failing database calls; the legacy-prefix and name normalisers are arbitrary functions.
- KmzReader.RoundTrip: 64-bit ZIP fields, and member names are compared as bytes, so the letters outside ASCII that lower-case to `k`, `m` or `l` are not; the text of the payload is left as bytes.
- KmzReader.ReadZipLocalFile: inflation is an arbitrary function of the compressed bytes.
- Territory.CitiesStayExclusive: two requests at the same time; access rules and the city-name normaliser are arbitrary functions, and the states are the three the input schema lets through.
- OpportunityImport.Importer.ImportRow: the texts of messages, and how owners, stages, dates and the other columns are read from the file; the deduplication window is a flag on each opportunity.
- OpportunityImport.Importer.LocateClient: the database's own lookup is free to return any client, archived ones included.
- OpportunityItems.TotalsBalance: amounts are exact, so the error of a binary product before rounding is not there.
- ClientRegistry.RunsAreGood: the partner synchronisation, the clean-up script and direct writes to the table; the unique indexes of the database appear only as refusals, the proof does not lean on them.
- ClientCodes.FirstUpdateOverwrites: the last purchase value and the ERP date, which go the way of the last purchase date.
- ClientRoutes.ClientRegister.DeleteClient: rows of other tables the database deletes or detaches by itself.
- ClientRegistry.StepIsGood: deleting a missing company, which the program answers with a database error, is refused as not found.
- Agenda.EstimateDistance: the haversine formula; the distance of two items is an arbitrary number.
- Agenda.BuildMetrics: suggested insertions, AI texts and the cache.
- Calendar.MonthsTile: months before the year 100, where `Date.UTC` reads years as 1900 to 1999.
- Dashboard.BucketsConserve: clocks with daylight saving time; the offset of a server is fixed.
- Portfolio.AbcCurve: revenue is exact; sums of binary fractions can differ from it in the last place.
- Scheduler.CalculateNextAutomaticRunAt: the time zone of Sao Paulo is three hours behind UTC throughout.
- Scheduler.StuckExactly: the first start that a tick by hand may trigger is a change of plan among the events.
- Scheduler.ErpSyncScheduler.Execute: two ticks at once; between the test of the running flag and its setting the program waits for the configuration.
- Equality of preview and import when deduplication or automatic creation is on: it does not hold.
- Express, Prisma and JSON plumbing, logging, authentication, encryption, the UltraFV3 client, AI calls, PDF output, seeds and pages: input and output.
- The listing, coverage and score endpoints: one expression each.
