# Contrato: the versioned store, bundles and analyses, modelled and proved

Contrato keeps contracts and a graph of actors, capabilities and policies in an append-only, versioned
SQL store. A model version is exported to and imported from a bundle file, and several analyses look at
one exported or stored snapshot. This project models that core in Dafny and proves what it is meant to
guarantee. `dafny verify dfyconfig.toml` checks everything.

## What is modelled

- **The store.** A table is a log of rows in commit order (`VersionedLog`), with the primary key deciding
  whether an insert is accepted. `ConcurrentPut` runs any number of clients on one table, their
  expected-version check, `MAX(version)` snapshot and insert interleaved in any order; `World` does so for
  all tables together with the foreign keys, status changes and pin resolution, `WorldPuts` says what one
  client's statements do to it, and `WorldSafety` proves what holds over every run. `PutMeaning` states on
  the request what each put stores and how it fails. `SqlStore.Store` is the same store as a class whose
  methods run their statements in one go.
- **Bundles.** `ModelIO` has the export and import loops over that class, proved against the functions in
  `Bundles`; `BundleLaws`, `RoundTrip` and `Runs` prove what those functions mean. `InterleavedImport` runs
  the import loops statement by statement among other clients, and `ImporterSteps` says when each of its
  puts moves it on. `Publishing` follows one put into the tenant's next export.
- **Analyses.** `Lint`, `Frontier` (on the graph of `Digraphs`), `Implied` and `Waypoint` are the loops of
  the linter, the hole, boundary and implied-edge analyses and the gap analysis. `Agreement` relates them on
  one stored snapshot; `LintGate` says when a bundle that passes the lint still does after its import, and
  `Availability` which gaps the analysis of an imported model never reports.
- **Decisions.** `Decisions` is the policy loop around an arbitrary evaluator, and the algebra of merging.

`Basics` and `Ordering` hold shared vocabulary: options, JSON values, sequence helpers, the key order and
sorted last-write-wins lists. `Schema` has the tables, the validity of a database and what each Put inserts.

## Main results

1. In every interleaving each key's versions are exactly 1..n, a stale insert is always rejected, and a put
   with expected version e returns the next version iff nobody wrote in between
   (`DensityUnderConcurrency`, `InsertOutcome`, `ExpectedVersionMeaning`), with the exact outcome of every
   insert and every uninterrupted put on the whole database (`NodeInsert`, `PutNodeAlone` and their kin).
2. Over every run of all clients on all tables, pins stay valid, committed rows stay as they are, and a new
   model version starts empty (`RunSafety`, `GetVersionForever`, `NewVersionIsEmpty`).
3. The `DISTINCT ON` snapshot is the last-write-wins map of the writes under its pin, undisturbed by other
   pins (`QueryIsLastWins`, `SnapshotRefinesMap`, `OtherPinsDoNotDisturb`).
4. Import then export is canonicalisation, and export is a fixed point (`ImportThenExport`,
   `ExportFixedPoint`, `ReimportIsStable`), with the exact condition for an import to succeed and the exact
   point where it stops (`ImportSucceedsIff`, `ImportStops`); the same holds of an import among other
   clients (`InterleavedSections`, `InterleavedExport`).
5. The linter, the frontier and the waypoint analysis agree on every enabled snapshot (`AnalysesAgree`), and
   the lint is a gate for imports under an exact condition (`LintGateIff`, `LintIsSoundGate`).
6. Structural holes and implied edges are characterised exactly (`StructuralHoleIff`, `Exact` in
   `DetectImpliedEdges`), and merging decisions is a monoid fold with deny precedence (`FoldConcat`,
   `DenyWins`, `PermutationInvariant`).

## Where the code and its descriptions differ

The model follows the code; these lemmas state what it does.

- Setting the status of a model version inserts a new version of its lineage. Disabling the latest enabled
  version therefore never disables it (`StatusChangePointer`), and enabling one makes the tenant export an
  empty model (`EnablingExportsNothing`).
- An import is not one transaction. Whether it moves the tenant's latest enabled version does not depend on
  whether its rows can be put (`ImportMovesPointerIff`); a failed one is exported up to the failing row
  (`FailedImportPublishes`; a bundle that does this: `BrokenBundleIsPublished`).
- Export writes reasons and obligations, import does not read them (`ExportFixedPoint`).
- A bundle can pass the lint and leave an export that fails it. This happens exactly when no actor, no
  policy or no capability survives the repetition of node ids, or when a capability without an id survives:
  the linter passes over it and no edge can name it (`LintGateIff`; `RepeatedIdsBreakTheGate`,
  `NamelessCapabilityBreaksTheGate`).
- Bundle property values are maps, while the gap analysis looks for the boolean false, so an imported model
  never has an unavailable capability (`ImportNeverUnavailable`).
- Structural holes are described as one-node components with both incoming and outgoing edges of other
  components. The code reports those with either (`StructuralHoleIff`, `ReportedVersusDescribed`); the two
  agree on a graph under an exact condition (`DescriptionFitsIff`), and not on a -> b (`EndsAreReported`).
- Boundary entries described as "Leaf node (degree 1)" have degree 0 (`LeavesAreIsolated`).
- "Only one provider" counts edge rows, not actors. A reported gap is right, but a capability whose only
  provider has several rows is missed (`SingleProviderGapIff`; on a stored snapshot: `SingleProviderIsMissed`).

## Model

| member | source | states |
|---|---|---|
| Ordering.LastWinsCanonical | internal/modelio/io.go:71-88 | DISTINCT ON with ORDER BY key: the last-write-wins fold holds exactly the last write of every key, once, in strictly increasing key order |
| Ordering.CanonicalUnique | internal/modelio/io.go:71-88 | a list of writes has only one canonical form, so "canonical" fixes the exported rows and their order |
| Ordering.SortedIsCanonical | internal/modelio/io.go:71-88 | a section already sorted by key is its own canonical form |
| Ordering.LastWinsMap | internal/modelio/io.go:71-126 | turning rows into bundle entries commutes with taking the last write when the key order is kept |
| VersionedLog.DenseIsNumbered | internal/storage/sqlstore/graph_repo.go:53-63 | rows inserted at MAX+1 is the same as: for every key the versions are exactly 1..n in commit order |
| VersionedLog.VersionsExact | migrations/postgres/0001_init.sql:50-50 | (key, v) is stored iff v lies between 1 and the greatest version of the key |
| VersionedLog.UniqueVersion | migrations/postgres/0001_init.sql:50-50 | the primary key: (key, version) names at most one row |
| VersionedLog.InsertGuard | internal/storage/sqlstore/graph_repo.go:53-64 | an insert computed from any snapshot is accepted iff it lands at the current maximum plus one, and keeps histories dense |
| VersionedLog.RowsBetween | internal/storage/sqlstore/graph_repo.go:90-101 | the versions between an earlier maximum and a later row of the key are exactly those committed for the key in between |
| VersionedLog.QueryMeaning | internal/modelio/io.go:71-77 | on any table, DISTINCT ON ... version DESC returns key-sorted newest matching rows, one for every key that has a matching row |
| VersionedLog.QueryIsLastWins | internal/modelio/io.go:71-77 | snapshot refinement: the newest-version snapshot is the last-write-wins fold of the matching writes in commit order |
| VersionedLog.SnapshotRefinesMap | internal/modelio/io.go:71-96 | the snapshot has exactly the entries of the map obtained by performing the matching writes one after the other |
| VersionedLog.LatestRefinesMap | internal/storage/sqlstore/graph_repo.go:14-23 | ORDER BY version DESC LIMIT 1 reads the last write of the key, at the greatest version, and nothing iff the key was never written |
| VersionedLog.FilteredLatest | internal/storage/sqlstore/contracts_repo.go:82-89 | a filtered snapshot never shows a row newer than the latest, and shows the latest iff the latest passes the filter |
| VersionedLog.KeyFilterCommutes | internal/storage/sqlstore/graph_repo.go:110-117 | filtering on key columns commutes with taking the latest version |
| VersionedLog.QueryFrame | internal/modelio/io.go:71-77 | rows that do not match leave the snapshot as it was |
| VersionedLog.SnapshotOfWrites | internal/modelio/io.go:71-77 | the snapshot depends on the matching writes and their order only, not on the versions that writes under other pins pushed them to |
| VersionedLog.VersionRowStable | internal/storage/sqlstore/contracts_repo.go:25-32 | a row found by (key, version) is found unchanged in every extension of the table |
| ConcurrentPut.ApplyKeepsInv | internal/storage/sqlstore/graph_repo.go:37-64 | every single statement of every client keeps: histories dense, and what each client read was true when it read it |
| ConcurrentPut.RunKeepsInv | internal/storage/sqlstore/graph_repo.go:37-64 | so does every interleaving of any number of clients |
| ConcurrentPut.DensityUnderConcurrency | internal/storage/sqlstore/graph_repo.go:37-64 | after every interleaving each key's committed versions are exactly 1..n in commit order |
| ConcurrentPut.StaleIsLower | internal/storage/sqlstore/graph_repo.go:53-58 | an older snapshot's maximum is below the current one iff a row of the key was committed since |
| ConcurrentPut.InsertOutcome | internal/storage/sqlstore/graph_repo.go:53-64 | an insert whose snapshot went stale is rejected by the primary key; any other lands at the current maximum plus one if its pin exists and is rejected by the foreign key if not |
| ConcurrentPut.FreshOutcome | internal/storage/sqlstore/graph_repo.go:37-44 | the empty-id branch lands at version 1 iff its generated key is unused and its pin exists, with no freshness assumed; otherwise the exact error |
| ConcurrentPut.ExpectedVersionMeaning | internal/storage/sqlstore/graph_repo.go:80-101 | over every run: a committed put with expected version e returns w > e, rows e+1..w-1 are exactly those committed for the key between its check and its insert, and w = e+1 iff there were none |
| ConcurrentPut.AloneOutcome | internal/storage/sqlstore/contracts_repo.go:56-74 | run without interleaving, the version check passes iff e is the current latest, and the put then commits the next version iff its pin exists |
| ConcurrentPut.RunAppends | internal/storage/sqlstore/graph_repo.go:53-64 | no run changes, moves or removes a committed row |
| Schema.LatestEnabledIsNewest | internal/storage/sqlstore/model_versions_repo.go:51-60 | GetLatestEnabled is the most recently created enabled row of the tenant across all lineages |
| Schema.ResolvedPin | internal/storage/sqlstore/graph_repo.go:31-35 | a defaulted pin names an existing model version of the tenant |
| Schema.PinPositive | migrations/postgres/0001_init.sql:51-52 | a pin that satisfies the foreign key has version at least 1, so a stored row is never re-pinned |
| Schema.PutItemLands | internal/storage/sqlstore/contracts_repo.go:48-74 | exactly when a put succeeds: reference present, and expected version current (given id) or key unused (generated id); it then holds the next version |
| Schema.PutStoredKeepsTable | migrations/postgres/0001_init.sql:50-52 | a put keeps its table dense, well formed and correctly pinned, whether it succeeds or fails |
| Schema.TableOkExtends | migrations/postgres/0001_init.sql:51-52 | new model versions never invalidate a pin |
| Schema.NewPinIsEmpty | migrations/postgres/0001_init.sql:51-52 | a model version that does not exist has an empty snapshot in every table |
| Schema.RegisterKeepsNames | internal/storage/sqlstore/types_repo.go:12-23 | registering a name adds exactly that name once and leaves every other name |
| Schema.NewModelKeepsValid | internal/storage/sqlstore/model_versions_repo.go:14-40 | creating a model version of an existing tenant keeps the whole database valid |
| Schema.PutNodeKeepsValid | internal/storage/sqlstore/graph_repo.go:25-65 | PutNode keeps the whole database valid for every request |
| Schema.PutEdgeKeepsValid | internal/storage/sqlstore/graph_repo.go:67-103 | PutEdge keeps the whole database valid for every request |
| Schema.PutPropertyKeepsValid | internal/storage/sqlstore/properties_repo.go:30-68 | Properties.Put keeps the whole database valid for every request |
| Schema.PutContractKeepsValid | internal/storage/sqlstore/contracts_repo.go:34-75 | Contracts.Put keeps the whole database valid for every request |
| PutMeaning.ResolvedIff | internal/storage/sqlstore/graph_repo.go:31-35 | a request with model and version is stored under these; any other under the most recently created enabled model version of its tenant, by position in the table, and it fails with the exact error iff the tenant has none |
| PutMeaning.LatestEnabledAt | internal/storage/sqlstore/model_versions_repo.go:51-60 | the latest enabled version is the enabled row of the tenant after which there is no other, and there is none iff no row of the tenant is enabled |
| PutMeaning.NewestIsLatest | internal/storage/sqlstore/model_versions_repo.go:51-60 | any row at that place is the one that is read |
| PutMeaning.NamesIff | migrations/postgres/0001_init.sql:51-52 | the foreign key of a pin holds iff some row of the model-version table is the one it names |
| PutMeaning.ItemOutcome | internal/storage/sqlstore/contracts_repo.go:34-75 | what every request for one of the four tables comes to: the row with its key, next version, body and pin, or which of the four errors |
| PutMeaning.PutNodeMeaning | internal/storage/sqlstore/graph_repo.go:25-65 | in terms of the request: which missing field fails it, the stored key, default domain and blob, version and pin, and exactly when it ends in a conflict, a duplicate key, a missing model or a missing reference |
| PutMeaning.PutEdgeMeaning | internal/storage/sqlstore/graph_repo.go:67-103 | the same for edges |
| PutMeaning.PutPropertyMeaning | internal/storage/sqlstore/properties_repo.go:30-68 | the same for properties |
| PutMeaning.PutContractMeaning | internal/storage/sqlstore/contracts_repo.go:34-75 | the same for contracts, whose empty action is stored as no action |
| PutMeaning.PutModelMeaning | internal/storage/sqlstore/model_versions_repo.go:14-40 | the same for model versions, a draft unless a status is given |
| Publishing.NewRowIsShown | internal/modelio/io.go:71-88 | a row that has just been put is in every snapshot it matches |
| Publishing.NodeIsExported | internal/modelio/io.go:71-88 | a node put without a model, or under the latest enabled version, is in the next export of its tenant, field by field |
| Publishing.EdgeIsExported | internal/modelio/io.go:90-107 | so is an edge |
| Publishing.PropertyIsExported | internal/modelio/io.go:109-126 | so is a property |
| Publishing.ContractIsExported | internal/modelio/io.go:128-163 | and a contract, under the exported model version and without extras |
| Publishing.ReasonsExact | internal/modelio/io.go:291-304 | the reasons joined to a contract version are the codes of its own rows, in their order |
| Publishing.ObligationsExact | internal/modelio/io.go:306-322 | the obligations are those of its own rows, with their parameters if these are an object |
| Publishing.ExtrasExact | internal/modelio/io.go:128-163 | so every exported contract carries the extras of its own stored version |
| Publishing.AvailabilityIsSeen | internal/api/httpapi/handlers/waypoint/analysis.go:123-150 | a boolean false put as the availability of a node under the latest enabled version marks the node in the gap analysis |
| Publishing.PropertiesSeenTwice | internal/api/httpapi/handlers/waypoint/analysis.go:123-150 | the properties the gap analysis selects are, by owner and key, the exported ones of nodes |
| WorldSafety.ApplyAdds | internal/storage/sqlstore/graph_repo.go:53-64 | a statement adds at most one row: the inserting client's own, at the next version of its key |
| WorldSafety.StepKeepsInv | migrations/postgres/0001_init.sql:35-108 | every statement of every client on any table keeps the invariant of the whole database and extends the tables |
| WorldSafety.RunSafety | migrations/postgres/0001_init.sql:35-108 | referential safety over every interleaved run: histories dense, every pin names an existing model version, no committed row touched |
| WorldSafety.EmptyWorldInv | migrations/postgres/0001_init.sql:1-164 | the empty database satisfies the invariant, so every reachable one does |
| WorldSafety.GetVersionForever | internal/storage/sqlstore/contracts_repo.go:25-32 | a contract version once returned by GetVersion is returned identically after every further run |
| WorldSafety.NewVersionIsEmpty | internal/storage/sqlstore/model_versions_repo.go:14-40 | at the moment any run creates a model version, its snapshot is empty in all four tables |
| WorldSafety.PointerFrame | internal/storage/sqlstore/model_versions_repo.go:51-60 | appending rows that enable nothing leaves the pointer, appending an enabled row moves it to a new row, and it is never lost |
| WorldSafety.PointerOverRuns | internal/storage/sqlstore/model_versions_repo.go:51-60 | the same over whole runs, status changes through SetStatus included |
| WorldSafety.StatusItemSameButStatus | internal/api/httpapi/handlers/contracts.go:59-83 | what SetStatus puts back differs from the latest row in status only; the re-pinning branch and the defaults cannot fire |
| WorldSafety.StatusChangesKeepTheRest | internal/api/httpapi/handlers/contracts.go:59-83 | if every write after creation is a SetStatus, then under any interleaving with stale reads all versions share domain, type, action, blob and pin |
| WorldPuts.NodeInsert | internal/storage/sqlstore/graph_repo.go:53-64 | in every reachable database the insert of a node lands the next row iff no row of its key was committed since the snapshot (a generated key: ever) and its pin names an existing model version; otherwise nothing is stored and the error says which failed |
| WorldPuts.EdgeInsert | internal/storage/sqlstore/graph_repo.go:90-102 | the same for edges |
| WorldPuts.PropertyInsert | internal/storage/sqlstore/properties_repo.go:54-67 | the same for properties |
| WorldPuts.ContractInsert | internal/storage/sqlstore/contracts_repo.go:60-74 | the same for contracts |
| WorldPuts.ModelInsert | internal/storage/sqlstore/model_versions_repo.go:14-40 | for model versions the reference is the tenant |
| WorldPuts.ReadyToInsert | internal/storage/sqlstore/graph_repo.go:37-58 | before its insert a client has its row pending or has failed as the put fails whatever its reference |
| WorldPuts.InsertCompletes | internal/storage/sqlstore/graph_repo.go:37-64 | check, snapshot and insert with nothing in between complete the sequential put |
| WorldPuts.PutNodeAlone | internal/storage/sqlstore/graph_repo.go:25-65 | a request of a client followed by its three statements is the specified put of the node: same row or same error, and nothing else in the database changes |
| WorldPuts.PutEdgeAlone | internal/storage/sqlstore/graph_repo.go:67-103 | the same for edges |
| WorldPuts.PutPropertyAlone | internal/storage/sqlstore/properties_repo.go:30-68 | the same for properties |
| WorldPuts.PutContractAlone | internal/storage/sqlstore/contracts_repo.go:34-75 | the same for contracts |
| WorldPuts.PutModelAlone | internal/storage/sqlstore/model_versions_repo.go:14-40 | the same for model versions |
| WorldPuts.SetContractStatusAlone | internal/api/httpapi/handlers/contracts.go:59-83 | a contract status change is the specified put of the latest record with the new status, and not found changes nothing |
| WorldPuts.SetModelStatusAlone | internal/api/httpapi/handlers/model_versions.go:63-88 | a model status change is the next version of its lineage with the new status and the old note |
| WorldPuts.TenantAdded | internal/storage/sqlstore/tenants_repo.go:12-21 | a new name gets the generated id, a known one keeps its own, and nothing else changes |
| WorldPuts.NamesAdded | internal/storage/sqlstore/types_repo.go:12-23 | registering adds exactly the name, to its own registry |
| Runs.SectionsAfterAnyRun | internal/modelio/io.go:71-163 | after any interleaved run all four exported sections of a pin are the canonical form of the writes made under it |
| Runs.OtherPinsDoNotDisturb | internal/modelio/io.go:71-163 | a run that writes nothing under a pin leaves its four snapshots as they were, whatever versions of the same keys it adds elsewhere |
| InterleavedImport.InsertStep | internal/storage/sqlstore/graph_repo.go:53-64 | among other clients, an importer's insert lands its own item at the next version, or nothing |
| InterleavedImport.TraceLands | internal/modelio/io.go:223-236 | at every moment of a run the rows under the pin are those present before and those of the items the importer has put, each newer than anything of its key before |
| InterleavedImport.TraceSection | internal/modelio/io.go:223-236 | so a section that was empty is the canonical form of what the importer has put |
| InterleavedImport.RequestsArePinned | internal/modelio/io.go:223-286 | an import's requests name their pin, so what they insert does not depend on when they are made |
| InterleavedImport.CreatedPinIsUsable | internal/modelio/io.go:215-221 | the pin of a model version that a run has just created is empty and usable |
| InterleavedImport.InterleavedSections | internal/modelio/io.go:223-289 | an import whose puts interleave with any other clients that do not insert under its pin stores, at every moment, the canonical forms of what it has put so far in all four sections |
| InterleavedImport.InterleavedExport | internal/modelio/io.go:29-289 | and the tenant exports exactly that as long as no later model version of it is enabled |
| ImporterSteps.NodePutAdvances | internal/modelio/io.go:223-236 | from every state an import can be in between two puts, putting the next node moves it on iff the specified put succeeds, and stops it otherwise |
| ImporterSteps.EdgePutAdvances | internal/modelio/io.go:238-252 | the same for edges |
| ImporterSteps.PropertyPutAdvances | internal/modelio/io.go:254-267 | the same for properties |
| ImporterSteps.ContractPutAdvances | internal/modelio/io.go:269-286 | the same for contracts |
| SqlStore.Store.constructor | migrations/postgres/0001_init.sql:1-164 | a new store is empty and valid |
| SqlStore.Store.EnsureTenant | internal/modelio/io.go:191-196 | finds the tenant by name or creates it under the generated id; nothing else changes |
| SqlStore.Store.CreateType | internal/storage/sqlstore/types_repo.go:12-23 | registers the type once, iff the tenant exists; nothing else changes |
| SqlStore.Store.CreateStatus | internal/storage/sqlstore/statuses_repo.go:12-23 | registers the status once, iff the tenant exists; nothing else changes |
| SqlStore.Store.CreateModelVersion | internal/storage/sqlstore/model_versions_repo.go:14-40 | refines the specified put of a model version: same row or same error, only that table extended, database valid |
| SqlStore.Store.GetModelVersion | internal/storage/sqlstore/model_versions_repo.go:42-49 | succeeds iff 1 <= version <= the latest of the lineage, and returns that stored row |
| SqlStore.Store.GetLatestEnabled | internal/storage/sqlstore/model_versions_repo.go:51-60 | the latest-enabled pointer, or not found |
| SqlStore.Store.SetModelStatus | internal/api/httpapi/handlers/model_versions.go:63-88 | an existing version yields a new next version of its lineage with the new status and the old note; a missing one changes nothing |
| SqlStore.Store.GetNode | internal/storage/sqlstore/graph_repo.go:14-23 | reads the last-write-wins map of the node table; not found iff the key was never written |
| SqlStore.Store.PutNode | internal/storage/sqlstore/graph_repo.go:25-65 | refines the specified put for every request, which `PutNodeMeaning` states on the request: result or error, new table, nothing else changed, database valid |
| SqlStore.Store.PutEdge | internal/storage/sqlstore/graph_repo.go:67-103 | the same for edges |
| SqlStore.Store.OutEdges | internal/storage/sqlstore/graph_repo.go:105-133 | exactly the latest rows of the tenant's edges from the node with the domain (by default "edge") and type, key-sorted, at most limit of them (100 unless 1 <= limit <= 500); what is left out comes after a full page |
| SqlStore.OutEdgesMeaning | internal/storage/sqlstore/graph_repo.go:110-117 | the query itself returns such a page, for every limit: filtering on key columns commutes with taking the latest version |
| SqlStore.Store.GetProperty | internal/storage/sqlstore/properties_repo.go:13-28 | reads the last-write-wins map of the property table |
| SqlStore.Store.PutProperty | internal/storage/sqlstore/properties_repo.go:30-68 | the same for properties |
| SqlStore.Store.GetContract | internal/storage/sqlstore/contracts_repo.go:14-23 | reads the last-write-wins map of the contract table |
| SqlStore.Store.GetContractVersion | internal/storage/sqlstore/contracts_repo.go:25-32 | succeeds iff 1 <= version <= the latest version, and returns that stored row |
| SqlStore.Store.PutContract | internal/storage/sqlstore/contracts_repo.go:34-75 | the same for contracts |
| SqlStore.Store.ListByType | internal/storage/sqlstore/contracts_repo.go:77-107 | per contract the newest row that ever had the domain (by default "contract") and type, which is the latest row iff that one has them; key-sorted, at most limit (50 unless 1 <= limit <= 200), cut only after a full page |
| SqlStore.ListByTypeMeaning | internal/storage/sqlstore/contracts_repo.go:82-89 | the query itself returns such a page, for every limit |
| SqlStore.Store.SetContractStatus | internal/api/httpapi/handlers/contracts.go:59-83 | puts the latest record back with the new status; not found changes nothing |
| ContractKeys.DigitsReadBack | internal/modelio/io.go:324-326 | decimal digits read back to the number printed |
| ContractKeys.DecimalInjective | internal/modelio/io.go:324-326 | two integers, signs included, never print alike |
| ContractKeys.ContractKeyInjective | internal/modelio/io.go:324-326 | "id:version" is injective over all strings, colons included, and all integers |
| ContractKeys.GroupStep | internal/modelio/io.go:295-302 | adding one row to the group of its printed key keeps every group exact |
| ContractKeys.TotalAppend | internal/modelio/io.go:295-302 | and adds exactly one to the sum of the group sizes |
| ContractKeys.GroupByContract | internal/modelio/io.go:291-322 | every row lands in the group of its own contract version and no other, in order; group sizes sum to the number of rows |
| ModelIO.LoadReasons | internal/modelio/io.go:291-304 | the reasons of the tenant, grouped exactly |
| ModelIO.LoadObligations | internal/modelio/io.go:306-322 | the obligations of the tenant, grouped exactly |
| ModelIO.JoinIsExact | internal/modelio/io.go:141-162 | joining through the printed key gives each exported contract its own reasons and obligations |
| ModelIO.ExportContracts | internal/modelio/io.go:128-163 | the contract loop returns the snapshot rows joined with their own extras |
| ModelIO.ExportNames | internal/modelio/io.go:51-69 | the loops over types and statuses return the tenant's registered names in order |
| ModelIO.ExportGraph | internal/modelio/io.go:71-107 | the node and edge loops return the two pinned snapshots as bundle sections |
| ModelIO.ExportProperties | internal/modelio/io.go:109-126 | the property loop returns the pinned snapshot as a bundle section |
| ModelIO.ExportLatestEnabled | internal/modelio/io.go:29-168 | the export refines its specification on every database, error branches included |
| ModelIO.ImportStatuses | internal/modelio/io.go:198-202 | registers every status of the bundle in order, or fails at the first one when the tenant does not exist |
| ModelIO.ImportTypes | internal/modelio/io.go:203-207 | registers every type of the bundle in order, or fails at the first one when the tenant does not exist |
| ModelIO.ImportNodes | internal/modelio/io.go:223-236 | puts the nodes in order and stops at the first error with what was put still stored |
| ModelIO.ImportEdges | internal/modelio/io.go:238-252 | the same for edges |
| ModelIO.ImportProperties | internal/modelio/io.go:254-267 | the same for properties |
| ModelIO.ImportContracts | internal/modelio/io.go:269-286 | the same for contracts |
| ModelIO.ImportTables | internal/modelio/io.go:223-289 | fills the four tables in order; a later table is untouched when an earlier one fails |
| ModelIO.ImportInto | internal/modelio/io.go:198-289 | registries, then model version, then tables, with the status and change-note fallbacks |
| ModelIO.ImportBundle | internal/modelio/io.go:170-289 | the import refines its specification on every valid database, also when it stops half-way, and leaves the database valid |
| BundleLaws.ExportIsLastWins | internal/modelio/io.go:71-126 | an exported section is the last-write-wins fold over the rows written under the pin |
| BundleLaws.ExportedNodes | internal/modelio/io.go:71-88 | this holds for nodes |
| BundleLaws.ExportedEdges | internal/modelio/io.go:90-107 | for edges |
| BundleLaws.ExportedProperties | internal/modelio/io.go:109-126 | for properties |
| BundleLaws.ExportedContracts | internal/modelio/io.go:128-163 | and for contracts |
| BundleLaws.PutItemsRows | internal/modelio/io.go:223-236 | a loop of puts adds exactly the rows of the items before the first failure |
| BundleLaws.PutItemsStop | internal/modelio/io.go:223-236 | a loop of puts stops exactly at the first item that is rejected, has no existing pin or meets a taken generated key |
| BundleLaws.PutItemsSucceeds | internal/modelio/io.go:223-236 | a loop of puts succeeds iff no item is rejected, every pin exists and every generated key is free |
| BundleLaws.PutItemsSection | internal/modelio/io.go:223-236 | after a loop of puts under a fresh pin the section is the canonical form of the items before the first failure |
| BundleLaws.CreatedModel | internal/modelio/io.go:215-221 | the model version an import creates exists, is empty in all tables, and is the latest enabled one when its status is enabled |
| BundleLaws.NodeSection | internal/modelio/io.go:223-236 | imported nodes read back as the completed nodes of the bundle, last duplicate kept, sorted |
| BundleLaws.EdgeSection | internal/modelio/io.go:238-252 | imported edges likewise |
| BundleLaws.PropertySection | internal/modelio/io.go:254-267 | imported properties likewise |
| BundleLaws.ContractSection | internal/modelio/io.go:269-286 | imported contracts likewise, re-pinned and without extras |
| BundleLaws.NewVersionHasNoExtras | migrations/postgres/0001_init.sql:140-164 | no reason or obligation refers to a contract version that is not stored yet |
| BundleLaws.RegisterAllNames | internal/modelio/io.go:198-207 | registering a list of names adds exactly those names |
| BundleLaws.ImportedRowsKeep | internal/modelio/io.go:223-289 | successful or not, filling the tables leaves each section as the canonical form of what was put, and nothing was left out iff no put failed |
| BundleLaws.ImportedRowsValid | internal/modelio/io.go:223-289 | successful or not, filling the tables keeps the whole database valid |
| BundleLaws.ImportRowsFrame | internal/modelio/io.go:223-289 | filling the tables changes the four tables only |
| RoundTrip.ImportUnfolds | internal/modelio/io.go:170-221 | past its model version an import is the filling of a fresh pin that is already the tenant's latest enabled version |
| RoundTrip.ImportTarget | internal/modelio/io.go:183-196 | a tenant option wins over the bundle's tenant; a known name keeps its tenant, a new one gets the generated id; without a name the import fails and changes nothing |
| RoundTrip.ImportedModelIs | internal/modelio/io.go:209-221 | the model version an import creates: the bundle's lineage or a generated one at its next version, status enabled if asked for, else the bundle's, else draft, and the change-note option before the bundle's note |
| RoundTrip.NodesStop | internal/modelio/io.go:223-236 | the node loop stops at the first node without a type or with a taken generated id |
| RoundTrip.EdgesStop | internal/modelio/io.go:238-252 | the edge loop stops at the first edge without a type or an end |
| RoundTrip.PropertiesStop | internal/modelio/io.go:254-267 | the property loop stops at the first property without owner type, owner or key |
| RoundTrip.ContractsStop | internal/modelio/io.go:269-286 | the contract loop stops at the first contract without type or status or with a taken generated id |
| RoundTrip.ImportStops | internal/modelio/io.go:215-289 | where an import stops is read off the bundle and the earlier database; each section is the canonical form of its elements before the stop, later sections are empty, and the import succeeds iff nothing is cut off |
| RoundTrip.ImportThenExport | internal/modelio/io.go:170-289 | import then export is canonicalisation: for every valid database and every bundle, a successful enabled import is exported as exactly the bundle's rows, defaults filled in, last duplicates kept, sorted by key |
| RoundTrip.ImportThenExportNames | internal/modelio/io.go:198-207 | the exported types and statuses are exactly those of the bundle and those the tenant already had, sorted |
| RoundTrip.FailedImportPublishes | internal/modelio/io.go:215-289 | an enabled import that creates its model version is what the tenant exports from then on even if a put fails: every section up to its cut, sections after the failing one empty |
| RoundTrip.StoredIsExported | internal/modelio/io.go:40-163 | when a pin is the tenant's latest enabled version, its stored sections are what the tenant exports |
| RoundTrip.ImportMovesPointerIff | internal/modelio/io.go:209-221 | an import, failed or not, moves the tenant's latest enabled version iff enabling is asked for or the bundle's model is enabled, a tenant is named and the model version can be created; its rows play no part |
| RoundTrip.BrokenBundleIsPublished | internal/modelio/io.go:215-236 | a concrete bundle whose second node has no type: the import fails for any tenant, the pointer moves, and the tenant exports the first node and no edge |
| RoundTrip.ModelRowCreated | internal/modelio/io.go:215-221 | the model version is created iff its id is given or the generated one is unused |
| RoundTrip.ImportSucceedsIff | internal/modelio/io.go:170-289 | an import succeeds iff a tenant is named, every row has its required fields and generated identifiers are unused; nothing stored earlier can make it fail |
| RoundTrip.ExportIsWellFormed | internal/modelio/io.go:29-168 | every export carries a model id, all required fields and explicit ids |
| RoundTrip.ExportFixedPoint | internal/modelio/io.go:29-289 | any export can be imported into any tenant of any valid database, and exporting again gives identical nodes, edges, properties and model id; contracts come back re-pinned and without reasons and obligations |
| RoundTrip.ExportHeader | internal/modelio/io.go:29-50 | an export fails exactly for an empty or unknown name and for a tenant without an enabled version; otherwise it carries the tenant's name and the lineage, version and note of the most recently created enabled row |
| RoundTrip.ReimportIsStable | internal/modelio/io.go:29-289 | an exported file imported where it came from, without a tenant option, goes to its own tenant, creates none, and the next export has the same name, graph and lineage at a newer version |
| RoundTrip.ExportedNamesSorted | internal/modelio/io.go:51-69 | exported names are strictly sorted |
| RoundTrip.ExportedName | internal/modelio/io.go:51-69 | a name is exported iff it is registered for the tenant |
| RoundTrip.ExportedNodesComplete | internal/modelio/io.go:71-88 | exported nodes are sorted, explicit and already completed |
| RoundTrip.ExportedEdgesComplete | internal/modelio/io.go:90-107 | exported edges are sorted and already completed |
| RoundTrip.ExportedPropertiesComplete | internal/modelio/io.go:109-126 | exported properties are sorted and complete |
| RoundTrip.ExportedContractsComplete | internal/modelio/io.go:128-163 | exported contracts are sorted, explicit and complete |
| Lifecycle.StatusChangePointer | internal/api/httpapi/handlers/model_versions.go:63-88 | SetStatus moves the pointer iff the new status is enabled, and then to the new row; it never disables the latest enabled version |
| Lifecycle.EnablingExportsNothing | internal/api/httpapi/handlers/model_versions.go:77-82 | enabling any existing version through SetStatus makes the tenant's export empty |
| Lifecycle.PutIsRunAlone | internal/storage/sqlstore/graph_repo.go:25-65 | the sequential put is the interleaved one with nothing in between, result and error alike, for rejected requests, given and generated keys, failed checks and missing references |
| Lint.TypeKeyExact | internal/modelio/lint.go:29-32 | "domain:name" equals a required type's key iff domain and name are equal |
| Lint.TypeSet | internal/modelio/lint.go:29-32 | the set built from the types answers membership exactly for names without a colon |
| Lint.LintTypes | internal/modelio/lint.go:34-48 | one MISSING_TYPE per required type that is absent, in order, per mode |
| Lint.LintEdges | internal/modelio/lint.go:78-93 | BAD_REF per dangling end in order, and the exact sets of provided and governed ids |
| Lint.LintCapabilities | internal/modelio/lint.go:95-113 | the capability issues in node order |
| Lint.LintNodes | internal/modelio/lint.go:50-66 | the three lists in bundle order and the set of non-empty ids |
| Lint.LintBundle | internal/modelio/lint.go:26-117 | in both modes the report lists exactly the violated rules in order, and is ok iff there are none |
| Lint.IssueMeaning | internal/modelio/lint.go:26-117 | for every kind of issue and both modes: it is reported iff the rows of the bundle violate that rule, each rule written out on the rows |
| Lint.IssueOrder | internal/modelio/lint.go:26-117 | issues come by kind: types, missing nodes, references, capabilities |
| Lint.BadRefIff | internal/modelio/lint.go:80-86 | BAD_REF occurs iff some edge has a written end that names no node |
| Lint.CapabilityIssueIff | internal/modelio/lint.go:95-105 | CAP_NO_PROVIDER (CAP_NO_POLICY) is reported for a capability iff no provides (governs) edge points to it |
| Lint.CleanIff | internal/modelio/lint.go:26-117 | the enabled-model lint passes iff all rules hold of the bundle |
| Digraphs.AddNodes | internal/api/httpapi/handlers/frontier/analysis.go:86-91 | adding the vertices succeeds iff their ids are distinct |
| Digraphs.BuildGraph | internal/api/httpapi/handlers/frontier/analysis.go:85-102 | building succeeds iff ids are distinct and every edge end is a node; duplicate pairs and their order do not matter |
| Digraphs.DegreesFromRows | internal/api/httpapi/handlers/frontier/analysis.go:166-181 | degrees count distinct predecessors and successors; both are zero iff no row touches the node |
| Digraphs.SumsCountArcs | internal/api/httpapi/handlers/frontier/analysis.go:163-168 | summed degrees count the edges into (out of) the nodes |
| Digraphs.DegreeSums | internal/api/httpapi/handlers/frontier/analysis.go:163-168 | over all nodes the in-degrees and the out-degrees both sum to the number of distinct edges |
| Frontier.IndexEdges | internal/api/httpapi/handlers/frontier/analysis.go:158-164 | the two indexes hold, per id, the incoming and outgoing rows in order |
| Frontier.HolesOfNode | internal/api/httpapi/handlers/frontier/analysis.go:166-242 | the node pass, computed from degrees and indexes, reports what the rows say about the node |
| Frontier.ComponentIndex | internal/api/httpapi/handlers/frontier/analysis.go:250-255 | every vertex is mapped to a component that contains it |
| Frontier.CrossesIff | internal/api/httpapi/handlers/frontier/analysis.go:256-262 | an edge crosses components iff its ends are not mutually reachable |
| Frontier.SingletonIff | internal/api/httpapi/handlers/frontier/analysis.go:263-264 | a component has one node iff that node is mutually reachable with no other |
| Frontier.InterEdges | internal/api/httpapi/handlers/frontier/analysis.go:256-262 | the marked nodes are exactly the ends of crossing edges |
| Frontier.InterIsBridge | internal/api/httpapi/handlers/frontier/analysis.go:256-264 | for a one-node component, crossing components and joining another node are the same |
| Frontier.StructuralHoles | internal/api/httpapi/handlers/frontier/analysis.go:244-274 | the component pass reports the one-node components joined to another node, with their types |
| Frontier.DetectHoles | internal/api/httpapi/handlers/frontier/analysis.go:155-280 | both passes, for any valid component list |
| Frontier.StructuralHoleIff | internal/api/httpapi/handlers/frontier/analysis.go:244-274 | v is a structural hole iff an edge joins it to another node and it is mutually reachable with no other node |
| Frontier.AcyclicStructuralHoles | internal/api/httpapi/handlers/frontier/analysis.go:244-274 | when the only cycles are self-loops, exactly the nodes with a non-self edge are reported |
| Frontier.DescribedIff | internal/api/httpapi/handlers/frontier/analysis.go:248-249 | the comment's description (one-node component with incoming and outgoing edges of other components) in terms of edges from and to other nodes |
| Frontier.ReportedVersusDescribed | internal/api/httpapi/handlers/frontier/analysis.go:244-274 | every node that fits the description is reported; a reported one does not fit exactly when its edges to other nodes all point the same way |
| Frontier.DescriptionFitsIff | internal/api/httpapi/handlers/frontier/analysis.go:244-274 | report and description agree on a graph iff every node joined to another one and mutually reachable with none has edges from and to other nodes |
| Frontier.EndsAreReported | internal/api/httpapi/handlers/frontier/analysis.go:244-274 | on the graph a -> b both ends are reported and neither fits the description |
| Frontier.EndsAreComponents | internal/api/httpapi/handlers/frontier/analysis.go:246-255 | the components of that graph are its two nodes |
| Frontier.NodeHoleIff | internal/api/httpapi/handlers/frontier/analysis.go:166-242 | for each other kind, the rows of the snapshot under which exactly a node is reported |
| Frontier.Boundary | internal/api/httpapi/handlers/frontier/analysis.go:325-348 | the nodes of total degree at most one with degrees and kind, in order |
| Frontier.BoundaryIff | internal/api/httpapi/handlers/frontier/analysis.go:325-348 | a node is a leaf iff no row touches it, a source iff rows leave it to one node and none enters it, a sink iff rows enter it from one node and none leaves it |
| Frontier.EntryKind | internal/api/httpapi/handlers/frontier/analysis.go:325-348 | the kind and the degrees an entry carries |
| Frontier.LeavesAreIsolated | internal/api/httpapi/handlers/frontier/analysis.go:325-348 | the "Leaf node (degree 1)" entries are exactly the isolated nodes of the hole report, of degree 0 |
| Implied.ExactIsUnique | internal/api/httpapi/handlers/frontier/analysis.go:449-496 | exactness fixes the output multiset, so map iteration order does not matter |
| Implied.EmptyIffClosed | internal/api/httpapi/handlers/frontier/analysis.go:447-496 | nothing is implied iff provides is closed under both rules |
| Implied.ChainHasPath | internal/api/httpapi/handlers/frontier/analysis.go:456-460 | the path check never drops a chain whose actor differs from the dependency |
| Implied.IndexLinks | internal/api/httpapi/handlers/frontier/analysis.go:430-443 | the three maps hold each link as often as rows have it; the edge set is exact |
| Implied.FromVia | internal/api/httpapi/handlers/frontier/analysis.go:451-472 | the innermost loop reports each open target as often as it occurs |
| Implied.FromNode | internal/api/httpapi/handlers/frontier/analysis.go:450-473 | the middle loop reports each chain with the product of its multiplicities |
| Implied.Chains | internal/api/httpapi/handlers/frontier/analysis.go:449-496 | so does the map loop, in whatever order it runs |
| Implied.RequirementExact | internal/api/httpapi/handlers/frontier/analysis.go:449-474 | the counts of the requirement rule, the path check discharged |
| Implied.DelegationExact | internal/api/httpapi/handlers/frontier/analysis.go:476-496 | the counts of the delegation rule |
| Implied.DetectImpliedEdges | internal/api/httpapi/handlers/frontier/analysis.go:421-499 | the output multiset is exactly all chains of the two rules whose direct provides edge is missing, with multiplicities, under either convention for paths from a node to itself |
| Implied.ReportedFields | internal/api/httpapi/handlers/frontier/analysis.go:447-496 | field by field: an edge is reported for a rule iff the two rows of that rule exist and the direct row does not (a path to itself aside), and it carries the type of its via node |
| Implied.EachPairOnce | internal/api/httpapi/handlers/frontier/analysis.go:447-496 | a missing edge between different nodes is reported once for every pair of rows that makes it up |
| Waypoint.CountProviders | internal/api/httpapi/handlers/waypoint/analysis.go:107-121 | per id the counter equals the number of provides rows that point to it |
| Waypoint.MarkUnavailable | internal/api/httpapi/handlers/waypoint/analysis.go:135-150 | an id is marked iff it has an availability property that is the boolean false |
| Waypoint.DetectGaps | internal/api/httpapi/handlers/waypoint/analysis.go:67-187 | the gaps of all capabilities in node order |
| Waypoint.GapIff | internal/api/httpapi/handlers/waypoint/analysis.go:152-184 | no_provider iff no row, single_provider iff exactly one row, unavailable iff some availability property of the node is the boolean false |
| Waypoint.RowsVersusProviders | internal/api/httpapi/handlers/waypoint/analysis.go:117-119 | the count is at least the number of distinct providers, zero together with it, and equal to it iff no provider has two rows to the capability |
| Waypoint.SingleRowIff | internal/api/httpapi/handlers/waypoint/analysis.go:117-119 | one row means one provider; one row and one provider are told apart exactly when a sole provider has several rows |
| Waypoint.SingleProviderGapIff | internal/api/httpapi/handlers/waypoint/analysis.go:152-171 | a reported single_provider gap is always right, and the report about a capability is wrong exactly when its only provider has several rows, by leaving the gap out |
| Agreement.BuildIffNoBadRef | internal/api/httpapi/handlers/frontier/analysis.go:85-102 | for every enabled snapshot buildGraph succeeds iff linting its export gives no BAD_REF |
| Agreement.AnalysesAgree | internal/modelio/lint.go:78-105 | for every capability: CAP_NO_PROVIDER iff frontier reports it unprovided or isolated iff waypoint reports no_provider; CAP_NO_POLICY iff frontier reports it ungoverned or isolated |
| LintGate.CanonicalIsKept | internal/modelio/io.go:223-236 | an import keeps exactly the nodes whose id, given or generated, no later node carries |
| LintGate.SurvivorsOfType | internal/modelio/io.go:223-236 | a type of node is exported iff some node of it is kept |
| LintGate.CanonicalEdges | internal/modelio/io.go:238-252 | deduplicating edges keeps which ids are pointed to by which type |
| LintGate.NoEdgeDangles | internal/modelio/lint.go:80-86 | edges of a clean bundle do not come to dangle by an import |
| LintGate.NamelessIsUnpointed | internal/modelio/lint.go:95-105 | no exported edge points to a node that had no id in the bundle |
| LintGate.KeptCapability | internal/modelio/lint.go:95-113 | an exported capability meets the capability rules iff it had an id in the clean bundle |
| LintGate.LintGateIff | internal/modelio/lint.go:26-117 | for every bundle that passes the enabled-model lint and is imported enabled: the export passes it again iff an actor, a policy and a capability are kept and no capability without an id is |
| LintGate.ServedIff | internal/api/httpapi/handlers/waypoint/analysis.go:152-184 | a capability of an enabled snapshot is isolated, unprovided or ungoverned in neither analysis iff edges of both kinds point to it |
| LintGate.LintIsSoundGate | internal/api/httpapi/handlers/frontier/analysis.go:85-102 | after the import of a bundle that passes the lint the graph can always be built, and every capability is served in both analyses iff no capability without an id is kept |
| LintGate.DistinctIdsHoldTheGate | internal/modelio/lint.go:50-66 | explicit, pairwise distinct node ids are enough for a clean bundle to get through |
| LintGate.RepeatedIdsBreakTheGate | internal/modelio/lint.go:50-76 | a concrete bundle with a repeated node id passes the lint, imports into any tenant, and exports a bundle that fails the lint |
| LintGate.NamelessCapabilityBreaksTheGate | internal/modelio/lint.go:95-99 | a concrete bundle with a capability without id passes the lint, imports, and exports that capability without provider |
| Availability.ImportedValuesAreMaps | internal/modelio/io.go:254-267 | imported property values are stored as objects or null |
| Availability.ImportNeverUnavailable | internal/api/httpapi/handlers/waypoint/analysis.go:135-150 | no capability of a freshly imported model is reported unavailable, whatever its availability properties say |
| Availability.SingleProviderIsMissed | internal/api/httpapi/handlers/waypoint/analysis.go:107-171 | on a stored snapshot with one actor providing one capability in two edge domains, no single_provider gap is reported |
| Decisions.Decision.MergeReasons | internal/opa/eval.go:131-137 | appends the text items in order, skipping others |
| Decisions.Decision.MergeObligations | internal/opa/eval.go:139-152 | appends the object items in order, with missing or mistyped parts left empty |
| Decisions.Decision.Merge | internal/opa/eval.go:124-155 | updating the decision in place is combining it with the policy's verdict |
| Decisions.VerdictReadsBack | internal/opa/eval.go:124-155 | every decision can be said by an output and is read back as it was said: action, reasons and obligations with names and properties, in order |
| Decisions.StraysSayNothing | internal/opa/eval.go:131-152 | items of the wrong kind say nothing, wherever they stand |
| Decisions.VerdictReadsFields | internal/opa/eval.go:124-152 | each part of the verdict comes from its own field, and is empty when that field is missing or of the wrong kind |
| Decisions.ObligationReadsFields | internal/opa/eval.go:142-148 | so do name and properties of an obligation |
| Decisions.IndexBlobs | internal/opa/eval.go:23-29 | per id the last node blob that reads as a map |
| Decisions.EvalPolicy | internal/opa/eval.go:33-64 | one policy's output, or the error of its first failing step |
| Decisions.NodeBlobIs | internal/opa/eval.go:23-29 | the blob that counts for an id is that of the last node with the id whose blob reads as an object or null |
| Decisions.EvaluatesIff | internal/opa/eval.go:33-64 | a policy evaluates to an output iff that blob has a non-empty text source for which the evaluator returns the output as an object |
| Decisions.FailsBecause | internal/opa/eval.go:36-43 | it ends in "not found" iff no such node exists and in "no source" iff the node has none |
| Decisions.Eval | internal/opa/eval.go:22-71 | the fold of all outputs when every policy evaluates, otherwise the error of the first that fails and no decision |
| Decisions.CombineMonoid | internal/opa/eval.go:124-155 | merging is associative with the zero decision as unit |
| Decisions.FoldConcat | internal/opa/eval.go:33-70 | folding a concatenated policy list is combining the two folds |
| Decisions.DenyWins | internal/opa/eval.go:122-129 | deny iff some policy says deny, otherwise the first non-empty action |
| Decisions.DeniesIff | internal/opa/eval.go:122-129 | the decision denies iff some policy denies |
| Decisions.FoldCollects | internal/opa/eval.go:131-152 | reasons and obligations are the in-order concatenations over all policies |
| Decisions.FoldSplit | internal/opa/eval.go:131-152 | moving one policy keeps the multisets of reasons and obligations |
| Decisions.PermutationInvariant | internal/opa/eval.go:124-155 | permuting the policies keeps whether the decision denies and both multisets |

## Left out

- ModelIO.ImportBundle: the method runs without interleaving. `InterleavedImport` has the four put loops among other clients; the creation of tenant, names and model version before them is interleaved in `World` only.
- InterleavedImport.InterleavedSections: assumes that no other client is ever about to insert a row of the import's own pin. Such a row would be exported too, as `SectionsAfterAnyRun` says.
- ModelIO.ExportLatestEnabled: reads one state of the database; the original runs one query after another outside a transaction. As long as nothing is written under the exported pin in between, the states show the same sections (`OtherPinsDoNotDisturb`).
- Agreement.AnalysesAgree: the analyses and the export look at the same state of the database.
- Frontier.DetectHoles: strongly connected components enter by their contract (the split of the vertices by mutual reachability), not by the library's algorithm.
- Implied.DetectImpliedEdges: `AllPathsBetween` enters as an answer that is right between different nodes; what it answers from a node to itself is left open and the result is stated for either answer.
- Decisions.Eval: Rego is an arbitrary function from policy and source to a value or a failure; the input document it is given is not built.
- The order of text columns is lexicographic by character; database collations, and UUID parsing and normalisation, are not modelled. Identifiers are text.
- `created_at` is the position in the table of model versions, that is, commit order; clock skew between concurrent creations is not modelled.
- In `World`, types and statuses can be registered for any tenant, which only adds runs.
- A request's validation, pin resolution and, for a status change, its read are one step in `World`; the statements after it interleave freely.
- Generated identifiers (tenants, model versions, nodes, contracts) are parameters, known only to be non-empty.
- Nothing deletes rows, so cascades are absent; the code has no operation that inserts reason or obligation rows, so these tables are given and never grow.
- Transactions, timeouts, driver errors, invalid JSON in a column, file reading and writing, JSON text and number formatting, and values such as arrays that a bundle file may carry but its format does not admit.
- Bundle fields without effect: format version, creation time, deprecated metrics; also issue, hole and gap message texts, and the domain and blob of graph nodes in the analyses.
- Version numbers are unbounded; the 32-bit column width is not modelled.
- HTTP routing and decoding, except the two status handlers; authentication, configuration and the command line.
- `ModelVersions.List`, the tenant, type and status reads other than by name, and the waypoint paths handler, which only calls the graph library.
- The objects table: it has no uniqueness on (tenant, node, version), and the rest is expiry and tags.
- The resolver has types and an interface only.
