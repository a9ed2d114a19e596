# Migration, performance-gate and API-token models

Dafny models of four programs of this repository, with proofs of what each promises over whole runs.

* The whitelist import (`cmd/aicrm-whitelist-import`). It resolves questionnaire submissions and orders to customers in one
  greedy pass that refuses to merge, invents customers for unmatched subjects, copies sanitised rows table by table with a
  receipt for each, hashes everything it reads, and reconciles the target before it commits. SQL queries are filters and
  projections over ordered rows, JSON objects are maps, the target is a value that a refused write discards. What the target's
  constraints refuse is a parameter, so every statement holds for every constraint.
* The performance gate and its data generator (`cmd/aicrm-contact-perf`, `cmd/aicrm-contact-perf-data`). Durations are integer
  nanoseconds, 64-bit words are naturals below 2^64 with wrap-around written out.
* The replayable history imports and the final reconciliation (`cmd/aicrm-v1-domain-import`). Each row is one transaction over a
  put-if-absent journal; the id sequence of the target is never rolled back.
* API client tokens (`cmd/aicrm`): base64url, the JSON of header and claims as it is printed, and the checks of both endpoints. The
  MAC is a parameter of which only the output size is assumed, the JSON reader one of which only reading what is printed is.

Go strings are byte strings; here they are Dafny strings with one character per byte. SHA-256 is a parameter; where two digests
must differ, only the inputs of the run at hand are assumed not to collide. Loops over Go maps are loops that pick any
remaining key.

Each file is one module, in the order of the programs above: `References` to `RowOrder` and `SubjectFacts` (the greedy pass),
`Digest`, `Snapshot`, `CopyRules`, `Target`, `ImportPlan`, `ImportWalk`, `ImportEffects`, `SubjectRows`, `SubjectIdentities`,
`CleanTarget`, `Reconcile`, `ImportGates`, `ImportTables`, `CopiedTables`, `ImportedSubjects`, `ImportExample`, `Sanitised`,
`WalkConditions`, `ImportReceipts`, `ReceiptContents`, `Conservation`, `ImportDigest`, `DigestContent`, `ImportRun` (the
import), `Percentiles` and `Perf*` (the gate), `Words`, `Mix`, `Counting`, `Seed*` (the generator), `HistoryImport`,
`HistoryTerminals`, `HistoryImporter`, `DomainNames`, `Final*`, `Journals`, `JournalMeaning`, `ContactReference` (the history
imports), `Base64Url`, `TokenJson`, `ApiToken`, `TokenMeaning` (tokens). `Reencoding` is encoding/json on integers. `Wrappers`,
`Decimal`, `Hex`, `Sets`, `Sorting` and `Text` serve them all.

## Model

| member | source | states |
|---|---|---|
| `References.QuestionnaireReferences` | cmd/aicrm-whitelist-import/importer.go:662-682 | the reference list of a row: its non-empty identities in fixed order, or its own id when it has none |
| `References.OfShape` | cmd/aicrm-whitelist-import/importer.go:662-682 | every row has at least one reference, none twice, all with one of six fixed entities |
| `References.KeyInjective` | cmd/aicrm-whitelist-import/importer.go:620-624 | the NUL-joined map key of a reference identifies it |
| `ResolutionPass.ResolveQuestionnaireRows` | cmd/aicrm-whitelist-import/importer.go:606-660 | the pass over string-keyed maps succeeds exactly when the specification does, with the specified customers, references and invented customers, whatever order the candidate map yields |
| `ResolutionPass.PlaceRow` | cmd/aicrm-whitelist-import/importer.go:612-658 | one row: refused exactly on an invalid match or two candidates, otherwise the working maps again represent the specification's state |
| `Components.PassComputesComponents` | cmd/aicrm-whitelist-import/importer.go:606-660 | at every prefix of the pass, two rows or existing customers have the same customer exactly when a chain of shared references and matches joins them |
| `Components.SameCustomerIffLinked` | cmd/aicrm-whitelist-import/importer.go:606-660 | two rows of a successful pass get the same customer exactly when they are linked |
| `Components.SucceedsIffNoBridge` | cmd/aicrm-whitelist-import/importer.go:612-632 | the pass succeeds exactly when no row has an invalid match and no row bridges two components formed by earlier rows |
| `RowOrder.ResolvedMeansOneCustomer` | cmd/aicrm-whitelist-import/importer.go:617-632 | a component with two different existing customers is refused in every row order |
| `RowOrder.SomeOrderResolvesIff` | cmd/aicrm-whitelist-import/importer.go:606-660 | a set of rows resolves in some order exactly when every match is valid and no component holds two existing customers |
| `RowOrder.EveryOrderResolvesIff` | cmd/aicrm-whitelist-import/importer.go:606-660 | and in every order exactly when every match is valid and whatever nodes a row touches are already joined by the touched rows alone |
| `RowOrder.OrderMatters` | cmd/aicrm-whitelist-import/importer.go:617-632 | the same two rows resolve in one order and are refused in the other |
| `SubjectFacts.InventedIffUnmatched` | cmd/aicrm-whitelist-import/importer.go:633-643 | a customer is invented exactly for the components that hold no existing customer |
| `SubjectFacts.InventedCustomers` | cmd/aicrm-whitelist-import/importer.go:635-643 | invented ids are consecutive from the maximum; creation time of the component's first row, update time the latest of its rows |
| `SubjectFacts.ListedReferences` | cmd/aicrm-whitelist-import/importer.go:649-658 | a customer's reference list is duplicate-free and holds exactly the references of its rows |
| `SubjectFacts.ReferenceListsDisjoint` | cmd/aicrm-whitelist-import/importer.go:649-658 | no reference is listed for two customers |
| `SubjectIdentities.ResolveQuestionnaireCustomers` | cmd/aicrm-whitelist-import/importer.go:528-604 | the pass is run over each submission and each unassigned product order with the number and least of the customers its identities match; it fails on an identity kind it does not know, and what it returns is explained by the identity rows as in the next row |
| `SubjectIdentities.ResolutionExplained` | cmd/aicrm-whitelist-import/importer.go:528-660 | everyone gets a customer; whoever has a bound identity (unionid, external user, open id or phone for submissions, unionid or external user for orders) gets the customer it is bound to; an existing customer is given only where someone who gets it has an identity bound to it; a customer's references are exactly those its submissions and orders give; an invented customer has the times of its submissions and orders |
| `SubjectRows.MatchIsReal` | cmd/aicrm-whitelist-import/importer.go:533-545 | with intact foreign keys a row's single match names a customer row between 1 and the maximum |
| `Digest.WriteDigest` | cmd/aicrm-whitelist-import/importer.go:861-868 | a record adds entity, NUL, key, NUL, payload, newline to the hashed bytes |
| `Digest.ParseOfStream` | cmd/aicrm-whitelist-import/importer.go:861-868 | a parser splitting on NUL, NUL and newline, with 32 raw bytes for subject references, undoes any sequence of records |
| `Digest.StreamOfParse` | cmd/aicrm-whitelist-import/importer.go:861-868 | and the parser accepts nothing else |
| `Digest.StreamInjective` | cmd/aicrm-whitelist-import/importer.go:861-868 | equal streams come from equal record sequences |
| `Digest.NewlineInPayloadIsAmbiguous` | cmd/aicrm-whitelist-import/importer.go:861-868 | the restriction on payloads is needed: one raw newline and two sequences agree |
| `ImportWalk.Walker.CopyCustomer` | cmd/aicrm-whitelist-import/importer.go:449-477 | an existing customer: without a target it is counted and left at once; with one it is counted only after its row, reference and receipt are accepted. Both ways it is the customer's event of the plan |
| `ImportWalk.Walker.InventCustomer` | cmd/aicrm-whitelist-import/importer.go:483-507 | an invented customer: hashed, inserted and receipted when there is a target, then counted |
| `ImportWalk.Walker.AddReference` | cmd/aicrm-whitelist-import/importer.go:513-524 | a subject reference is hashed and inserted, with neither receipt nor counter |
| `ImportWalk.Walker.CopyRow` | cmd/aicrm-whitelist-import/importer.go:301-331 | a row of a copied table: hashed, then transformed (a missing mapping stops the walk), inserted, and receipted and counted only in tables of a domain |
| `ImportWalk.Walker.LeaveRow` | cmd/aicrm-whitelist-import/importer.go:375-383 | a row that stays behind is counted before its receipt is written |
| `ImportWalk.Walker.LeaveRows` | cmd/aicrm-whitelist-import/importer.go:348-392 | the loop of such a query carries out the events of its rows in order and stops at a refused receipt |
| `ImportWalk.Walker.ImportCustomers` | cmd/aicrm-whitelist-import/importer.go:422-526 | selected customers, invented customers, then references by ascending customer id, and the set of ids brought along |
| `ImportWalk.Walker.CopyTables` | cmd/aicrm-whitelist-import/importer.go:289-339 | the copy loop carries out every table's plan and stops exactly at a row without a customer mapping or a refused write |
| `ImportWalk.Walker.RecordLeftBehind` | cmd/aicrm-whitelist-import/importer.go:348-420 | skipped refunds, rejected orders, rejected refunds and skipped audiences, in that order |
| `ImportWalk.Walker.WalkSource` | cmd/aicrm-whitelist-import/importer.go:278-346 | the walk succeeds exactly when the snapshot is permitted and every write is accepted, and has then carried out the plan |
| `ImportWalk.SourceDigest` | cmd/aicrm-whitelist-import/importer.go:180-204 | the digest mode succeeds exactly on permitted snapshots and returns the hash and counters of the same plan |
| `ImportWalk.AscendingIDs` | cmd/aicrm-whitelist-import/importer.go:503-507 | sorting the collected map keys gives the one ascending list, whatever order the map yields them |
| `ImportEffects.AdvanceEffects` | cmd/aicrm-whitelist-import/importer.go:278-346 | a completed walk has appended exactly its records, counted its rows and applied its writes |
| `ImportEffects.DigestModeAgrees` | cmd/aicrm-whitelist-import/importer.go:239-252 | digest mode refines import mode: the same bytes and the same counters as any successful import, whatever the target enforces |
| `ImportEffects.InsertedRow` | cmd/aicrm-whitelist-import/importer.go:316-320 | every inserted row is the copy of a kept source row |
| `ImportEffects.KeptRowInserted` | cmd/aicrm-whitelist-import/importer.go:316-320 | and every kept source row is copied |
| `CopiedTables.WholeTables` | cmd/aicrm-whitelist-import/importer.go:69-174 | ten tables hold the rows of the source in order and unchanged |
| `CopiedTables.ComesFrom` | cmd/aicrm-whitelist-import/importer.go:69-174 | in eleven further tables every row is the copy, column by column, of a source row that comes along: the four settings; channels and products without their staff, material and tag keys; questionnaires with a zero count; radar links without cover and attachment; complete audience packages, paused, with their groups, segments, versions and members; agents that are not archived, paused and without material |
| `CopiedTables.AllCome` | cmd/aicrm-whitelist-import/importer.go:69-174 | and every row that comes along arrives so |
| `CopiedTables.RefundFactFrom` | cmd/aicrm-whitelist-import/importer.go:93-104 | every refund fact has the id, order, amount, currency, status, reason and creation time of a decided refund and the provider of its product order; its reference is the provider's, or the refund number when that is empty; it is completed at the refund's update exactly for the four completed statuses |
| `CopiedTables.RefundFactArrives` | cmd/aicrm-whitelist-import/importer.go:93-104 | and every decided refund of a product order becomes one |
| `Snapshot.LowerIs` | cmd/aicrm-whitelist-import/importer.go:93-104 | SQL lower changes the case of letters and nothing else |
| `ImportedSubjects.CustomersAre` | cmd/aicrm-whitelist-import/importer.go:422-507 | the customers in the target are the source's customers that an order, entitlement, membership, package, workbench user, submission or unassigned order needs, with their own times, and the invented ones |
| `ImportedSubjects.ReferencesAre` | cmd/aicrm-whitelist-import/importer.go:460-524 | the references in the target are the digest of its own id for each of these source customers and the digests of the references listed for a subject |
| `WalkConditions.PermittedIff` | cmd/aicrm-whitelist-import/importer.go:286-318 | a walk is carried through exactly when every entitlement and membership names a customer brought along, every product order names one or was resolved to one, every submission was resolved, and the rewritten rows are readable once their personal columns are blank |
| `WalkConditions.InventedRecords` | cmd/aicrm-whitelist-import/importer.go:482-506 | an invented customer is hashed under its id with its JSON |
| `WalkConditions.ReferenceRecords` | cmd/aicrm-whitelist-import/importer.go:513-517 | a listed reference is hashed as its digest, under customer, entity and hexadecimal digest |
| `ReceiptContents.ReceiptsSayWhy` | cmd/aicrm-whitelist-import/importer.go:840-859 | every receipt is that of a row that came along, under the domain and tables of its rule, or that of a row left behind for one of five reasons, each with its text and its condition on the source |
| `ReceiptContents.KeyOfRow` | cmd/aicrm-whitelist-import/importer.go:69-174 | the key text of a row is its primary key as text, two columns joined by a colon |
| `Reconcile.ReconcileWhitelist` | cmd/aicrm-whitelist-import/reconcile.go:50-122 | succeeds exactly when every row of the target is clean and the order total fits a bigint; then it reports for nine domains the numbers of receipts, of those that say MIGRATE and of the others, and the order total |
| `Reconcile.ReconcilableMeansClean` | cmd/aicrm-whitelist-import/reconcile.go:69-110 | closed gates mean that orders, submissions, entitlements, memberships and members name a customer of the target, that products, channels, radar links and agents hold no legacy material and every agent list is empty, that packages and agents are paused, that no reference has two customers and that nothing was sent; and one row that is not so fails the reconciliation |
| `Reconcile.CountAgents` | cmd/aicrm-whitelist-import/reconcile.go:91-95 | the count over the agents is zero and no error exactly when every list of every agent can be measured and none makes the agent legacy |
| `Reconcile.CountDomain` | cmd/aicrm-whitelist-import/reconcile.go:59-68 | one pass counts the receipts of a domain, split into migrated and not |
| `Reconcile.NoViolations` | cmd/aicrm-whitelist-import/reconcile.go:69-110 | a gate's count is zero exactly when no row of the table violates it |
| `Reconcile.NoConflicts` | cmd/aicrm-whitelist-import/reconcile.go:75 | the conflict count is zero exactly when no reference is listed for two customers |
| `ImportGates.ContentGateClosed` | cmd/aicrm-whitelist-import/importer.go:69-174 | in the copied products, channels, radar links, agents and package metadata no legacy material is left and everything is paused |
| `ImportGates.OrphanGateIff` | cmd/aicrm-whitelist-import/importer.go:684-775 | after a permitted walk the orphan gate closes exactly when every submission's customer exists: the walk checks all else itself |
| `ImportGates.ForeignKeysMakeSubmissionsReal` | cmd/aicrm-whitelist-import/importer.go:528-660 | and with intact foreign keys every submission's customer is inserted |
| `ImportGates.ConflictGateClosed` | cmd/aicrm-whitelist-import/importer.go:478-524 | no subject reference is inserted for two customers |
| `ImportGates.SuccessfulWalkClosesGates` | cmd/aicrm-whitelist-import/importer.go:278-346 | from an empty target, with intact foreign keys, every successful walk leaves all hard gates closed |
| `ImportExample.AssumptionsHold` | cmd/aicrm-whitelist-import/importer.go:278-346 | the assumptions of the import results hold together on concrete sources: a customer, two orders of any one amount, a submission by someone new, an audience package, and two first-version packages of which one is projected |
| `ImportExample.TotalDecides` | cmd/aicrm-whitelist-import/reconcile.go:76 | on these sources, with every write accepted, the import commits exactly when the two amounts add up to a bigint |
| `ImportExample.OverflowStopsImport` | cmd/aicrm-whitelist-import/reconcile.go:76 | with two orders of 2^62 the walk is permitted, every write is taken and every gate is closed, and still nothing is committed |
| `ImportExample.OnlyUnprojectedArchived` | cmd/aicrm-whitelist-import/importer.go:811-837 | on that source the active package without an editable projection is archived once and the projected one never |
| `Sanitised.OrdersAnonymous` | cmd/aicrm-whitelist-import/importer.go:684-702 | every order in the target is a product order with the buyer's identity blank and the verified customer; its other columns are unchanged exactly when it already had its customer or every number in them survives being read as float64 and printed again, and otherwise they are what that gives |
| `Sanitised.SubmissionsAnonymous` | cmd/aicrm-whitelist-import/importer.go:704-720 | every submission in the target has the respondent's nine identity columns blank and its resolved customer; its other columns are what reading them as float64 and printing them gives, unchanged exactly when every number in them survives that |
| `Sanitised.SmallNumbersKept` | cmd/aicrm-whitelist-import/importer.go:684-720 | numbers up to 2^53 always survive |
| `Sanitised.AmountLost` | cmd/aicrm-whitelist-import/importer.go:684-702 | an order without a customer and with an amount of 2^53 + 1 is inserted with an amount one smaller |
| `Reencoding.NearestWithin` | cmd/aicrm-whitelist-import/importer.go:689-702 | the float64 an integer is read as is no further away than half the spacing of float64 values there |
| `Reencoding.NearestIff` | cmd/aicrm-whitelist-import/importer.go:689-702 | and it is the integer itself exactly when that is a multiple of this spacing |
| `Reencoding.WordFinite` | cmd/aicrm-whitelist-import/importer.go:689-692 | no 64-bit integer makes the reading of a row fail |
| `Reencoding.FiniteIff` | cmd/aicrm-whitelist-import/importer.go:689-692 | the integers that can be read are exactly those whose magnitude is less than 2^1024 - 2^970 |
| `Reencoding.ReadableIff` | cmd/aicrm-whitelist-import/importer.go:689-692 | a value can be read exactly when every integer inside it can |
| `Reencoding.RecodedIff` | cmd/aicrm-whitelist-import/importer.go:689-702 | a JSON value comes back unchanged exactly when every integer in it, at any depth, is printed as it was |
| `ImportTables.TableIsCopied` | cmd/aicrm-whitelist-import/importer.go:289-339 | after an import into an empty target each table holds exactly the copies of the kept source rows, in their order and as often |
| `ImportTables.TotalAfter` | cmd/aicrm-whitelist-import/reconcile.go:76 | the order total that is reconciled is the sum over the product orders of the source, rewritten amounts counted as rewritten |
| `ImportTables.AgentsReadable` | cmd/aicrm-whitelist-import/importer.go:164-172 | whatever the source's agents hold, every list of a copied agent is an array |
| `ImportRun.TargetStore.ImportWhitelist` | cmd/aicrm-whitelist-import/importer.go:206-274 | the whole import commits exactly when resolution, walk, digest and reconciliation agree, the bigint cast and the list lengths included; otherwise nothing becomes visible |
| `ImportRun.CommitsIff` | cmd/aicrm-whitelist-import/importer.go:239-262 | given the dry run's digest, an import into an empty target commits exactly when the walk is permitted, the target takes every write and the amounts of the source's product orders add up to a bigint: neither the digest check, nor a hard gate, nor an agent's list can stop it |
| `ImportDigest.StreamDeterminesRecords` | cmd/aicrm-whitelist-import/importer.go:278-346 | with clean text two walks hash the same bytes exactly when they read the same records |
| `DigestContent.PlanRecords` | cmd/aicrm-whitelist-import/importer.go:278-420 | a walk reads, one after the other, the archive binding, the selected and invented customers, the references, the kept rows of each copied table, and the rows that stay behind |
| `DigestContent.SameDigestSameRows` | cmd/aicrm-whitelist-import/importer.go:239-252 | so two walks hash the same bytes exactly when they agree on each of these parts, key and text, in order |
| `DigestContent.PickedInBoth` | cmd/aicrm-whitelist-import/importer.go:239-252 | in particular a customer, kept row or left row that one of them selects is selected by the other |
| `DigestContent.KeptInBoth` | cmd/aicrm-whitelist-import/importer.go:289-339 | and every kept row of a copied table is, by key and text, a kept row of the other snapshot |
| `ImportReceipts.PlanTally` | cmd/aicrm-whitelist-import/importer.go:289-420 | for every source, key and disposition the walk writes exactly the receipts the copy and rejection rules decide |
| `Conservation.KeyTextInjective` | cmd/aicrm-whitelist-import/importer.go:120-163 | within a table the key text determines the primary key, also for two-column keys |
| `Conservation.AtMostOneReceipt` | cmd/aicrm-whitelist-import/importer.go:840-859 | no source row and no invented customer gets two receipts |
| `Conservation.OrderReceipts` | cmd/aicrm-whitelist-import/importer.go:90-92 | every order gets exactly one receipt: MIGRATE when it names a product, REJECT otherwise |
| `Conservation.RefundReceipts` | cmd/aicrm-whitelist-import/importer.go:93-104 | the disposition of every refund follows its status and its order |
| `Conservation.RefundAccounted` | cmd/aicrm-whitelist-import/importer.go:348-418 | a refund gets exactly one receipt when it has a status and either a parent order or a status that is not final, and none otherwise |
| `Conservation.MetadataReceipts` | cmd/aicrm-whitelist-import/importer.go:777-809 | every audience metadata row gets exactly one of MIGRATE and ARCHIVE_NOT_ON_V2 |
| `Conservation.MigratedRefundHasMigratedOrder` | cmd/aicrm-whitelist-import/importer.go:93-104 | the parent order of a migrated refund is migrated |
| `Conservation.CountsAreReceipts` | cmd/aicrm-whitelist-import/importer.go:329-331 | every counter returned by an import equals its number of receipts in the target |
| `Conservation.InsertedIdsDistinct` | cmd/aicrm-whitelist-import/importer.go:459-502 | the customers a walk inserts have pairwise distinct ids |
| `Percentiles.PercentileIsNearestRank` | cmd/aicrm-contact-perf/main.go:922-933 | percentile returns v exactly when v is the least sample with at least rank per cent of the samples at or below it |
| `Percentiles.PercentileMonotone` | cmd/aicrm-contact-perf/main.go:922-933 | a higher rank never gives a lower percentile |
| `Percentiles.PercentileOfConcat` | cmd/aicrm-contact-perf/main.go:505-528 | the percentile of a concatenation is at most the largest per-case percentile, for any rank and any case sizes |
| `Percentiles.MaxDuration` | cmd/aicrm-contact-perf/main.go:935-943 | the loop finds the largest duration, at least zero |
| `Percentiles.PercentileAtMostLargest` | cmd/aicrm-contact-perf/main.go:922-943 | no percentile exceeds the largest duration |
| `PerfMatrix.Scenarios` | cmd/aicrm-contact-perf/main.go:655-674 | the nested loops list 4096 scenarios, each at the position of its mixed-radix number |
| `PerfMatrix.EveryScenarioOnce` | cmd/aicrm-contact-perf/main.go:655-674 | they leave out none and repeat none |
| `PerfMatrix.ScenarioIDInjective` | cmd/aicrm-contact-perf/main.go:819-822 | no two scenarios of the matrix share an id |
| `PerfPlan.WalkPlan` | cmd/aicrm-contact-perf/main.go:891-908 | one recursion collects node types and forbidden scans in preorder and sums the blocks of the whole tree |
| `PerfPlan.UniqueStrings` | cmd/aicrm-contact-perf/main.go:949-960 | the in-place removal of adjacent repeats, although it overwrites the array it reads |
| `PerfPlan.UniqueOfSorted` | cmd/aicrm-contact-perf/main.go:884-888 | on a sorted list it leaves each string exactly once, in order |
| `PerfReceipt.DecodePlanEvidence` | cmd/aicrm-contact-perf/main.go:867-889 | decoding a plan of readable size with one root gives its tidied evidence |
| `PerfReceipt.DecodedReportsTree` | cmd/aicrm-contact-perf/main.go:867-908 | the evidence reports no forbidden scan exactly when the tree has none, and lists each node type once |
| `PerfReceipt.ValidateReceipt` | cmd/aicrm-contact-perf/main.go:344-409 | accepts exactly the receipts of the right kind, source, environment and dataset whose cases are valid, distinct and add up |
| `PerfMeaning.AcceptedIff` | cmd/aicrm-contact-perf/main.go:344-409 | a receipt is accepted exactly when it names the clean source, the frozen tier and dataset, and 4096 cases of different ids each prove a scenario: 20 samples or more, p95 below 200 ms, a full page with more behind it, two consistent plans without a forbidden scan |
| `PerfMeaning.DecodedShows` | cmd/aicrm-contact-perf/main.go:867-908 | evidence fits its plan: times, blocks and node types of the tree, and no forbidden scan exactly when no node scans a customer table from end to end |
| `PerfMeaning.BlocksOfTree` | cmd/aicrm-contact-perf/main.go:891-908 | the blocks of a plan are those of its root, negative counts aside, and of every subtree |
| `PerfReceipt.AcceptedCoversMatrix` | cmd/aicrm-contact-perf/main.go:371-407 | an accepted receipt covers every scenario exactly once |
| `PerfEvidence.IsExactSHA` | cmd/aicrm-contact-perf/main.go:459-469 | accepts exactly 40 lower-case hex characters |
| `PerfEvidence.Inspected` | cmd/aicrm-contact-perf/main.go:544-570 | an environment is reported exactly for the clean binary of the exact source on the frozen tier, and then always meets the receipt's environment check for a trusted run URL |
| `PerfCase.QueryAsks` | cmd/aicrm-contact-perf/main.go:676-712 | each selector bit asks for its fixed value, each window is bounded on the sides its mode names, and nothing else is asked |
| `PerfCase.QueryDeterminesScenario` | cmd/aicrm-contact-perf/main.go:676-712 | no two scenarios of one page ask the same: a query determines its scenario |
| `PerfCase.QueryCapture.Finish` | cmd/aicrm-contact-perf/main.go:201-211 | the capture yields the queries since it began exactly when they are the two frozen ones in order, and is empty and inactive afterwards |
| `PerfCase.CallRepository` | cmd/aicrm-contact-perf/main.go:824-832 | every statement of a call passes the tracer, in order, and is kept only while the capture is active |
| `PerfCase.ValidateScenarioPage` | cmd/aicrm-contact-perf/main.go:802-810 | a page is valid exactly when it is full, continues, and does not overlap the page before it |
| `PerfCase.ExecuteCase` | cmd/aicrm-contact-perf/main.go:728-800 | a scenario is measured exactly when its anchor, warm-ups, captured call and samples all return valid pages, the captured call sends the two frozen queries, and both explain; the durations are those of the samples |
| `PerfMeaning.CaseRunIff` | cmd/aicrm-contact-perf/main.go:728-801 | a scenario yields a run exactly when, after the first page for a continuation, the warm-ups, the captured call and the samples all return a full page with more behind it and nobody repeated, the captured call sends the count and then the list query and nothing else of the two, and both plans decode; only the samples are timed |
| `PerfRun.Execute` | cmd/aicrm-contact-perf/main.go:471-541 | there is a report exactly for the frozen environment and dataset; it passes exactly when every scenario is measured and every case is under the limit with no forbidden scan; the run succeeds exactly when its receipt is accepted too, and on a plausible bench exactly when its report passes, which is when environment and dataset are the frozen ones and every scenario is measured and fast |
| `PerfMeaning.ReportMeans` | cmd/aicrm-contact-perf/main.go:471-541 | the report gives for each of the 4096 scenarios the nearest-rank percentiles and the maximum of its own samples, its page and its plans, and the same over all samples |
| `PerfRun.GlobalGateImplied` | cmd/aicrm-contact-perf/main.go:519-523 | per-case limits already imply the global p95 gate |
| `PerfRun.PassedIsAccepted` | cmd/aicrm-contact-perf/main.go:534-541 | with durations that are not negative and plausible plans a report that passes always satisfies its own receipt contract, environment, dataset and p50 <= p95 <= max included |
| `Words.UnfoldOfFold` | cmd/aicrm-contact-perf-data/main.go:540-546 | x ^ (x >> k) can be undone on 64-bit words when three shifts clear the word |
| `Words.TimesInverse` | cmd/aicrm-contact-perf-data/main.go:540-546 | wrapping multiplication by a constant is undone by its inverse modulo 2^64 |
| `Mix.Mix64` | cmd/aicrm-contact-perf-data/main.go:540-546 | the step-by-step mixing gives a word from which the input can be recovered |
| `Mix.MixBijective` | cmd/aicrm-contact-perf-data/main.go:540-546 | mix64 is a bijection on 64-bit words |
| `Mix.SeededInjective` | cmd/aicrm-contact-perf-data/main.go:536-538 | for one seed and salt two indices give the same value exactly when they are equal |
| `Counting.ResiduesDiffer` | cmd/aicrm-contact-perf-data/main.go:513-514 | i -> a*i + s modulo n is injective for coprime a and n |
| `Counting.CoprimeCount` | cmd/aicrm-contact-perf-data/main.go:506-515 | of n consecutive indices exactly d have a residue below d, for every coprime multiplier and offset |
| `SeedData.NoOverflowIff` | cmd/aicrm-contact-perf-data/main.go:513 | the uint64 arithmetic wraps for no customer exactly when the seed is not negative or far below zero |
| `SeedData.DeletedCount` | cmd/aicrm-contact-perf-data/main.go:459-526 | for every 64-bit seed the number of deleted customers is 10000, minus the hits at the plain offset and plus the hits at the offset shifted by 2^64 modulo 199000 among the first customers, whose sums a negative seed leaves unwrapped |
| `SeedData.DeletedExactlyIff` | cmd/aicrm-contact-perf-data/main.go:459-526 | it is 10000 exactly for the seeds for which those two numbers of hits agree |
| `SeedData.DeletedExactly` | cmd/aicrm-contact-perf-data/main.go:459-526 | exactly 10000 of 200000 customers are deleted whenever nothing wraps |
| `SeedData.DeletedForEverySeed` | cmd/aicrm-contact-perf-data/main.go:459-526 | hence for every non-negative seed |
| `SeedData.WrappingSeedMiscounts` | cmd/aicrm-contact-perf-data/main.go:506-515 | for the negative seed -199000 the count is 9999 |
| `SeedCustomers.DeterministicCustomer` | cmd/aicrm-contact-perf-data/main.go:459-495 | the ordinary record and the fields the hot cohort overwrites |
| `SeedMeaning.OrdinaryFields` | cmd/aicrm-contact-perf-data/main.go:463-480 | which random value decides each field of an ordinary customer, by day and second of its instants |
| `SeedMeaning.HotFields` | cmd/aicrm-contact-perf-data/main.go:481-493 | the fixed fields and the instants of a hot customer |
| `SeedMeaning.NobodyElse` | cmd/aicrm-contact-perf-data/main.go:460-462 | outside the 200000 indices there is only the empty record |
| `SeedMeaning.TagTable` | cmd/aicrm-contact-perf-data/main.go:442-449 | the tag table gives each customer exactly the tags of its record |
| `SeedMeaning.HotCounted` | cmd/aicrm-contact-perf/main.go:628-629 | who is counted for the two hot queries, by fields and dates |
| `SeedMeaning.WindowCounted` | cmd/aicrm-contact-perf/main.go:630-635 | who is counted before, within and behind the two windows |
| `SeedMeaning.DeletedFormula` | cmd/aicrm-contact-perf-data/main.go:506-515 | who is deleted, for a seed that is not negative |
| `SeedMeaning.ValueUnmixed` | cmd/aicrm-contact-perf-data/main.go:536-538 | the word that is mixed, with the constants that spread index and salt |
| `SeedMeaning.HotAnswersEveryScenario` | cmd/aicrm-contact-perf/main.go:676-712 | every hot customer answers every scenario of the gate that asks for its half, whatever selectors and windows |
| `SeedMeaning.ClosedScenarioIsHotQuery` | cmd/aicrm-contact-perf/main.go:676-712 | the most selective scenario asks for exactly the hot query |
| `SeedCustomers.RecordValid` | cmd/aicrm-contact-perf-data/main.go:459-504 | every customer refers to existing stages, staff and channels, has three different tags, and the deletion flag that is counted |
| `SeedCustomers.TagRowsDiffer` | cmd/aicrm-contact-perf-data/main.go:442-449 | all 600000 customer-tag rows differ |
| `SeedCustomers.HotCohortMatches` | cmd/aicrm-contact-perf-data/main.go:480-493 | every hot customer satisfies the hot query of both programs |
| `SeedCustomers.DatasetAcceptedIff` | cmd/aicrm-contact-perf/main.go:617-653 | of all those demands only two can fail, for any 64-bit seed: the deleted count, when wrapping spoils it, and customers on both sides of both windows |
| `SeedCustomers.DatasetAccepted` | cmd/aicrm-contact-perf/main.go:617-653 | for every non-negative seed the generated data meets the gate's demands on the dataset exactly when some customer lies on either side of both time windows |
| `HistoryImport.Replayed` | internal/contact/app/wecom_contact_history.go:80-95 | a row handled once is replayed with the same disposition in every later state, and changes nothing |
| `HistoryImport.CommittedRow` | cmd/aicrm-v1-domain-import/wecom_contact_history.go:288-326 | a committed row has its terminal, with the disposition its outcome reports |
| `HistoryImport.TerminalsNeverChange` | cmd/aicrm-v1-domain-import/internal/v1domain/journal.go:1649-1714 | over whole runs no terminal is altered or lost |
| `HistoryImport.RestartEquivalence` | cmd/aicrm-v1-domain-import/wecom_contact_history.go:219-366 | stopping after any prefix of rows and running again ends with the journal, target and dispositions of one uninterrupted run |
| `HistoryImport.RestartAfterKill` | cmd/aicrm-v1-domain-import/wecom_contact_history.go:219-366 | a run killed inside a row after the id sequence moved on, and started again: it stops at the same row or not at all, imports and quarantines the same rows for the same reasons, and its later targets hold the same facts under ids shifted by the gap |
| `HistoryImport.RestartAfterAttempts` | cmd/aicrm-v1-domain-import/wecom_contact_history.go:219-366 | the same for any number of attempts, each killed or refused after any number of rows with any number of ids lost: the run that is let through decides every row as one uninterrupted run does and holds the same facts, under ids higher by no more than the ids lost |
| `HistoryImport.CompleteRerun` | cmd/aicrm-v1-domain-import/wecom_contact_history.go:219-366 | a second complete run reports every row as replayed and leaves the state alone |
| `HistoryImport.FailureIsStable` | cmd/aicrm-v1-domain-import/wecom_contact_history.go:368-385 | a run refused at a row for what is recorded is refused there again and adds nothing |
| `HistoryImport.TallyTotals` | cmd/aicrm-v1-domain-import/wecom_contact_history.go:178-180 | imported plus quarantined is the number of rows exactly when the run was not stopped |
| `HistoryImport.EveryRowHasTerminal` | cmd/aicrm-v1-domain-import/wecom_contact_history.go:288-366 | after a completed run each row has the terminal of its decision, imported exactly when nothing quarantines it |
| `HistoryTerminals.EveryTerminalIsRight` | cmd/aicrm-v1-domain-import/wecom_contact_history.go:288-366 | after a run that was not stopped a row that could not be imported is quarantined without target for the adapter's own reason, the fixed reason of its table when it gave none, or the refused-target reason of its table; every other row not recorded before is imported with its fact in the target under the recorded id and digest |
| `HistoryTerminals.BothTablesRight` | cmd/aicrm-v1-domain-import/wecom_contact_history.go:288-328 | the same for both tables after an import from an empty journal |
| `HistoryTerminals.RecordedRow` | internal/contact/app/wecom_contact_history.go:67-95 | an importable row that is recorded already is replayed exactly when the record is the receipt of this fact and the target still digests to it; otherwise it is refused and nothing changes |
| `HistoryTerminals.CountersAreRows` | cmd/aicrm-v1-domain-import/wecom_contact_history.go:315-326 | the counters are the numbers of rows that could be imported, that could not, and that were recorded before the run |
| `HistoryImporter.ReadRows` | cmd/aicrm-v1-domain-import/wecom_contact_history.go:264-286 | a table is read exactly when its rows are numbered from one, complete, of that table and with distinct keys |
| `HistoryImporter.Database.WriteFact` | internal/contact/app/wecom_contact_history.go:67-116 | the writer replays a matching receipt or creates the target and records one |
| `HistoryImporter.Database.RecordQuarantine` | cmd/aicrm-v1-domain-import/wecom_contact_history.go:368-385 | a quarantine is recorded once and accepted again only when identical |
| `HistoryImporter.Database.ImportRow` | cmd/aicrm-v1-domain-import/wecom_contact_history.go:288-326 | one row's transaction is committed or discarded as a whole, as the step function says |
| `HistoryImporter.Database.Import` | cmd/aicrm-v1-domain-import/wecom_contact_history.go:219-262 | both tables in order; on success from an empty journal every row of both tables has the right terminal, and the imported and quarantined counters of each table are the numbers of its rows |
| `HistoryImporter.RestartInSecondTable` | cmd/aicrm-v1-domain-import/wecom_contact_history.go:219-262 | an import stopped anywhere in the second table and started again replays the first table and finishes alike |
| `HistoryImporter.SecondImportReplays` | cmd/aicrm-v1-domain-import/wecom_contact_history.go:219-262 | a second import after a complete one replays every row of both tables |
| `DomainNames.NamesAscend` | cmd/aicrm-v1-domain-import/final_reconcile.go:68-109 | the 40 names in the order of their positions are strictly ascending, byte by byte |
| `FinalDomains.SameVersionIff` | cmd/aicrm-v1-domain-import/final_reconcile.go:68-109 | two domains have the same import version string exactly when they are equal or both among the five of the first package |
| `FinalDomains.ThirtySixVersions` | cmd/aicrm-v1-domain-import/final_reconcile.go:68-109 | the 40 import version strings are 36 different ones |
| `FinalDomains.ValidateManifest` | cmd/aicrm-v1-domain-import/final_reconcile.go:202-231 | accepts exactly the sealed headers with 40 known, distinct domains |
| `FinalDomains.ListsEveryDomain` | cmd/aicrm-v1-domain-import/final_reconcile.go:211-230 | a valid manifest lists every domain of the table exactly once |
| `FinalScopes.ManifestIff` | cmd/aicrm-v1-domain-import/final_reconcile.go:202-230 | the accepted manifests are those with the one header and the 40 domains in any order |
| `FinalDomains.GroupByVersion` | cmd/aicrm-v1-domain-import/final_reconcile.go:613-623 | the loop gathers each version's domains in the order of their names |
| `FinalDomains.GroupsPartition` | cmd/aicrm-v1-domain-import/final_reconcile.go:613-623 | for every manifest order the 40 domains are partitioned into 36 groups, one for each import version string, each in strictly ascending order of names |
| `FinalDomains.GroupsIgnoreOrder` | cmd/aicrm-v1-domain-import/final_reconcile.go:613-623 | the groups do not depend on the order of the manifest |
| `FinalReconcile.LoadCurrentReceiptCounts` | cmd/aicrm-v1-domain-import/final_reconcile.go:478-512 | succeeds exactly when every receipt of the domain's version and tables has its digests, a known disposition and, if imported, a target; then receipts, imported, archived, quarantined and verified are the numbers of those receipts |
| `FinalReconcile.TallyBalances` | cmd/aicrm-v1-domain-import/final_reconcile.go:439-441 | valid rows always split into the three dispositions |
| `FinalReconcile.ReconcileFinalDomain` | cmd/aicrm-v1-domain-import/final_reconcile.go:434-474 | the counts of one domain, or failure exactly where one of its checks fails |
| `FinalReconcile.TotalOfSorted` | cmd/aicrm-v1-domain-import/final_reconcile.go:262-276 | a scope's total does not depend on the order of its domains |
| `FinalReconcile.Preflight` | cmd/aicrm-v1-domain-import/final_reconcile.go:320-388 | succeeds exactly when every scope is sealed by a covering receipt or absent; the missing list is exactly the domains of unsealed scopes, in the order of their names |
| `FinalScopes.DomainCountsIff` | cmd/aicrm-v1-domain-import/final_reconcile.go:434-476 | what a counted domain proves: sound and verified receipts, counted, as many as its archived rows or as its stored reconciliation says |
| `FinalScopes.SumOfMore` | cmd/aicrm-v1-domain-import/final_reconcile.go:514-523 | archived source rows are added up over the tables |
| `FinalScopes.SealedScopesAreCounted` | cmd/aicrm-v1-domain-import/final_reconcile.go:322-386 | after a preflight that passes the numbers stored for a sealed scope are the numbers of its receipts, all sound and verified, and a scope that is not sealed has none |
| `FinalScopes.PreflightIff` | cmd/aicrm-v1-domain-import/final_reconcile.go:320-432 | a preflight passes exactly when the archive is ready, only versions of known domains occur, and every version is either sealed with the total of its domains or without receipts |
| `FinalReconcile.ReconcileDomainsAndGroups` | cmd/aicrm-v1-domain-import/final_reconcile.go:255-289 | passes exactly when every domain reconciles and every group is covered by its stored receipt |
| `FinalReconcile.NothingMissingIff` | cmd/aicrm-v1-domain-import/final_reconcile.go:340-421 | on a snapshot with known versions a preflight with nothing missing and the final domain and group checks agree, both ways |
| `Base64Url.DecodeOfEncode` | cmd/aicrm/api_client_token.go:274-279 | decoding undoes encoding for every byte string |
| `Base64Url.OnlyCanonical` | cmd/aicrm/api_client_jwt_auth.go:150-157 | with the re-encoding comparison exactly the canonical encodings are accepted |
| `Base64Url.DecoderSkipsLineBreaks` | cmd/aicrm/api_client_jwt_auth.go:150-157 | without the comparison text broken across lines would be accepted |
| `TokenJson.ParseOfRender` | cmd/aicrm/api_client_jwt_auth.go:47-56 | reading the printed claims gives them back |
| `TokenJson.RenderOfParse` | cmd/aicrm/api_client_jwt_auth.go:47-56 | the reader of the fixed shape reads nothing but printed claims |
| `TokenJson.FixedShapeIsLeast` | cmd/aicrm/api_client_jwt_auth.go:47-56 | any reader that gives printed claims back reads everything the fixed-shape reader reads, alike |
| `ApiToken.Issue` | cmd/aicrm/api_client_token.go:74-134 | the answer to every parsed request: unavailable, invalid client, access denied, invalid target, invalid scope, in this order and each under its condition, or a signed token that claims the client, its version and its lifetime |
| `ApiToken.SignedReads` | cmd/aicrm/api_client_token.go:262-279 | a signed token decodes to its claims, for every JSON reader that gives printed header and claims back |
| `ApiToken.IssuedAcceptedIff` | cmd/aicrm/api_client_jwt_auth.go:83-131 | for every such reader a token issued at iat is accepted at t exactly when iat is past the epoch (at least 1), iat - 30 <= t < exp + 30, and the credential is still active, unchanged in id and version, and allows the lifetime |
| `ApiToken.AcceptedWasSigned` | cmd/aicrm/api_client_jwt_auth.go:103-131 | whatever JSON the reader takes, a token that is accepted carries the MAC of its first two parts, each the one canonical encoding |
| `TokenMeaning.VerifyIff` | cmd/aicrm/api_client_jwt_auth.go:103-137 | a header is verified to claims exactly when it is one bearer token made of canonical encodings of an HS256 header, of a payload that reads as the claims and of their MAC, and the instant is within their time |
| `TokenMeaning.AuthenticateDecides` | cmd/aicrm/api_client_jwt_auth.go:83-101 | the answer to every presented token: its client when the credential stands behind the claims, unavailable when the store is, unauthorized otherwise |
| `Journals.Journal.Record` | cmd/aicrm-v1-domain-import/internal/v1domain/journal.go:1649-1714 | a terminal is stored once; the same one is accepted again, any other refused |
| `Journals.OnlyCanonicalMetadata` | cmd/aicrm-v1-domain-import/customer_timeline_history.go:168-191 | metadata yields a field digest exactly when it is the canonical lower-case record of that non-zero digest |
| `Journals.PrintedIdentifier` | cmd/aicrm-v1-domain-import/internal/v1domain/journal.go:1760-1772 | a source identifier prints back exactly when it is 64 lower-case hex characters |
| `Journals.IdentifierRoundTrip` | cmd/aicrm-v1-domain-import/internal/v1domain/journal.go:1760-1772 | every source key is read back from its identifier |
| `Journals.RecordTimeline` | cmd/aicrm-v1-domain-import/customer_timeline_history.go:81-102 | what is recorded is what is loaded afterwards |
| `Journals.TimelineRoundTrip` | cmd/aicrm-v1-domain-import/customer_timeline_history.go:81-136 | recording and reading a timeline receipt undo each other |
| `Journals.TimelineReadsCanonical` | cmd/aicrm-v1-domain-import/customer_timeline_history.go:126-136 | a terminal reads as a timeline receipt only in its one canonical form, decimal target id included |
| `Journals.TimelineDecisionRoundTrip` | cmd/aicrm-v1-domain-import/customer_timeline_history.go:115-166 | a recorded timeline quarantine reads back unchanged |
| `Journals.AudienceRoundTrip` | cmd/aicrm-v1-domain-import/audience_activity_history.go:76-148 | an audience receipt is loaded again exactly when its source key is not zero |
| `Journals.AudienceDecisionRoundTrip` | cmd/aicrm-v1-domain-import/audience_activity_history.go:128-173 | a recorded audience quarantine is loaded again exactly when its field digest is not zero |
| `Journals.AudienceJournal.RecordDecision` | cmd/aicrm-v1-domain-import/audience_activity_history.go:112-137 | over both audience journals a recorded decision is what is loaded exactly when its field digest and key are not zero and, for a member event, no package run holds the key already |
| `Journals.ShadowedEvent` | cmd/aicrm-v1-domain-import/audience_activity_history.go:112-137 | a member event recorded under the key of a package run is not what is loaded: a concrete input |
| `Journals.LooseTargetIDs` | cmd/aicrm-v1-domain-import/audience_activity_history.go:138-148 | the audience journal reads target id 007, the timeline journal does not |
| `Journals.WeComRoundTrip` | cmd/aicrm-v1-domain-import/wecom_contact_history.go:139-159 | the two WeCom conversions are inverse to each other |
| `JournalMeaning.RecordableIff` | cmd/aicrm-v1-domain-import/internal/v1domain/journal.go:1663-1674 | imports have a target and no reason, archived and quarantined rows a reason and no target; nothing else is recorded |
| `JournalMeaning.CheckedIff` | cmd/aicrm-v1-domain-import/customer_timeline_history.go:81-102 | which receipts are recorded and as what: those whose target came from the same row and digests to what they say |
| `JournalMeaning.TimelineDecisionIff` | cmd/aicrm-v1-domain-import/customer_timeline_history.go:115-124 | which quarantine decisions the timeline journal takes, and the entry they become |
| `JournalMeaning.AudienceDecisionIff` | cmd/aicrm-v1-domain-import/audience_activity_history.go:128-137 | which quarantine decisions the audience journals take, and the entry they become |
| `JournalMeaning.TimelineLoadIff` | cmd/aicrm-v1-domain-import/customer_timeline_history.go:65-136 | a receipt is loaded exactly when the journal holds under its key the one entry such a receipt is recorded as |
| `JournalMeaning.AudienceLoadIff` | cmd/aicrm-v1-domain-import/audience_activity_history.go:112-173 | what is loaded under a key: the package run when there is one, otherwise the member event, when it reads as a decision |
| `JournalMeaning.WeComIff` | cmd/aicrm-v1-domain-import/wecom_contact_history.go:139-159 | which WeCom receipts are recorded, and the entry without metadata they become |
| `Text.TrimmedIff` | cmd/aicrm/api_client_jwt_auth.go:104-111 | strings.TrimSpace leaves a text alone exactly when no White_Space character begins or ends it, byte tables against code points |
| `ContactReference.LoadIdentityMaps` | cmd/aicrm-v1-domain-import/contact_reference_references.go:276-312 | built exactly for archives whose rows are in order, adapt and parse, and agree with their envelopes in id and three non-zero digests, keys distinct; then the candidates of every external user are those of a filtered scan in the same order: what the rows with usable, unredacted texts offer for that user |
| `ContactReference.ResolveIdentity` | cmd/aicrm-v1-domain-import/contact_reference_references.go:180-215 | the result, failure included, is the outcome of the candidates: unresolved when one belongs to another corporation, otherwise failed when one conflicts, otherwise the single identity found |
| `ContactReference.FoundIff` | cmd/aicrm-v1-domain-import/contact_reference_references.go:217-266 | a candidate is found exactly when lineage and receipt were imported by the run with the same two 32-byte digests and the identity has declared or verified evidence of the very user under the key version |
| `ContactReference.PassedOverIff` | cmd/aicrm-v1-domain-import/contact_reference_references.go:240-248 | it is passed over exactly when nothing was imported for it or it was quarantined properly; anything else conflicts |
| `ContactReference.FailedIff` | cmd/aicrm-v1-domain-import/contact_reference_references.go:188-205 | resolving fails exactly when all candidates are of the corporation and one conflicts |
| `ContactReference.ResolvedIff` | cmd/aicrm-v1-domain-import/contact_reference_references.go:180-215 | an identity is the outcome exactly when all candidates are in the resolver's corporation, none conflicts and it is the one found |
| `ContactReference.OrderDoesNotMatter` | cmd/aicrm-v1-domain-import/contact_reference_references.go:193-214 | no outcome, failure included, depends on the order of the candidates or on repeats |
| `ContactReference.ArchiveOrderDoesNotMatter` | cmd/aicrm-v1-domain-import/contact_reference_references.go:276-312 | nor on the order of the archive |

## Left out

- Database, HTTP, file, flag and docker plumbing; route tables and wiring in cmd/aicrm; configuration, cleanup and linter commands: they would add only single-branch facts.
- SHA-256, HMAC, clocks and floating-point milliseconds: parameters and integers. The digests in import receipts are represented by the key and payload they are taken of.
- ResolutionPass.ResolveQuestionnaireRows: does not model the wrap-around of a customer id past 2^63 - 1; ids are unbounded integers.
- Numbers in JSON are integers: the DOUBLE PRECISION column `total_score` of a submission and decimals inside jsonb columns are not represented. Which digits encoding/json prints for a float64 beyond 2^53 is a parameter. `->>` is modelled for text and numbers only.
- ImportGates.SuccessfulWalkClosesGates: for an empty target, whose source has typed columns and intact foreign keys (an identity names a customer row); relations the import never touches are absent.
- Conservation.AtMostOneReceipt: needs the primary keys of the source's receipted tables and the foreign key from identities to customers, which the database enforces.
- Import runs, sequences and catalogue counters refreshed after the walk (cmd/aicrm-whitelist-import/importer.go:233-236 and 253-258), and the validation of source and target schemas; the refreshed counters are not part of any gate. The `hxc` domain is copied and receipted but not reconciled by the code, and so not here.
- Json instants of invented customers are printed as numbers; only their order matters to the code.
- PerfReceipt.ValidateReceipt: parsing the timestamp and the run URL are parameters; latencies are integers instead of float milliseconds. PerfPlan.WalkPlan: block counts are unbounded integers.
- PerfCase.ExecuteCase: what the repository and EXPLAIN answer to each call is a parameter, the lock of the capture is not modelled. PerfEvidence.Inspected: reading the machine and the build information is left out.
- SeedCustomers.DatasetAccepted: whether customers lie on both sides of the windows for the program's one fixed seed, and which stages, staff and tags occur, are finite computations and left out; pg_trgm's similarity is a parameter of which only similarity of a word to itself is assumed.
- HistoryImport: field-by-field value copies, validity rules and digests of the two kinds of observation are parameters; target ids are numbers there, their text is in Journals. HistoryImport.RestartAfterKill and HistoryImport.RestartAfterAttempts assume that no digest is zero, that ids come from the sequence, and the distinct row keys that reading a table checks.
- FinalDomains: a domain is the position of its name in the sorted table. Identity mapping, editable projections and external effects of the final reconciliation are further independent checks and left out.
- TokenJson.RenderOfParse: encoding/json also reads reordered, spaced or escaped JSON, so the results about tokens take the reader as a parameter of which only reading what is printed is assumed.
- ApiToken.Issue: form parsing and Basic credentials come before it and are left out; the policy is taken as already decoded, the source check as a Boolean.
- ContactReference.LoadIdentityMaps: the adapter of a row, encoding/json and UTF-8 validity are parameters; white space is given by its UTF-8 bytes. ContactReference.ResolveIdentity: locks and failing queries are not modelled; the source id stands for the source key derived from it.
