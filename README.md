# Phenotype import and browser core, in Dafny

This project models the core of a GWAS results browser. The core has two sides.

**The import script** reads a phenotype CSV (`database/import/import-phenotype.js`). It:
- normalises every record (trim, NULL sentinels, numeric ids, `ordinal` to `categorical`);
- reorders the records so that every parent comes before its children;
- appends four test phenotypes whose ids lie above every real id;
- inserts each record and reconciles the list partitions of `phenotype_variant` and `phenotype_aggregate`, so that partition `id` holds exactly the sub-partitions `id_all`, `id_female` and `id_male`.

**The browser client** covers:
- the Redux action creators and `rootReducer`;
- the correlation heatmap (`getZColor`, `getZText`, the matrices and the truncated tick labels);
- the variant lookup (query parameters from the typed variant, and the tagged rows followed by "not found" placeholders);
- the summary-table page number;
- the phenotype page (`getParent`, `handleChange`, and the breadcrumb handlers).

Modules, one per concern:

| module | file | models |
|---|---|---|
| `Common` | common.dfy | `Option`, `Result` |
| `JsString` | js_string.dfy | `trim`, ASCII `toLowerCase`, `indexOf`, `replace` of the first occurrence, `split` on one character, decimal digits |
| `PhenotypeRecord` | phenotype_record.dfy | JavaScript numbers from `+s` (`Int` or `NaN`), and the `on_record` normaliser |
| `Sequencer` | sequencer.dfy | the parent-first reordering (`addParent` and the `while` loop), as specification functions and as methods proved equal to them |
| `TestFixtures` | fixtures.dfy | `maxId`, `Math.max` on numbers that may be NaN, and the four test phenotypes |
| `PartitionStore` | partition_store.dfy | the database as a class: the `phenotype` rows, the partition layout, and the statements the script issues |
| `ImportDriver` | import_driver.dfy | the whole run: parse, order, add fixtures, insert and reconcile, return the count |
| `JsValue` | js_value.dfy | JSON values, object spread |
| `Actions` | actions.dfy | action types, creators, display names, page numbers |
| `Reducers` | reducers.dfy | `rootReducer` |
| `Heatmap` | heatmap.dfy | `drawHeatmap`'s lookups, matrices and tick labels |
| `VariantLookup` | variant_lookup.dfy | `lookupVariants` |
| `PhenotypesPage` | phenotypes_page.dfy | `getParent`, `handleChange` and the breadcrumb handlers, with `Array.prototype.splice` |

Three behaviours of the import on unusual input, as the code has them:

- **Non-numeric ids.** `+record.id` turns a non-numeric `id` into `NaN` (database/import/import-phenotype.js:106), and parsing carries on. The run then fails at the first statement that uses that id: the `INSERT` (assuming the database rejects a NaN `id`; see Left out), or the `ADD PARTITION ... VALUES IN (NaN)` in partitions-only mode. `ImportDriver.ImportPhenotypes` returns an error exactly then. A `NaN` id also makes the fixture ids `NaN` (`TestFixtures.NaNIdPoisonsFixtures`).
- **Cycles.** Nothing detects a cycle in the parent relation. The reordering always terminates and keeps every record (`Sequencer.SequenceIsPermutation` holds for all inputs). The parent-first guarantee is proved under a rank map that witnesses acyclicity.
- **Null ids.** A field reading `NULL` becomes `null`, and `+null` is 0. So a null `id` becomes 0, and the run goes on with id 0.

## Model

| member | source | states |
|---|---|---|
| JsString.TrimShape | database/import/import-phenotype.js:100 | `trim` removes only whitespace, only from the ends, and leaves no whitespace at either end |
| JsString.TrimIdempotent | database/import/import-phenotype.js:100 | trimming a trimmed string changes nothing |
| JsString.AsciiLower | client/src/services/actions.js:857-858 | `toLowerCase` keeps the length and lowercases each character |
| JsString.IndexOf | client/src/services/actions.js:858 | the index `replace` acts on is the first occurrence, or -1 when there is none |
| JsString.Split | client/src/services/actions.js:859 | `split(':')` yields at least one piece and no piece contains the separator |
| JsString.SplitJoin | client/src/services/actions.js:859 | joining the pieces with the separator gives back the string |
| JsString.SplitAt | client/src/services/actions.js:859-861 | text before the first separator is the first piece and the rest splits on its own |
| JsString.DigitsRoundTrip | database/import/import-phenotype.js:106 | the decimal digits of a natural number read back as that number |
| PhenotypeRecord.ToNumber | database/import/import-phenotype.js:106 | unary `+` on a string or `null`: `null` and blank text give 0, an optionally signed decimal integer (after trimming) gives its value, anything else NaN; `PhenotypeRecord.DecimalToNumber` states its contract |
| PhenotypeRecord.DecimalToNumber | database/import/import-phenotype.js:106 | `+` on the decimal text of any integer, negative ones included, gives that integer |
| PhenotypeRecord.NormalizeField | database/import/import-phenotype.js:99-104 | one field of the `for...in` loop: trimmed, and null when empty or `NULL`; `PhenotypeRecord.NormalizeFieldMeaning` states its contract |
| PhenotypeRecord.NormalizeFieldMeaning | database/import/import-phenotype.js:99-104 | a field becomes null exactly when its trimmed text is empty or `NULL` in any case; otherwise it is the trimmed text, with no whitespace at either end and never a NULL sentinel |
| PhenotypeRecord.NormalizeFieldIdempotent | database/import/import-phenotype.js:99-104 | normalising a kept field again changes nothing |
| PhenotypeRecord.NullSentinels | database/import/import-phenotype.js:101 | `NULL` in mixed case is a null field |
| PhenotypeRecord.PaddedNullSentinel | database/import/import-phenotype.js:100-101 | the sentinel test runs on the trimmed text, so a padded `NULL` is null |
| PhenotypeRecord.NormalizedFields | database/import/import-phenotype.js:99-104 | every field of the row is normalised and none is added or lost |
| PhenotypeRecord.NormalizedRecord | database/import/import-phenotype.js:92-118 | the record `on_record` returns for a 7-field row; `PhenotypeRecord.NormalizedRecordFields` states its fields |
| PhenotypeRecord.NormalizeRecord | database/import/import-phenotype.js:92-118 | the in-place loop over the fields, then the coercions, yield the normalised record |
| PhenotypeRecord.NormalizedRecordFields | database/import/import-phenotype.js:106-117 | `parent_id` is null iff its field is a null sentinel, else the number of its trimmed text; a null `id` is 0; the type is never `ordinal` and only `ordinal` is rewritten; the other fields are the normalised text |
| Sequencer.FindIndex | database/import/import-phenotype.js:125 | `findIndex` with `===` gives the first record whose id strictly equals the parent id, or -1 when none does (never for a NaN id) |
| Sequencer.RemoveAt | database/import/import-phenotype.js:127 | `splice(i, 1)` removes exactly that one record and keeps the others in their order |
| Sequencer.AddParentSpec | database/import/import-phenotype.js:124-134 | `addParent` on the pool, the output and the log; each recursive call works on a smaller pool; `Sequencer.AddParentConserves`, `Sequencer.AddParentExtends` and `Sequencer.AddParentPlaces` state what it does |
| Sequencer.AddParentConserves | database/import/import-phenotype.js:124-134 | `addParent` only moves records from the pool to the ordered list; nothing is lost or duplicated |
| Sequencer.AddParentExtends | database/import/import-phenotype.js:124-134 | `addParent` only appends to the ordered list and to the log of unresolved records |
| Sequencer.Step | database/import/import-phenotype.js:137-146 | one turn of the `while` loop, shortening the pool by at least one record; `Sequencer.StepConserves`, `Sequencer.StepExtends` and `Sequencer.StepPlaces` state what it does |
| Sequencer.StepConserves | database/import/import-phenotype.js:136-150 | one turn of the loop moves records without losing or duplicating any |
| Sequencer.StepExtends | database/import/import-phenotype.js:136-150 | one turn of the loop appends, and the record it shifted is the last one placed |
| Sequencer.Drain | database/import/import-phenotype.js:136-150 | the `while` loop runs until the pool is empty |
| Sequencer.Sequenced | database/import/import-phenotype.js:122-150 | the loop from the parsed records and an empty output ends with an empty pool |
| Sequencer.DrainConserves | database/import/import-phenotype.js:136-150 | the loop empties the pool and moves every record it held to the ordered list |
| Sequencer.SequenceIsPermutation | database/import/import-phenotype.js:122-150 | the ordered records are a permutation of the parsed records, for every input |
| Sequencer.AddParentPlaces | database/import/import-phenotype.js:124-134 | after `addParent` every placed record's parent precedes it, and the record's own parent is placed |
| Sequencer.StepPlaces | database/import/import-phenotype.js:136-150 | a turn of the loop keeps parents before their children |
| Sequencer.DrainPlaces | database/import/import-phenotype.js:136-150 | the whole loop keeps parents before their children |
| Sequencer.SequenceOrdersParentsFirst | database/import/import-phenotype.js:121-150 | on input with an acyclic parent relation whose parents all exist, every record with a parent comes after that parent |
| Sequencer.OrphanLoggedAndPlaced | database/import/import-phenotype.js:131-145 | a record whose parent is nowhere is logged as unresolved and still placed |
| Sequencer.ChildBeforeRootExample | database/import/import-phenotype.js:136-146 | a child listed before its root is placed after it, with the search for the root's own parent logged |
| Sequencer.AddParent | database/import/import-phenotype.js:124-134 | the recursive method leaves the pool, ordered list and log exactly as the specification of `addParent` says |
| Sequencer.OrderRecords | database/import/import-phenotype.js:121-150 | the `while` loop's result is the specified sequencing, a permutation of its input |
| TestFixtures.JsMax | database/import/import-phenotype.js:155-156 | `Math.max` is a number iff both arguments are, and is then the larger one |
| TestFixtures.JsAdd | database/import/import-phenotype.js:156 | adding an integer to NaN stays NaN, otherwise adds |
| TestFixtures.Fixtures | database/import/import-phenotype.js:157-197 | four test phenotypes are appended |
| TestFixtures.MaxIdFrom | database/import/import-phenotype.js:155 | `reduce` with `Math.max` over the ordered records; `TestFixtures.MaxIdFromBounds` and `TestFixtures.MaxIdFromNaN` state its contract |
| TestFixtures.FixtureBase | database/import/import-phenotype.js:155-156 | `Math.max(10000, maxId + 1)`; `TestFixtures.FixtureIdsFresh` and `TestFixtures.NaNIdPoisonsFixtures` state its contract |
| TestFixtures.MaxIdFromBounds | database/import/import-phenotype.js:155 | with numeric ids, `reduce` with `Math.max` from 0 bounds every id and the start |
| TestFixtures.MaxIdFromNaN | database/import/import-phenotype.js:155 | one NaN id makes the maximum NaN |
| TestFixtures.FixtureIdsFresh | database/import/import-phenotype.js:155-197 | with numeric ids the fixture root id is at least 10000, and every fixture id exceeds every real id |
| TestFixtures.NaNIdPoisonsFixtures | database/import/import-phenotype.js:155-197 | one NaN id makes every fixture id NaN |
| TestFixtures.FixturesKeepParentsFirst | database/import/import-phenotype.js:157-197 | appending the fixtures keeps parents before children: the three children follow their root |
| PartitionStore.SubPartitionNames | database/import/import-phenotype.js:238-242 | a partition is created with three sub-partitions |
| PartitionStore.TableRows | database/import/import-phenotype.js:217-222 | the metadata query returns one row per sub-partition (one for a bare partition) of the queried table |
| PartitionStore.MetadataRows | database/import/import-phenotype.js:217-226 | the number of rows the metadata query returns for a partition, summed over both tables, which the code compares with 6 |
| PartitionStore.Reconciled | database/import/import-phenotype.js:224-246 | the layout after the partition step for one id; `PartitionStore.ReconciledConverges` and `PartitionStore.ReconcileIsLocal` state its contract |
| PartitionStore.ReconciledConverges | database/import/import-phenotype.js:224-246 | after reconciling, partition `id` has 6 metadata rows; if it did not already, both tables hold exactly `id_all`, `id_female`, `id_male` |
| PartitionStore.SettledIsKept | database/import/import-phenotype.js:226 | a partition set already consistent is left alone |
| PartitionStore.ReconcileIdempotent | database/import/import-phenotype.js:224-246 | reconciling one id twice is reconciling it once; `PartitionStore.RunIdempotent` and `PartitionStore.RerunAfterPrefix` lift this to whole runs |
| PartitionStore.ReconcileIsLocal | database/import/import-phenotype.js:230-244 | reconciling `id` changes no other partition |
| PartitionStore.ReconcileCommutes | database/import/import-phenotype.js:202-248 | reconciling two different ids gives the same layout in either order |
| PartitionStore.SkewedLayoutPassesCheck | database/import/import-phenotype.js:224-226 | the check counts rows only: four sub-partitions on one table and two on the other pass as consistent |
| PartitionStore.ReconciledAll | database/import/import-phenotype.js:202-248 | the layout after the partition step for each record's id in turn |
| PartitionStore.ReconciledAtDependsOnEntries | database/import/import-phenotype.js:217-246 | the count check and the partition step for `id` read only what the tables hold for `id` |
| PartitionStore.ReconciledAllEntries | database/import/import-phenotype.js:202-248 | after the loop, each processed id holds what reconciling it alone gives, however often it repeats; every other id is untouched |
| PartitionStore.ReconciledAllSettles | database/import/import-phenotype.js:202-248 | after the loop every processed id passes the count check, and one that failed it before holds exactly `id_all`, `id_female`, `id_male` on both tables |
| PartitionStore.SameEntries | database/import/import-phenotype.js:217-246 | two layouts with the same partitions on every table are the same layout |
| PartitionStore.ReconciledAllAbsorbs | database/import/import-phenotype.js:202-248 | running the partition step over records whose ids all recur in a later run, then over that later run, ends where the later run alone ends |
| PartitionStore.RunIdempotent | database/import/import-phenotype.js:202-248 | a partitions-only rerun over the same records leaves the layout as the first run left it |
| PartitionStore.RerunAfterPrefix | database/import/import-phenotype.js:202-248 | after a run stopped at record `k`, a rerun over all the records ends where an uninterrupted run ends |
| PartitionStore.Store.RecreateSchema | database/import/import-phenotype.js:64-82 | dropping and recreating the schema leaves `phenotype` empty; the partition layout is kept |
| PartitionStore.Store.Insert | database/import/import-phenotype.js:209-214 | the `INSERT` appends the record iff its id is a number not yet taken; NaN is assumed to be an invalid statement (see Left out), a taken id a duplicate key |
| PartitionStore.Store.PartitionRows | database/import/import-phenotype.js:217-222 | the query returns `MetadataRows` rows, naming exactly the tables that hold the partition; none for NaN; only this schema's partitions are counted (see Left out) |
| PartitionStore.Store.DropPartition | database/import/import-phenotype.js:231-234 | `DROP PARTITION` removes that partition only |
| PartitionStore.Store.AddPartition | database/import/import-phenotype.js:237-243 | `ADD PARTITION` creates the three sub-partitions; with a NaN id the statement is rejected |
| PartitionStore.Reconcile | database/import/import-phenotype.js:217-246 | the reconcile loop over the two tables produces the specified layout, never drops a missing partition or adds an existing one, and fails exactly for NaN, with an invalid statement; this holds while no other schema has tables of these names (see Left out) |
| ImportDriver.Parsed | database/import/import-phenotype.js:88-119 | one normalised record per row, in row order |
| ImportDriver.ImportSequence | database/import/import-phenotype.js:121-197 | `orderedRecords` once the loop and the fixture push are done: the sequenced records followed by the four test phenotypes |
| ImportDriver.ParseRecords | database/import/import-phenotype.js:88-119 | the parser applies `on_record` to every row |
| ImportDriver.ImportRecord | database/import/import-phenotype.js:203-246 | one turn of the loop: it fails exactly for a NaN id or, when inserting, an id already in the table; it then reports an invalid statement for NaN, otherwise a duplicate key, and changes nothing; otherwise the record is appended (when inserting) and the layout is the one reconciling its id gives |
| ImportDriver.ImportInOrder | database/import/import-phenotype.js:202-248 | the loop succeeds iff all ids are numbers (and distinct when inserting); on success the table holds the records in order and the layout is the reconciliation of every id in turn; on failure at the first rejected record `k`, it reports that record's error, the table holds the records before `k` (when inserting), and the layout is the reconciliation of their ids |
| ImportDriver.InsertAll | database/import/import-phenotype.js:202-250 | the loop and its return: it succeeds iff all ids are numbers (and distinct when inserting). On success it returns the record count, the table holds the records in order, the layout is the reconciliation of every id in turn, every id has 6 metadata rows, an id that did not have them before holds exactly the expected sub-partitions, and other partitions are untouched. On failure the state is the one the first rejected record leaves, as for `ImportDriver.ImportInOrder` |
| ImportDriver.ImportPhenotypes | database/import/import-phenotype.js:64-250 | a run returns the number of rows plus 4; the table then holds the ordered records followed by the fixtures; partitions-only mode leaves the table alone; the run fails exactly when an id is NaN or, when inserting, repeats; on success the layout is the reconciliation of every id in turn, with the partition guarantees of `ImportDriver.InsertAll`; on failure at the first rejected record `k` the table holds the records before `k` (when inserting) and the layout is their reconciliation, which a partitions-only rerun completes (`PartitionStore.RerunAfterPrefix`) |
| ImportDriver.Rejected | database/import/import-phenotype.js:209-214 | a NaN id or a repeated id makes the run fail |
| ImportDriver.FirstRejected | database/import/import-phenotype.js:202-214 | record `k` is the first whose statement is rejected; `ImportDriver.FirstRejectedUnique` states its contract |
| ImportDriver.Rejection | database/import/import-phenotype.js:209-246 | the error a rejected record reports: an invalid statement for a NaN id, a duplicate key otherwise; `ImportDriver.ImportRecord` states its contract |
| ImportDriver.ImportablePrefix | database/import/import-phenotype.js:202-214 | every prefix of a run that succeeds succeeds |
| ImportDriver.FirstRejectedUnique | database/import/import-phenotype.js:202-214 | at most one record is the first rejected one, so a failed run leaves one determined state |
| ImportDriver.ImportableGrows | database/import/import-phenotype.js:209-214 | a numeric id that no earlier record has (when inserting) keeps the run importable |
| ImportDriver.ReconcileNext | database/import/import-phenotype.js:202-248 | one more turn of the loop extends the reconciliation by that record's id |
| ImportDriver.ReconciledRecords | database/import/import-phenotype.js:202-248 | once every record is reconciled, each record's id passes the count check, a failing one is repaired exactly, and ids of no record are untouched |
| ImportDriver.FixturesNeverCollide | database/import/import-phenotype.js:155-197 | the fixtures never make an importable run fail |
| ImportDriver.ImportInsertsParentsFirst | database/import/import-phenotype.js:121-202 | with an acyclic parent relation every record is inserted after its parent, fixtures included |
| JsValue.Overlay | client/src/services/reducers.js:14-17 | `{...a, ...b}` has the keys of both, and the values of `b` win |
| Actions.ActionTypesDistinct | client/src/services/actions.js:3-11 | the nine action types are pairwise different |
| Actions.UpdatePhenotypes | client/src/services/actions.js:13-15 | builds `{type: UPDATE_PHENOTYPES, data}`; `Reducers.CreatorsReachTheirSlices` states what it does to the state |
| Actions.UpdatePhenotypeCategories | client/src/services/actions.js:17-19 | builds `{type: UPDATE_PHENOTYPE_CATEGORIES, data}`; `Reducers.TableActionsAreIgnored` states that the reducer ignores it |
| Actions.UpdatePhenotypesTree | client/src/services/actions.js:21-23 | builds `{type: UPDATE_PHENOTYPES_TREE, data}`; `Reducers.CreatorsReachTheirSlices` states what it does to the state |
| Actions.UpdateSummaryResults | client/src/services/actions.js:25-27 | builds `{type: UPDATE_SUMMARY_RESULTS, data}`; `Reducers.CreatorsReachTheirSlices` states what it does to the state |
| Actions.UpdateSummaryTable | client/src/services/actions.js:29-31 | builds `{type: UPDATE_SUMMARY_TABLE, key, data}`; `Reducers.TableActionsAreIgnored` states that the reducer ignores it |
| Actions.SetSummaryTableLoading | client/src/services/actions.js:33-35 | is `updateSummaryTable('loading', loading)` |
| Actions.UpdateSummarySnp | client/src/services/actions.js:37-39 | builds `{type: UPDATE_SUMMARY_SNP, key, data}`; `Reducers.TableActionsAreIgnored` states that the reducer ignores it |
| Actions.UpdateSummarySnpTable | client/src/services/actions.js:41-43 | builds `{type: UPDATE_SUMMARY_SNP_TABLE, key, data}`; `Reducers.TableActionsAreIgnored` states that the reducer ignores it |
| Actions.SetSummarySnpLoading | client/src/services/actions.js:45-47 | is `updateSummarySnp('loading', loading)` |
| Actions.UpdateVariantLookup | client/src/services/actions.js:49-51 | builds `{type: UPDATE_VARIANT_LOOKUP, data}`; `Reducers.CreatorsReachTheirSlices` states what it does to the state |
| Actions.UpdatePhenotypeCorrelations | client/src/services/actions.js:53-55 | builds `{type: UPDATE_PHENOTYPE_CORRELATIONS, data}`; `Reducers.CreatorsReachTheirSlices` states what it does to the state |
| Actions.DisplayName | client/src/services/actions.js:872-874 | `title ? title : label`: a non-empty title, else the label |
| Actions.FloorDiv | client/src/services/actions.js:84 | `Math.floor(offset / limit)` is the floor of the quotient, for either sign of the limit |
| Actions.PageNumber | client/src/services/actions.js:84 | the page number exists exactly when the limit is nonzero, and is at least 1 for a non-negative offset and a positive limit |
| Actions.PageContainsOffset | client/src/services/actions.js:84 | the page number is the page whose rows include the offset |
| Actions.FirstRowOfPage | client/src/services/actions.js:84 | the first row of page p lies on page p |
| Reducers.RootReducer | client/src/services/reducers.js:9-47 | the new state keeps every old key, gains at most the action's own slice, and every other key keeps its value |
| Reducers.MergeOverlaysSlice | client/src/services/reducers.js:11-34 | the three merging actions overlay their data on the old slice: data keys win, other keys are kept |
| Reducers.ReplaceSetsSlice | client/src/services/reducers.js:35-44 | the two replacing actions set the slice to the data |
| Reducers.OnlyOwnSliceChanges | client/src/services/reducers.js:9-47 | an action changes no top-level key but its own slice |
| Reducers.UnhandledIsIdentity | client/src/services/reducers.js:45-46 | any other action type returns the state unchanged |
| Reducers.TableActionsAreIgnored | client/src/services/actions.js:17-47 | the summary table, summary SNP and category actions leave the state unchanged |
| Reducers.CreatorsReachTheirSlices | client/src/services/actions.js:13-55 | each remaining creator reaches the slice it is named after |
| Reducers.ReducerIdempotent | client/src/services/reducers.js:9-47 | dispatching an action twice equals dispatching it once |
| Reducers.MergesCompose | client/src/services/reducers.js:11-34 | two merges into a slice equal one merge of the overlaid data |
| Heatmap.ZColor | client/src/services/actions.js:679-703 | `getZColor` never returns 1 or -1 |
| Heatmap.ZText | client/src/services/actions.js:704-724 | a nonzero `getZText` is an entry of the file for the pair, under either phenotype |
| Heatmap.ZColorIsClippedZText | client/src/services/actions.js:679-724 | the colour lookup is the text lookup with exactly 1 and -1 shown as 0, so a colour is never ±1 |
| Heatmap.ZTextSymmetric | client/src/services/actions.js:679-724 | on a consistent file the lookups ignore the order of the pair |
| Heatmap.DiagonalIsBlank | client/src/services/actions.js:698-700 | a self-correlation of 1 is coloured 0 and shown as 1 |
| Heatmap.Labels | client/src/services/actions.js:752-754 | the axis labels are the display names, in order |
| Heatmap.BuildHeatmap | client/src/services/actions.js:752-770 | the nested loops build n-by-n matrices whose cell (i, j) is the lookup of labels i and j |
| Heatmap.HeatmapSymmetric | client/src/services/actions.js:761-770 | on a consistent file both matrices are symmetric |
| Heatmap.TickText | client/src/services/actions.js:816-818 | a tick label has at most 23 characters and begins with the first 20 characters of the name (all of them when shorter) |
| Heatmap.TickTextShape | client/src/services/actions.js:816-818 | labels of at most 20 characters are kept whole; longer ones become their first 20 characters and "..."; shortening twice changes nothing |
| VariantLookup.ParseVariant | client/src/services/actions.js:857-868 | the query always carries an rsid or both chromosome and position, and only a variant starting with `chr` yields coordinates |
| VariantLookup.QueryKinds | client/src/services/actions.js:857-868 | the rsid is null iff chromosome and position are both non-empty |
| VariantLookup.RsidPassesThrough | client/src/services/actions.js:857-868 | a variant not starting with `chr` is sent unchanged as the rsid |
| VariantLookup.CoordinatesRoundTrip | client/src/services/actions.js:857-868 | `chr` in any case, then a chromosome, `:` and a position, is sent as that chromosome and position with no rsid |
| VariantLookup.ChromosomeWithoutPosition | client/src/services/actions.js:857-868 | `chr1` without a position is sent both as rsid `1` and as chromosome `1` |
| VariantLookup.NotFoundRowAsWritten | client/src/services/actions.js:870-882 | the placeholder as written: dashes, the display name as `phenotype`, and the title (or `undefined`) as `variant_id`; `VariantLookup.NotFoundIdAsWritten` states its contract |
| VariantLookup.NotFoundRow | client/src/services/actions.js:870-882 | the placeholder as intended, with `variant_id` `not-found-` and the display name; `VariantLookup.NotFoundIdIntended` states its contract |
| VariantLookup.NotFoundIdAsWritten | client/src/services/actions.js:881 | the placeholder's `variant_id` as written is the title or `undefined`, never the intended id |
| VariantLookup.NotFoundIdIntended | client/src/services/actions.js:881 | the corrected placeholder id is `not-found-` followed by the display name |
| VariantLookup.Tagged | client/src/services/actions.js:884-889 | each row of a response is kept and gets the display name as `phenotype` |
| VariantLookup.FoundRows | client/src/services/actions.js:884-889 | `tableList`: every listed hit carries a `phenotype` string |
| VariantLookup.Placeholder | client/src/services/actions.js:870-882 | the placeholder for a phenotype without hits, as written or as intended |
| VariantLookup.Placeholders | client/src/services/actions.js:870-882 | `tableListNull`: at most one placeholder per phenotype, each with dashes and a `variant_id` key |
| VariantLookup.PlaceholdersDifferOnlyInId | client/src/services/actions.js:870-882 | the placeholders as written and as intended agree in number, order and every key but `variant_id`, which differs in each one |
| VariantLookup.AppendTagged | client/src/services/actions.js:884-889 | the inner loop pushes every row of a response, tagged with the display name, in order |
| VariantLookup.AssembleLookup | client/src/services/actions.js:853-893 | all tagged hits come first, in phenotype order, then one placeholder per phenotype without hits (as written or as intended, by its `version` argument); `numResults` counts the hits |
| VariantLookup.FoundRowsAreTagged | client/src/services/actions.js:884-889 | every listed hit is a row of some phenotype with hits, tagged with that phenotype |
| VariantLookup.EveryPhenotypeAccounted | client/src/services/actions.js:863-891 | in either version, each phenotype without hits has its placeholder, and every hit of the others is listed |
| PhenotypesPage.Parents | client/src/components/pages/phenotypes.js:67-81 | what `getParent` pushes, node by node; `PhenotypesPage.ParentsAreMatchingHolders` states its contract |
| PhenotypesPage.ParentsAreMatchingHolders | client/src/components/pages/phenotypes.js:67-81 | `getParent` returns one entry per leaf matching title and value, the node holding that leaf, in depth-first left-to-right order; inner nodes are never compared |
| PhenotypesPage.LeavesShape | client/src/components/pages/phenotypes.js:68-79 | each leaf the search visits has no children and is a child of its recorded holder |
| PhenotypesPage.ParentsHoldMatchingLeaf | client/src/components/pages/phenotypes.js:71-78 | every returned node holds a leaf whose title and value equal the target's |
| PhenotypesPage.TopLevelMatchGivesRoot | client/src/components/pages/phenotypes.js:85-88 | when the first match is a top-level leaf, `handleChange` takes the synthetic root `{children: tree}` as parent |
| PhenotypesPage.GetParent | client/src/components/pages/phenotypes.js:67-81 | the recursive method appends to the shared `found` array exactly what the specification lists |
| PhenotypesPage.SpliceStart | client/src/components/pages/phenotypes.js:196-203 | `splice` clamps its start into the array |
| PhenotypesPage.SpliceCount | client/src/components/pages/phenotypes.js:196-203 | `splice` clamps its delete count to what follows the start |
| PhenotypesPage.SpliceReassembles | client/src/components/pages/phenotypes.js:196-203 | what `splice` removes, put back at the start, restores the array |
| PhenotypesPage.Trail.Splice | client/src/components/pages/phenotypes.js:196-203 | `splice` returns the removed entries and keeps the rest in place |
| PhenotypesPage.PopDropsLast | client/src/components/pages/phenotypes.js:194-199 | a background double-click keeps all entries but the last; the spliced array keeps only the last |
| PhenotypesPage.TruncateKeepsPrefix | client/src/components/pages/phenotypes.js:201-204 | clicking crumb `idx` keeps exactly the first `idx` entries |
| PhenotypesPage.PopUndoesPush | client/src/components/pages/phenotypes.js:181-199 | entering a node and then double-clicking the background restores the breadcrumb |
| PhenotypesPage.Page.HandleChange | client/src/components/pages/phenotypes.js:83-101 | with a first parent found, it shows that parent's children, sets a one-entry breadcrumb for it and selects the phenotype. With no match, or only the null parent of a bare root, it throws and changes nothing |
| PhenotypesPage.Page.HandleDoubleClick | client/src/components/pages/phenotypes.js:181-192 | a node with children is shown and appended to the breadcrumb; a leaf is handed to submit and nothing changes |
| PhenotypesPage.Page.HandleBackgroundDoubleClick | client/src/components/pages/phenotypes.js:194-199 | with a breadcrumb, it shows the last entry's siblings and drops that entry; with none, it changes nothing |
| PhenotypesPage.Page.CrumbClick | client/src/components/pages/phenotypes.js:201-206 | the breadcrumb becomes its first `idx` entries and the clicked entry's siblings are shown |

## Left out

- The MySQL connection, the CLI options, `process.exit`, timing and console output are left out. Logging appears only as the log of unresolved records in the sequencer.
- `main.sql`, the schema file, is not part of this model. Recreating the schema is modelled only as emptying `phenotype`. The foreign key on `parent_id`, if the schema has one, is not modelled.
- CSV mechanics (BOM, header line, quoting) are left out. A row is its 7 fields; the parser rejects rows of any other length before `on_record` sees them.
- `PhenotypeRecord.ToNumber` reads only optionally signed decimal integers, as exact unbounded integers. Fractions, exponents, hexadecimal and `Infinity` count as NaN. JavaScript numbers are doubles, which hold every integer only up to 2^53 in magnitude: beyond that `+` rounds (`9007199254740993` reads as 9007199254740992). The model treats every integer id as exact, so its id contracts match JavaScript only for ids of magnitude at most 2^53.
- `PhenotypeRecord.DecimalToNumber` holds for the exact integers of the model. In JavaScript it holds only for magnitudes up to 2^53; longer decimals round to a neighbouring double.
- `TestFixtures.FixtureIdsFresh` relies on exact addition. In JavaScript, with a real id of 2^53, `maxId + 1` rounds back to 2^53, so the fixture root id equals that record's id. The property holds for ids whose maximum plus 4 stays at or below 2^53.
- `ImportDriver.FixturesNeverCollide` inherits the same bound: with a real id of 2^53 or more, the fixture root can collide with a real record, and the `INSERT` is a duplicate.
- `ImportDriver.ImportPhenotypes` inherits the same bound. Its "fails exactly when" is exact only while every id, and the largest id plus 4, stays at or below 2^53. Above that, rounding can merge distinct ids or make a fixture collide, and the run fails where the model says it succeeds.
- `import_date` on the fixtures is left out: the `INSERT` does not name that column.
- `PartitionStore.Store.Insert` assumes that the database rejects an `INSERT` whose `id` is NaN and accepts one whose `parent_id` is NaN. The code binds both values the same way, through the driver's named placeholders (database/import/import-phenotype.js:32, 209-214), so this is an assumption about the driver and the server, not something the code decides. Were the NaN `id` accepted, the run would still fail, at `ADD PARTITION ... VALUES IN (NaN)`, but with the NaN record already in `phenotype`. What a NaN `parent_id` does under the foreign key depends on the schema, which is not part of this model.
- `PartitionStore.Store.PartitionRows` and `PartitionStore.Reconcile` assume that no other schema on the server has tables named `phenotype_variant` or `phenotype_aggregate`. The metadata query (database/import/import-phenotype.js:217-222) and the drop test (line 229) do not filter on the schema, so the code counts and matches the rows of every schema. If another schema holds partition `id`, the count includes its rows. Then the drop test can match a partition this schema lacks, and `DROP PARTITION` is rejected, ending the run. A partition settled in both schemas counts 12 rows, so it is dropped and re-created, which empties it. The model counts only this schema's partitions, so "never drops a missing partition", "fails exactly for NaN" and `PartitionStore.SettledIsKept` hold only under that assumption.
- `ImportDriver.InsertAll` requires an empty `phenotype` table when it inserts. The run meets this through the schema recreation at database/import/import-phenotype.js:64-82.
- `JsString.AsciiLower` lowercases ASCII letters only. String lengths count code points, not UTF-16 units.
- `JsValue.Overlay`: spreading an array or a string into an object (index keys) is not modelled; such values spread as `{}`. Key order and inherited properties are not modelled.
- The heatmap's correlation values are real numbers, not floating point. The Plotly layout objects are not modelled.
- `VariantLookup.AssembleLookup` takes the query responses as a parameter, one per phenotype. The network and the `query` service are left out. The in-place tagging of the response rows (`data[j]['phenotype'] = ...`) is modelled as building tagged copies, so aliasing of those rows is not captured.
- `VariantLookup.AssembleLookup` builds either placeholder, picked by its `version` argument: `AsWritten` is the code as written, `Intended` the corrected one (see Findings).
- The dispatches around `lookupVariants`, `drawHeatmap` and the table fetches (loading flags, timestamps) are left out. Only the page arithmetic of the table fetches is modelled.
- `handleSubmit`, `handleSingleClick`, `handleReset`, the effect that draws the bubble chart and the bubble chart itself are left out. `PhenotypesPage.Page.HandleDoubleClick` returns the leaf that would be submitted.
- `PhenotypesPage.Page`: the Redux dispatches of the page are modelled as direct field updates. The `browsePhenotypes` reducer is not part of this model.
- A tree node with `children` undefined is modelled as a node with no children. The code treats both as a leaf.

## Findings

| source | as written | input that shows it | evidently intended | confidence | as-written member | corrected member |
|---|---|---|---|---|---|---|
| client/src/services/actions.js:881 | `'not-found-' + title ? title : label` parses as `('not-found-' + title) ? title : label`. The concatenation is always truthy, so `variant_id` is the title, or `undefined` without one | a phenotype with title `Melanoma` and no hits gets `variant_id` `Melanoma` instead of `not-found-Melanoma` | `'not-found-' + (title ? title : label)` | high; not executed | VariantLookup.NotFoundIdAsWritten | VariantLookup.NotFoundIdIntended |
