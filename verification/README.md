# EpiProc Atlas in Dafny

EpiProc Atlas reads supplier invoices from PDFs into a database, shows the spend, and prices the
products of supplier offers. This project models its seven stateful cores and proves what they promise
over every input, every run and every interleaving:

- **Offer import and costing store** (`Calc`, `CostLaws`, `OfferRows`, `RowLaws`, `CostingTables`, `StoreLaws`,
  `CostingStore`, `OfferImport`, `BatchTracking`, `Preview`, `ConfirmedUpload`, `ImportEffects`, `ImportVersions`,
  `ImportCostings`, `Reimport`, `CostingRuns`). One upload either
  changes products, costings and batches in one transaction or is previewed over an unchanged database.
  Main results: which costing an import saves for which row, exactly when the preview is the import's report, re-import is idempotent, deletion undoes an
  import, and every run keeps the store's invariant and the admins' prices.
- **Folder scan** (`Slug`, `ScanSpec`, `ScanLaws`, `ScanEffects`, `CrashRestart`, `CrashDivergence`, `InvoiceStore`,
  `FolderScan`). A restartable scan with two commits per file. Main results: no file holds back one of another
  supplier, exactly which folders survive any number of kills with the
  uninterrupted result, every scan keeps the tables free of duplicates, three scans reach a fixpoint.
- **Job queue** (`JobQueue`, `JobLaws`, `RequeueRace`). Workers, crashes, lost connections, cancels and requeues as labelled
  steps. Main results: at most one live worker executes a job, terminal states are final, a requeue loses nothing;
  and exactly when the first two survive a requeue in two statements.
- **Continuation pages** (`Continuation`, `PageMerge`). The in-place merge of line items and totals.
- **Correction rules** (`Rules`, `RuleEngine`). A pipeline of record-changing ops.
- **Dashboard** (`Dashboard`, `DashboardLaws`). Several group-bys that must agree.
- **Slug, classification and page data** (`Slug`, `Categorise`, `JsonText`, `ScriptSafe`, `JsonEncoder`).

Each core has a specification on values and, where the program updates state in place, classes and methods
with the program's own loops that are proved to compute that specification; the theorems are about the
specification, and the modules named `...Laws` and `...Effects` say of each operation, in the terms of its inputs,
what its result shows. `Common` and `Rounding` hold the shared pieces: optional values, `str.strip`, and the two
roundings (`ROUND_HALF_UP` and ties to even) on exact numbers.

`dafny verify dfyconfig.toml` checks the whole project.

## What enters as a parameter

- Extraction is a function of a file's bytes (its digest stands for them) and the configuration name; the
  model's answer to a classification batch is a function of the batch.
- The cost calculator is a parameter of the import, so the import theorems hold for any calculator;
  `Calc` specifies the real one and `OfferRows` states the pricing laws for it.
- What the database, the connection and the clock do in one worker cycle is an argument of that cycle.
- Python's text form of a value (`str`) is an arbitrary function in `Continuation` and `Rules`.

## Where the code and its documentation disagree

The model follows the code.

- `docs/costing.md:141-142` and the docstring at `epiproc/costing/offer_import.py:398-405` say the preview shows
  what confirm writes. For batches that both runs look up alike (`Preview.Separate`) the tallies are right and
  the preview is the import's report if and only if no row repeats the key of an admin-priced product with a
  stored price that the target margins do not give. Three lemmas show, for all rows of a kind, that the tallies are
  wrong where one of the conditions of `Preview.Separate` fails: a row found by its name that an earlier row of
  another key has too, a name that is another row's EAN, and two rows of different keys that match one stored
  product. For other batches outside `Preview.Separate` nothing is characterised: the preview may be right there.
- The confirm step imports the row objects as the dry run left them, warnings included
  (`epiproc/web/routers/costing.py:545`), and `duplicate_ean` is appended without a guard
  (`epiproc/costing/offer_import.py:428`), so a confirmed import lists it twice (`ConfirmedUpload.ConfirmedLines`).
- `docs/costing.md:181-182` and the comment at `epiproc/costing/offer_import.py:503` say a price from an earlier
  import always wins. In the code only an admin's price does; an automatic one is recomputed.
- Re-importing a batch changes a product in one corner: a row of 0 units per tray creates the product with 1
  and updates it to 0 (`Reimport.ZeroTrayIsRewritten`). `parse_offer` drops a tray of 0 or less
  (`epiproc/costing/offer_import.py:191-195`), so only an edited confirm payload can carry it; a workbook imported
  again leaves the products alone (`Reimport.WorkbookReimportKeepsProducts`).
- The requeue reads and then updates by id alone (`epiproc/worker.py:60-75`). As one atomic step it is safe;
  as two statements it can undo a cancel, and two requeuers can make two workers run one job. At most one worker
  executes a job, over every later run, if and only if no job read as abandoned is executed by a live worker when
  the update is written (`RequeueRace.WriteIsSafeExactlyWhenItInterruptsNobody`); ended jobs stay ended if and only
  if no row read as abandoned has ended by then (`RequeueRace.WriteKeepsEnded`); both also over whole runs.
- The comment at `epiproc/ingest/categorise.py:84` says duplicate or extra indices are rejected. A batch is accepted
  exactly when every index is covered; surplus answers are ignored and of duplicates the last one wins.
- A scan is called idempotent (`epiproc/ingest/scan.py:1-12`). After kills it need not be. A folder gives the
  uninterrupted result from every state, for all kills and whatever can be read of its files, if and only if two
  things hold (`CrashDivergence.FolderIsSafeExactlyWhen`). Of byte-identical files, one in a supplier's folder has
  later copies under the same supplier and filename only. And no file can, by being stored while an earlier one is
  down, get that one dropped on the rerun and so erase an old ledger entry that holds back a third file
  (`CrashRestart.Forgets`). From a given state the second is needed of old entries in its ledger only.

## Model

| member | source | states |
|---|---|---|
| Calc.ComputeCosting | epiproc/costing/calc.py:172-281 | the calculator, with its two accumulating loops, computes the specification of every figure of the workbook |
| Calc.PackagingLoop | epiproc/costing/calc.py:189-194 | the packaging loop sums all lines, per-case ones spread over the tray |
| Calc.EquipmentLoop | epiproc/costing/calc.py:199-207 | the equipment loop adds every line to the box, palletised ones spread over the trolley |
| Calc.CostIgnoresPrices | epiproc/costing/calc.py:172-229 | two inputs that differ in prices only have the same cost block |
| Calc.ProfitIsPriceLessCost | epiproc/costing/calc.py:236 | at any selling price the profit is that price less a cost that no price changes |
| Calc.SellingAtTargetEarnsTheMargin | epiproc/costing/calc.py:236-249 | selling at the target price earns exactly the target margin, and when that price is undefined |
| Calc.RetailAtTargetGivesTheCustomerRatio | epiproc/costing/calc.py:239-248 | retailing at the target retail gives the customer c / (1 - c) on our price |
| Calc.CostMonotoneInMaterials | epiproc/costing/calc.py:177-229 | with non-negative rates a dearer material never lowers the total direct cost |
| CostLaws.LabourLineAdds | epiproc/costing/calc.py:219-229 | one more labour line raises the total by its cost with the intake and the additional percentage on top |
| CostLaws.PackagingLineAdds | epiproc/costing/calc.py:188-197 | one more packaging line raises it by its cost, over the tray if per case, with the three percentages on top |
| CostLaws.EquipmentLineAdds | epiproc/costing/calc.py:199-208 | one more equipment line raises it by its cost, over boxes per trolley and units per box if palletised |
| CostLaws.MaterialLineAdds | epiproc/costing/calc.py:176-186 | one more material line raises it by its cost in our currency and the inbound transport of its quantity, with the waste on top |
| CostLaws.MaterialLineShows | epiproc/costing/calc.py:177-183 | and moves the material total, the transport units and the inbound figure by just that |
| CostLaws.BoxAdds | epiproc/costing/calc.py:199-208 | a box adds its price over the tray |
| CostLaws.OutboundAdds | epiproc/costing/calc.py:210-217 | outbound adds the pallet price over fill rate, boxes and tray, with the fuel surcharge on top |
| CostLaws.FullPalletIsFillRateOne | epiproc/costing/calc.py:214-215 | the informational full-pallet figure is the outbound cost at a fill rate of one |
| CostLaws.NothingCostsNothing | epiproc/costing/calc.py:172-229 | with no line, no box price and no pallet price the total is nil, whatever the rates |
| CostLaws.SubtotalsAddUp | epiproc/costing/calc.py:176-229 | the shown subtotals add up to the total and every percentage is taken of its own figure |
| CostLaws.OurMarginsSolve | epiproc/costing/calc.py:236-249 | our profit, margin and target price solve their equations, and when they are not computable |
| CostLaws.CustomerMarginsSolve | epiproc/costing/calc.py:239-242 | so do the customer's net price, profit and profit share, which is taken of our price |
| CostLaws.TargetRetailSolves | epiproc/costing/calc.py:244-248 | retail less the customer's target share of it is our price with VAT |
| OfferRows.SmallestFitIsMinimal | epiproc/costing/offer_import.py:246-265 | the chosen box is a listed one that holds the height, none that holds it is lower, and none is chosen exactly when none holds it |
| OfferRows.SmallestFitIsFirst | epiproc/costing/offer_import.py:263-265 | of equally low boxes the first listed one is chosen |
| OfferRows.ResolveBox | epiproc/costing/offer_import.py:246-265 | collecting and sorting the fitting boxes picks that box |
| OfferRows.BuildInputsLoop | epiproc/costing/offer_import.py:268-343 | the inputs of a row, or none with the reason in its warnings |
| OfferRows.AutoPricedRowMeetsTheMargin | epiproc/costing/offer_import.py:483-501 | the profit of an auto-priced row misses the target margin by at most half a cent's share |
| OfferRows.AutoPriceMonotoneInMaterialCost | epiproc/costing/offer_import.py:483-501 | with non-negative rates a dearer offer row never gets a lower auto price |
| RowLaws.BoxHeightIsTheLastNumber | epiproc/costing/offer_import.py:240-261 | the height of a box is the number after the last separator, whatever precedes and whichever separators follow |
| RowLaws.SelectionTakesItsKind | epiproc/costing/offer_import.py:235-309 | a menu item joins the selection of its own kind only, once, at its cost, on exactly for the four default names |
| RowLaws.CostableExactlyWhen | epiproc/costing/offer_import.py:279-288 | a row has inputs exactly when tray, cost and height are given and some box holds the height |
| RowLaws.InputsCarryTheRow | epiproc/costing/offer_import.py:315-341 | the inputs carry the row's tray and cost and the lowest listed box that holds it, without prices |
| RowLaws.InputsCarryTheDefaults | epiproc/costing/offer_import.py:311-343 | every rate is the default of its own name, with its own fallback |
| RowLaws.RowIsPriced | epiproc/costing/offer_import.py:471-516 | selling and retail price are the admin's, or solve the margin equations to the nearest cent; when there is none; the saved figures are those at the prices |
| RowLaws.LineWarnsWithReason | epiproc/costing/offer_import.py:426-497 | the line keeps the row's warnings and adds exactly those there is a reason for |
| RowLaws.LineShowsRowAndCosting | epiproc/costing/offer_import.py:377-388 | the line copies the row and shows the costing's box, cost, prices and profits, or none of them |
| Rounding.RoundHalfUp2Monotone | epiproc/costing/offer_import.py:492-495 | rounding to cents never reverses the order of two prices |
| Rounding.HalfUpIsTheNearestCent | epiproc/costing/offer_import.py:492-495 | a rounded price is a whole number of cents within half a cent, ties going away from zero |
| CostingStore.Store.UpsertProduct | epiproc/db/costing.py:127-172 | an admin save writes exactly one human-priced row, or is refused by the unique EAN and changes nothing |
| CostingStore.Store.UpsertProductByKey | epiproc/db/costing.py:187-237 | the import's upsert: EAN then name, human prices untouched, auto prices replaced |
| CostingStore.Store.SaveCosting | epiproc/db/costing.py:506-549 | appends the next version of the product and touches nothing else |
| CostingStore.Store.CreateOfferImport | epiproc/db/costing.py:265-281 | opens a batch row with a new id |
| CostingStore.Store.UpdateOfferImportCounts | epiproc/db/costing.py:284-301 | writes the tallies on that batch row only |
| CostingStore.Store.DeleteOfferImport | epiproc/db/costing.py:339-354 | removes the batch and exactly its costings, keeping products; nothing for an unknown id |
| CostingTables.UpsertKeepsValid | epiproc/db/costing.py:187-237 | no import write breaks EAN uniqueness, id order, foreign keys or version order |
| CostingTables.AdminSaveKeepsValid | epiproc/db/costing.py:127-172 | neither does an admin save |
| CostingTables.SaveCostingKeepsValid | epiproc/db/costing.py:506-549 | a new version is above all stored ones of its product |
| CostingTables.DeleteOfferKeepsValid | epiproc/db/costing.py:339-354 | a deletion keeps versions in creation order although it frees numbers |
| CostingTables.MaxVersionIsTop | epiproc/db/costing.py:530 | the version counted from is at least every stored version of the product, and one of them unless there is none |
| CostingTables.LatestCostingIsLastCreated | epiproc/db/costing.py:568-580 | the latest costing by version, of any status or of a given one, is the last one created, also after deletions |
| StoreLaws.KeyFindsEanThenName | epiproc/db/costing.py:175-184 | the key finds the first holder of an 8- or 13-digit EAN, else the first product of the stripped name, else nothing |
| StoreLaws.UpsertWritesTheRow | epiproc/db/costing.py:206-237 | the import writes just the product its key finds, or a new one, column by column, by provenance |
| StoreLaws.AdminSaveIsRefusedExactlyWhen | epiproc/db/costing.py:139-172 | a save is refused exactly when it names a product by id and an EAN that another one holds |
| StoreLaws.AdminSaveWritesTheForm | epiproc/db/costing.py:139-172 | otherwise the form is what the named product, or a new one, shows, and no other product changes |
| StoreLaws.SaveCostingAppends | epiproc/db/costing.py:525-549 | a save appends what was given, one version above the product's highest |
| StoreLaws.DeleteTakesTheUpload | epiproc/db/costing.py:339-354 | a deletion takes exactly the upload and its costings |
| OfferImport.Driver.Decide | epiproc/costing/offer_import.py:424-469 | flagging, costing and tallying of one row, as both runs do it; the row's warnings end as those of its report line |
| OfferImport.Driver.HandleReal | epiproc/costing/offer_import.py:417-538 | one row on the transaction: tables, report and EANs seen |
| OfferImport.Driver.HandleDry | epiproc/costing/offer_import.py:446-538 | one row of the preview, which only reads the tables |
| OfferImport.PriceAndWarn | epiproc/costing/offer_import.py:483-516 | selling and retail price: the admin's first, else the rounded target, else a warning |
| OfferImport.ImportSavesForTheUpload | epiproc/costing/offer_import.py:518-526 | every costing an import adds is the uploader's, in the upload it opened, and final exactly when the upload finalises |
| ImportCostings.AddedCostingIsOfItsRow | epiproc/costing/offer_import.py:443-526 | every added costing is that of a costable row, over the tables an import of the rows before it would leave: its product, next version, inputs, prices and figures |
| ImportCostings.ImportAddsOneCostingPerCostableRow | epiproc/costing/offer_import.py:470-527 | and there are as many as costable rows |
| ImportCostings.RowWritesItsProduct | epiproc/costing/offer_import.py:443-520 | a named row is written onto the product its key finds, with the prices of its report line, and onto no other |
| ImportCostings.PreviewedRowIsRemembered | epiproc/costing/offer_import.py:446-525 | a previewed row is remembered under its EAN or name, with its line's prices, or an admin's when it is not costed |
| OfferImport.RunReal | epiproc/costing/offer_import.py:546-558 | a confirmed upload: all rows, one batch row, counts written last; the costings it adds are the uploader's, in that batch, final exactly when it finalises |
| OfferImport.RunDry | epiproc/costing/offer_import.py:541-544 | a preview, with no table changed |
| OfferImport.RunOfferImport | epiproc/costing/offer_import.py:390-558 | either of the two, chosen by the flag; added costings as for a real run |
| BatchTracking.FirstRowFindsTheSame | epiproc/costing/offer_import.py:443-445 | the first row of a key finds what it would have found before the batch, whatever earlier rows renamed |
| BatchTracking.RepeatFindsTheSame | epiproc/costing/offer_import.py:443-445 | a row whose key was used before finds the product of that key |
| BatchTracking.TrackBatch | epiproc/costing/offer_import.py:551-552 | after any prefix every product is untouched or was written by rows of one key only; rows may share names unless a row found by its name follows one of another key |
| Preview.DryRunPredictsImport | epiproc/costing/offer_import.py:417-558 | for every database and every batch looked up alike, the preview has the import's counts, and a line, and already its prices, are the import's exactly when it is predicted |
| Preview.PreviewIsTheReport | epiproc/costing/offer_import.py:448-528 | such a preview is the import's report if and only if every row that repeats the key of an admin-priced product has no inputs or stored prices that the target margins give |
| Preview.LineTellsThePrices | epiproc/costing/offer_import.py:528-538 | two views of one product give the same report line exactly when they give the same prices, and exactly when each stored price is absent or the recomputed one |
| Preview.SharedNameMisleadsThePreview | epiproc/costing/offer_import.py:450-451 | any two new rows of one name of which only the second has an EAN: one product created, two previewed |
| Preview.NameLikeAnEanMisleadsThePreview | epiproc/costing/offer_import.py:450-451 | any new row whose name is the EAN of the next new row: two products created, one previewed |
| Preview.SharedMatchMisleadsThePreview | epiproc/costing/offer_import.py:445-451 | any two rows of different names that match one stored product, by EAN and by name: one product created, none previewed |
| Preview.HumanRepeatMisleadsThePreview | epiproc/costing/offer_import.py:451-461 | a repeated EAN of an admin-priced product: the import keeps the admin's price, the preview shows the recomputed one, for any settings and costable row |
| Preview.SeededRepeatIsMisled | epiproc/db/costing.py:26-44 | with the seeded defaults and box the preview of such a row differs from the import exactly when the admin's price is not the recomputed one |
| ConfirmedUpload.ConfirmedLines | epiproc/web/routers/costing.py:536-546 | importing the rows as the preview left them has the preview's counts, and a line is the previewed one exactly when it is predicted and repeats no EAN of the file |
| ConfirmedUpload.ConfirmedTables | epiproc/web/routers/costing.py:536-546 | and it leaves the tables as an import of the parsed rows would |
| ImportEffects.ReportCountsTheGrowth | epiproc/costing/offer_import.py:464-558 | report and batch row count exactly the products and costings the tables grew by |
| ImportEffects.ImportRespectsStoredProducts | epiproc/db/costing.py:206-237 | an import leaves human prices and every origin alone and writes no EAN of junk length |
| ImportEffects.AutoPricesFollowTheReport | epiproc/db/costing.py:216-227 | an auto price is that of the last row that touched the product, null when that row was uncostable |
| ImportEffects.DeleteUndoesImport | epiproc/db/costing.py:339-354 | importing and deleting the batch restores costings and batches exactly and keeps the products |
| ImportEffects.ImportKeepsValid | epiproc/costing/offer_import.py:546-558 | an import keeps the store's invariant |
| ImportVersions.EveryRowIsReported | epiproc/costing/offer_import.py:419-538 | the report has one line per row, in order, that copies the row and keeps its warnings: skipped exactly without a name, costed exactly when costable, figures only when costed |
| ImportVersions.TrackVersions | epiproc/db/costing.py:525-536 | after any prefix of a batch exactly one version was added per costable row, the next of its product |
| Reimport.ReimportIsIdempotent | epiproc/costing/offer_import.py:443-527 | for rows of pairwise different keys, a second import creates no product, adds one version per costable row, and leaves the products as they were if and only if no row that created a product says 0 units per tray |
| Reimport.WorkbookReimportKeepsProducts | epiproc/costing/offer_import.py:191-195 | rows with no or a positive tray, as the workbook gives them, leave the products as they were |
| Reimport.EmptyCatalogueReimport | epiproc/costing/offer_import.py:443-527 | into an empty catalogue, different names and keys suffice |
| Reimport.ZeroTrayIsRewritten | epiproc/db/costing.py:218-236 | a row of 0 units per tray creates the product with 1 and the next import writes 0 |
| CostingRuns.RunKeepsInvariant | epiproc/db/costing.py:506-549 | over every run of saves, imports and deletions: results reproducible from inputs, versions in creation order, EANs unique, auto prices as last reported |
| CostingRuns.VersionsAreUnique | epiproc/db/costing.py:517-531 | no two costings of one product share a version, over every run |
| CostingRuns.HumanPricesSurviveRuns | epiproc/db/costing.py:206-215 | a human product stays human over every run, and only admin saves move its prices |
| Slug.SlugSupplier | epiproc/ingest/pipeline.py:27-36 | the suffix loop ends and computes the slug |
| Slug.SlugIsJoinedWords | epiproc/ingest/pipeline.py:23-36 | the slug is the name's words less the legal forms at the end, joined by underscores; none exactly when there is no word |
| Slug.WordsHoldAllLetters | epiproc/ingest/pipeline.py:31 | the words hold every letter and digit of the lower-cased name, in order |
| Slug.SlugIsCanonical | epiproc/ingest/pipeline.py:23-36 | only a-z, 0-9 and single inner underscores, and no legal form left to remove |
| Slug.SlugIsIdempotent | epiproc/ingest/pipeline.py:27-36 | a slug is its own slug |
| Slug.LegalFormsCollapse | epiproc/ingest/pipeline.py:21-36 | appending a legal form to a name that has a slug leaves the slug as it is |
| FolderScan.ProcessOnePdf | epiproc/ingest/pipeline.py:52-91 | extract, find the supplier, drop a repeated invoice number, store; the status names the stored row; whose it is, `ScanEffects` says |
| FolderScan.HandleFile | epiproc/ingest/scan.py:68-134 | one file of the scan through the three layers of dedup, and its ledger row |
| FolderScan.ScanAndProcess | epiproc/ingest/scan.py:53-139 | the loop over the folder computes the specified tables and counts |
| InvoiceStore.InvoiceTable.InsertRecord | epiproc/db/invoices.py:42-87 | delete, cascade, insert and the item loop replace one document; every line item stays owned |
| InvoiceStore.InsertionOnDocs | epiproc/db/invoices.py:42-87 | the row-level statements amount to replacing one document, up to row ids |
| InvoiceStore.InsertionKeepsReferences | epiproc/db/invoices.py:42-87 | ids stay ascending and every line item is owned by a stored invoice |
| InvoiceStore.IngestedFiles.ShaIngested | epiproc/db/ingested.py:16-23 | true exactly when another path is recorded as ingested with these bytes |
| InvoiceStore.IngestedFiles.Record | epiproc/db/ingested.py:26-38 | replaces the row of this path and no other |
| ScanLaws.CountsAddUp | epiproc/ingest/scan.py:58-134 | scanned = ingested + duplicate + error + skipped in every scan |
| ScanLaws.ScanStaysDeduplicated | epiproc/ingest/scan.py:81-134 | every scan keeps one invoice per supplier and filename, one per supplier and number, and distinct hashes among ingested files |
| ScanLaws.FileTouchesOneSupplier | epiproc/ingest/pipeline.py:68-88 | a file changes its own supplier's invoices only |
| ScanLaws.AttemptsStayBounded | epiproc/ingest/scan.py:128-133 | attempts never exceed three |
| ScanLaws.ThreeScansReachAFixpoint | epiproc/ingest/scan.py:76-134 | without transient errors three scans settle every file from any ledger, and a fourth skips all and changes nothing |
| ScanEffects.IngestedFileShowsItsReading | epiproc/ingest/pipeline.py:52-91 | the stored document shows what was read, under the folder's supplier, else the words of the seller, else the configuration's, else "unknown" |
| ScanEffects.OtherSuppliersNeverDropIt | epiproc/ingest/pipeline.py:70-85 | a file never holds back one of another supplier with other bytes: what would be stored before it is stored after it, as the same document |
| ScanEffects.DifferentSellersAreBothStored | epiproc/ingest/pipeline.py:67-85 | two inbox files whose sellers differ in their words, legal forms apart, never drop each other, whatever the configuration |
| ScanEffects.DuplicateExactlyWhen | epiproc/ingest/scan.py:82-108 | a file is dropped for exactly three reasons: bytes under another path, name in its own folder's supplier, number within its supplier |
| ScanEffects.SkippedExactlyWhenDone | epiproc/ingest/scan.py:73-79 | a file is skipped exactly when this version was handled and is not a failure met less than three times |
| ScanEffects.RowTellsTheOutcome | epiproc/ingest/scan.py:86-119 | the ledger row of an ingested or dropped file says so and forgets earlier failures |
| ScanEffects.RowCountsTheFailure | epiproc/ingest/scan.py:120-133 | a failure is counted per version with 500 characters of its text; a transient one leaves no trace |
| ScanEffects.TransientMentions | epiproc/ingest/scan.py:121-126 | an error is transient exactly when it mentions one of the four connectivity words, in any case |
| ScanEffects.CopySaysSo | epiproc/ingest/scan.py:84-88 | the row of a file whose bytes are ingested under another path says so |
| ScanEffects.NamesakeSaysSo | epiproc/ingest/scan.py:98-104 | the row of a file whose name is stored in its own folder's supplier says so |
| ScanEffects.RepeatedNumberSaysSo | epiproc/ingest/scan.py:115-119 | the row of a file dropped for its number names the number and the stored document that has it |
| ScanEffects.CountedUnderItsOutcome | epiproc/ingest/scan.py:58-134 | each file is counted as scanned and under its own outcome only |
| CrashRestart.CrashRestartConverges | epiproc/ingest/scan.py:67-134 | any number of kills, also between the two commits, then a complete scan, gives the invoices and line items of an uninterrupted scan, if copies agree and no old entry of the ledger can be forgotten |
| CrashDivergence.FolderIsSafeExactlyWhen | epiproc/ingest/scan.py:81-113 | a folder converges from every state, for every reading and all kills, if and only if its copies agree and none of its files can make the rerun forget another's old contents |
| CrashDivergence.StrayCopyDiverges | epiproc/ingest/scan.py:81-113 | in any folder, two equal files of which the first has a supplier's folder and the second another supplier or filename leave two invoices after a kill instead of one |
| CrashDivergence.ForgetfulDiverges | epiproc/ingest/scan.py:81-127 | in any folder, a file that is down, one stored meanwhile that gets it dropped, by name or by bytes, and one with its old contents leave another invoice after a kill |
| JobQueue.AtMostOneExecutes | epiproc/worker.py:108-172 | over every interleaving at most one live worker executes a job, and that job runs under its pid or was cancelled |
| JobQueue.OnlyTheRunnerCloses | epiproc/worker.py:136-155 | done and error are written by the executing worker only, according to how the job ran |
| JobQueue.TerminalIsFinal | epiproc/db/jobs.py:33-42 | over every run no job disappears and done, error and cancelled are never left |
| JobQueue.RequeueReclaimsTheAbandoned | epiproc/worker.py:51-76 | after a requeue every running job belongs to a live process other than the requeuer; exactly the abandoned ones are queued again |
| JobQueue.ClaimsFollowReclaims | epiproc/worker.py:112-119 | a job is claimed once plus once for each requeue that found it abandoned |
| JobLaws.EveryStepOnEveryJob | epiproc/worker.py:51-155 | what each step of the protocol does to each job; only a creation adds one, queued and unclaimed |
| JobLaws.EveryStepOnTheWorker | epiproc/worker.py:102-172 | which step takes a worker from which phase to which |
| JobLaws.ClaimsAndClosingsNeed | epiproc/worker.py:111-155 | a claim needs a polling worker and a queued job, a closing a worker that executes one |
| JobLaws.CycleWithWork | epiproc/worker.py:107-172 | a cycle claims the first claimable job and closes it as it ran, and which of these steps a lost connection leaves out |
| JobLaws.CycleWithoutWork | epiproc/worker.py:107-134 | with nothing to claim a cycle does nothing, or loses the connection and recovers |
| JobLaws.CycleWithoutConnection | epiproc/worker.py:156-172 | a cycle without a connection only recovers |
| RequeueRace.SplitRequeueIsAtomicExactlyWhenNothingItReclaimsIsCancelled | epiproc/worker.py:60-76 | with one worker SELECT then UPDATE equals the atomic requeue if and only if no reclaimed job is cancelled in between |
| RequeueRace.WriteIsSafeExactlyWhenItInterruptsNobody | epiproc/worker.py:60-76 | after SELECT and UPDATE at most one worker executes a job, over every later run, if and only if no job read as abandoned is executed by a live worker at the UPDATE |
| RequeueRace.WriteKeepsEnded | epiproc/worker.py:60-76 | the UPDATE leaves every ended job as it is if and only if no row read as abandoned has ended |
| RequeueRace.RaceIsSafeExactlyWhenNoWriteInterrupts | epiproc/worker.py:60-76 | with the requeue as two steps of the protocol, a run stays safe throughout if and only if no write interrupts a live worker, and then at most one executes a job |
| RequeueRace.EndedIsFinalExactlyWhenNoWriteRevives | epiproc/worker.py:60-76 | over every such run terminal states are final if and only if no write revives one |
| RequeueRace.RowsAreHeldWhileDown | epiproc/worker.py:60-76 | over every such run rows read for a requeue are held only by live workers that have not written yet |
| RequeueRace.UndisturbedSplitRequeueIsAtomic | epiproc/worker.py:60-76 | so it is when no job that either form reclaims is claimed, cancelled or closed in between |
| RequeueRace.CancelDuringRequeueIsLost | epiproc/worker.py:73-75 | a cancel between the two statements is undone |
| RequeueRace.TwoRequeuersRunOneJobTwice | epiproc/worker.py:60-76 | two overlapping requeues can make two live workers execute one job |
| JobQueue.JobTable.CreateJob | epiproc/db/jobs.py:14-22 | appends a queued job |
| JobQueue.JobTable.CancelJob | epiproc/db/jobs.py:33-42 | cancels exactly a queued or running job and says so |
| JobQueue.JobTable.ClaimOldest | epiproc/worker.py:111-119 | claims the first queued job that is not locked, if there is one |
| JobQueue.JobTable.CloseJob | epiproc/worker.py:137-154 | writes done or error, with the message cut to 1000 characters, on a job still running |
| JobQueue.JobTable.RequeueAbandoned | epiproc/worker.py:51-76 | the loop over running jobs requeues exactly the abandoned ones |
| JobQueue.Worker.PollOnce | epiproc/worker.py:107-172 | one cycle is the sequence of protocol steps fixed by what it met; a scan only when idle and due |
| Continuation.LinesAreKeptInOrder | epiproc/ingest/pdf_vlm.py:117-139 | over all pages every line keeps its place and every non-null field, only prices may change, nothing becomes null |
| Continuation.UnmatchedAreAppended | epiproc/ingest/pdf_vlm.py:124-139 | a page adds exactly its unmatched lines, unaltered and in order, at the end |
| Continuation.TotalsEndAsLastGiven | epiproc/ingest/pdf_vlm.py:141-147 | each totals field ends as its last non-null value over the pages |
| Continuation.HeaderEndsAsLastGiven | epiproc/ingest/pdf_vlm.py:148-150 | payment terms and notes end as the last non-null value over the pages, every other header field as on the first |
| Continuation.MergedOntoExactlyWhen | epiproc/ingest/pdf_vlm.py:124-136 | a line goes onto the last one at its position exactly when they agree in a non-blank article or description |
| Continuation.MergingTwiceIsMergingOnce | epiproc/ingest/pdf_vlm.py:117-150 | with distinct positions, merging a page twice is merging it once if and only if every line has a position and an article or description |
| Continuation.PageFiguresAreShown | epiproc/ingest/pdf_vlm.py:124-139 | after the merge the line at each position of such a page shows the page's prices and has a value wherever the page gives one |
| Continuation.RepeatedPositionIsAppendedAgain | epiproc/ingest/pdf_vlm.py:121-122 | a repeated position alone makes the second merge append a line again |
| PageMerge.Item.Fill | epiproc/ingest/pdf_vlm.py:133-135 | filling one dictionary key by key, in any order, gives the merged line |
| PageMerge.IndexPositions | epiproc/ingest/pdf_vlm.py:121-122 | the index finds the last line at each position |
| PageMerge.MergeOne | epiproc/ingest/pdf_vlm.py:129-136 | one line is merged in place onto the line it matches, and no other line changes |
| PageMerge.InvoiceDoc.MergeContinuation | epiproc/ingest/pdf_vlm.py:117-150 | the in-place merge, through an index built before it, equals the merge that looks up the current lines |
| PageMerge.ExtractInvoice | epiproc/ingest/pdf_vlm.py:154-179 | the page fold; it fails when a page cannot be read or merged, or there is none |
| Rules.QuietMeansReconciled | epiproc/ingest/rules.py:78-134 | no warning if and only if the lines meet the total, or meet the subtotal while subtotal, freight, handling and VAT less the two discounts meet the total; and the 0.025 / 0.05 bound |
| Rules.ExactFiguresAreQuiet | epiproc/ingest/rules.py:78-134 | figures that agree exactly never get a warning |
| Rules.WarningsTellTheFigures | epiproc/ingest/rules.py:103-134 | for every invoice, credit notes and missing figures included: exactly which warnings it gets and the amounts they show |
| Rules.LineSumGrows | epiproc/ingest/rules.py:88-90 | an object line adds its numeric total_price to the sum, any other line nothing |
| Rules.CreditNotesSaySo | epiproc/ingest/rules.py:26-27 | a credit note is one whose document type contains "credit" in any case |
| Rules.CreditSignFlipsTheFigures | epiproc/ingest/rules.py:47-65 | on a credit note four totals and two prices per line lose their positive sign and nothing else changes |
| Rules.TotalIsDerivedFromSubtotal | epiproc/ingest/rules.py:68-75 | a missing total is taken from a numeric subtotal and nothing else changes |
| Rules.CustomsLinesAreBareCodes | epiproc/ingest/rules.py:16-40 | a customs line is an object whose description is eight digits between white space |
| Rules.DroppingRemovesTheHsSum | epiproc/ingest/rules.py:30-44 | dropping takes out exactly what the customs lines added to the sum |
| Rules.DropTellsHowMany | epiproc/ingest/rules.py:37-44 | the note tells how many lines went, and there is none exactly when no line is a customs line |
| Rules.FlipAllFields | epiproc/ingest/rules.py:52-64 | each listed positive figure becomes its negative, and no other field changes |
| Rules.NoHsLineIsKept | epiproc/ingest/rules.py:38-40 | what is kept are lines of the invoice that are no bare 8-digit code |
| Rules.OthersAreKept | epiproc/ingest/rules.py:38-40 | every line that is no bare 8-digit code is kept |
| Rules.DefaultRulesSettle | epiproc/ingest/rules.py:137-152 | the default rules fail exactly on a credit note with a non-object line; otherwise no customs line remains, a subtotal implies a total, and a credit note has no positive figure |
| Rules.SupplierRulesAreHarmless | epiproc/ingest/rules.py:141-152 | any further op list changes nothing but the warning, which repeats once per further reconcile_totals |
| RuleEngine.InvoiceRecord.DropHsSummary | epiproc/ingest/rules.py:30-44 | the op in place, by a loop over the lines |
| RuleEngine.InvoiceRecord.CreditNoteSign | epiproc/ingest/rules.py:47-65 | the op in place on totals and on every line dictionary |
| RuleEngine.InvoiceRecord.DeriveTotalFromSubtotal | epiproc/ingest/rules.py:68-75 | the op in place on the totals |
| RuleEngine.InvoiceRecord.ReconcileTotals | epiproc/ingest/rules.py:78-134 | the op in place on the warning |
| RuleEngine.InvoiceRecord.ApplyRules | epiproc/ingest/rules.py:141-152 | the loop over op names, with its notes, stopping where Python raises |
| Dashboard.GroupGroups | epiproc/db/dashboard.py:337-402 | accumulating row by row gives one cell per key that occurs, with that key's count and total |
| DashboardLaws.ItemCountsInItsCategory | epiproc/db/dashboard.py:337-347 | one more priced item raises the cell of its own category, or "Uncategorised", and no other |
| DashboardLaws.ItemCountsInItsDepartment | epiproc/db/dashboard.py:363-368 | and the cell of its category and department, or "Unknown" |
| DashboardLaws.ItemCountsWithItsSupplier | epiproc/db/dashboard.py:552-557 | and the cell of its category and supplier |
| DashboardLaws.CellsAreShownRounded | epiproc/db/dashboard.py:325-347 | rounding keeps place, key and count and shows four decimals, ties to even |
| DashboardLaws.InvoiceCountsForItsSupplier | epiproc/db/dashboard.py:533-540 | an invoice adds to the count and spend of the supplier that shows its name |
| DashboardLaws.ItemCountsForItsSupplier | epiproc/db/dashboard.py:533-540 | an item adds to the item count of that supplier |
| DashboardLaws.GrandTotalAddsTheShownTotals | epiproc/db/dashboard.py:532-558 | the grand total adds up the totals shown for the suppliers |
| DashboardLaws.NothingToShow | epiproc/db/dashboard.py:337-368 | without items no view shows a cell |
| DashboardLaws.NoSpendWithoutInvoices | epiproc/db/dashboard.py:533-540 | without invoices and items a supplier shows nothing |
| Dashboard.ViewsConserveSpend | epiproc/db/dashboard.py:337-556 | category, category by department and category by supplier each partition the priced total |
| Dashboard.MatrixRowsMeetCategoryTotals | epiproc/db/dashboard.py:363-556 | a category's row of either matrix adds up to that category's total |
| Dashboard.ShownRowMeetsShownTotal | epiproc/db/dashboard.py:325-556 | after rounding a row of k cells is within (k + 1) * 0.00005 of its category's shown total |
| Dashboard.SortingIsStable | epiproc/db/dashboard.py:344-347 | the category list descends and keeps the cells of each amount in their order |
| Dashboard.GrandTotalCountsPerName | epiproc/db/dashboard.py:533-560 | the grand total counts an invoice once per supplier that shows its name, within n * 0.00005 |
| Dashboard.GrandTotalMeetsSpend | epiproc/db/dashboard.py:533-560 | with distinct display names it is within n * 0.00005 of all invoices' spend |
| Dashboard.SharedNameCountsTwice | epiproc/db/dashboard.py:533-540 | with a shared display name the spend is counted at least twice |
| Dashboard.GrandTotalIsRightExactlyWhenNamesDiffer | epiproc/db/dashboard.py:533-560 | the shown grand total is all invoices' spend up to rounding, for all invoices, if and only if the display names differ |
| Dashboard.Accumulate | epiproc/db/dashboard.py:363-402 | the accumulation loop computes the group-by |
| Dashboard.CatTotals | epiproc/db/dashboard.py:337-347 | category totals: grouped, rounded, sorted |
| Dashboard.CatDeptMatrix | epiproc/db/dashboard.py:363-368 | the category by department matrix; each row meets its category's shown total up to rounding |
| Dashboard.CatSupplierMatrix | epiproc/db/dashboard.py:552-557 | the category by supplier matrix; each row meets its category's shown total up to rounding |
| Dashboard.SupplierTotals | epiproc/db/dashboard.py:533-560 | supplier totals, invoice and item counts, and the grand total |
| Categorise.AcceptedWhenCovered | epiproc/ingest/categorise.py:78-85 | a batch is accepted by count exactly when every index 1..n is answered |
| Categorise.AllCovered | epiproc/ingest/categorise.py:84-88 | n different indices in 1..n are all of them |
| Categorise.CategoriesAreAligned | epiproc/ingest/categorise.py:95-110 | one entry per description; entry i is present exactly when its batch of 25 was covered, and shows the category and variety of the last answer for its index |
| Categorise.LabelShowsItsAnswer | epiproc/ingest/categorise.py:86-91 | a label is the answered category, stripped, or "Other" when blank, and the answered variety, or that category when blank |
| Categorise.ReorderingChangesNothing | epiproc/ingest/categorise.py:78-92 | reordering answers with distinct indices changes nothing |
| Categorise.LabelsAreClean | epiproc/ingest/categorise.py:86-91 | no label is blank or carries outer white space |
| Categorise.ClassifyBatch | epiproc/ingest/categorise.py:78-92 | the two loops compute the labels of one batch; label j shows the last answer for index j |
| Categorise.CategoriseDescriptions | epiproc/ingest/categorise.py:95-110 | the batch loop; a failed batch leaves its items empty |
| Common.StripIsTheCore | epiproc/ingest/categorise.py:89-90 | `strip` leaves the one text with bare ends that the original frames in white space |
| Common.WhiteSpaceIs | epiproc/ingest/rules.py:16 | white space is the 29 characters Python takes for it |
| Common.LowerMovesCapitals | epiproc/ingest/pipeline.py:31 | lower-casing moves the 26 capitals and leaves every other character |
| Common.ContainsWhereItOccurs | epiproc/ingest/scan.py:124 | one text is in another exactly when it occurs at some place |
| ScriptSafe.EscapingIsTransparent | epiproc/web/dashboard_html.py:169-186 | every JSON text of RFC 8259 decodes to the same value after the five replacements |
| ScriptSafe.NothingSpecialRemains | epiproc/web/dashboard_html.py:169-186 | no raw <, >, &, U+2028 or U+2029 is left, in any text |
| ScriptSafe.OrderDoesNotMatter | epiproc/web/dashboard_html.py:179-186 | the replacements give the same text in every order |
| ScriptSafe.EscapingIsIdempotent | epiproc/web/dashboard_html.py:179-186 | escaping an escaped text changes nothing |
| JsonEncoder.EmbeddedValueIsReadBack | epiproc/web/dashboard_html.py:179-186 | encoding, escaping and decoding any value with finite numbers gives that value |
| JsonEncoder.InvalidTextMayBecomeValid | epiproc/web/dashboard_html.py:181 | outside JSON texts the escapes are not transparent |

## Left out

- Money columns are exact numbers: rounding and overflow of `NUMERIC(12,4)` columns, binary floats and the 28-digit Decimal context are not modelled.
- Names and texts lower-case and case-fold in ASCII only; other letters stay as they are, so U+0130 or U+212A may differ, and digits are ASCII digits.
- OfferImport.Driver.HandleReal: rows are values, so the warnings that `handle` appends to the caller's row object appear in the report line only; `ConfirmedUpload` states what a second run over those objects does.
- OfferImport.Driver.HandleDry: the same as for HandleReal.
- OfferImport.Driver.Decide: the same as for HandleReal.
- OfferImport.RunReal: the same as for HandleReal.
- OfferImport.RunDry: the same as for HandleReal.
- OfferImport.RunOfferImport: the same as for HandleReal.
- Preview.DryRunPredictsImport: batches outside `Preview.Separate` for which the preview happens to be right are not singled out.
- Preview.PreviewIsTheReport: the same as for DryRunPredictsImport.
- Two imports at the same time: each import is one transaction on its own.
- CostingTables.AdminSave: `created_at` and `updated_at` columns of all tables are not modelled, because no branch reads them; costings are in creation order.
- Reading the offer workbook (`parse_offer`): header and data region detection only feeds the rows that the import takes as given.
- FolderScan.ScanAndProcess: the folder's order and the categorisation after the scan are outside; the list of files is given, and two files of one digest are the same bytes.
- FolderScan.ProcessOnePdf: an error out of the correction rules escapes `process_pdf`; the model has no such outcome.
- FolderScan.HandleFile: such an error ends the scan at that file, with nothing written for it; a restart then meets it again.
- InvoiceStore.InvoiceTable.InsertRecord: line items are objects and figures are numbers; skipping other items and coercing numbers and dates add only easy members.
- ScanSpec.FindNumber: the query has LIMIT 1 without an order; the model takes the first row, and under `ScanLaws.Deduplicated` there is only one.
- ScanSpec.ProcessPdf: extraction stands for reading and correcting the PDF; an error out of the corrections, which `Rules.DefaultRulesSettle` locates, stops the scan and is not modelled there, nor are errors of the database.
- ScanSpec.Record: columns that are copied unchanged from the extracted record stand behind one text.
- JobQueue.Next: a requeue is one atomic step in the protocol; `RequeueRace` has the two statements of the code as two steps, with every row tested for liveness when it is written. Process ids are those of one pid namespace.
- JobQueue.Worker.PollOnce: a cycle is shown undisturbed; interleavings of several workers are those of the protocol's steps.
- Continuation.Page: a `line_items` value that is neither a list nor empty, which guided decoding excludes, is not modelled; of the other keys only `payment_terms` and `notes` are merged by the code.
- Rules.Invoice: totals that are neither an object nor null, which guided decoding excludes, and the digits in warning texts are not modelled.
- Dashboard: department normalisation, department and monthly totals and the slimming of rows add only easy members; departments come with the rows.
- JsonText: characters are Unicode scalar values, so lone surrogates cannot occur; numbers are compared as written.
- JsonEncoder.EmbeddedValueIsReadBack: NaN and infinities, which the encoder writes and RFC 8259 does not allow, are excluded.
- Retries, timeouts and prompts of model calls, supplier YAML files, web routes, sessions and email are outside.
