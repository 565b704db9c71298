# Product analysis and order-UI logic, modelled in Dafny

This project models two parts of an ordering system for a chain of shops.

**Back end: the product-analysis scheduler.** The scheduler keeps two things:

- a table of per-product, per-branch, per-day sold quantities (the product-analysis records);
- a running `saleQuantityHistory` counter on each product.

It has two runs:

- **Bootstrap run** (`initProductAnalysis`). When the table is empty, it:
  - turns every row of the all-history aggregation query into one record;
  - adds each product's quantities to its counter;
  - does both in one transaction.
- **Daily refresh** (`refreshProductAnalysis`). It:
  - skips the day when any record is already dated at the target date;
  - otherwise reconciles yesterday's rows against the records stored for each product on that date;
  - commits the inserts, the updates and the changed counters together.

**Front end: the pure logic of five client screens.**

- The error-toast key lookup, with its fallback key.
- The price range of a best-selling product.
- The cart subtotal and total.
- The draft-config editing of the system-config form.
- Placement of the table-layout page's context menu, plus the clamp-and-revert logic of dragging a table.

Modelling choices:

- The database is a value:
  - the analysis table is a sequence of records (position = row identity);
  - products are a map from id to counter;
  - branches are a set of ids.
- A run is a function from that value, the query rows and the save faults to an outcome.
- Failures are explicit:
  - `Result` values for a missing product or branch;
  - a `Faults` parameter for a save that throws.
- Dates are whole hours on one time line. The row-to-record mapper adds `MapperShiftHours` (7) to a row's date.
- Every rolled-back run carries no database, so nothing it wrote survives.

Modules:

- `Wrappers`: `Option` and `Result`.
- `AnalysisStore`: records, rows, the transaction.
- `Bootstrap`: the bootstrap run.
- `Refresh`: the refresh run.
- `RefreshProperties`: what the refresh run guarantees.
- `CounterSums`: how each product's counter relates to the sum of its records across runs.
- `Toast`, `PriceRange`, `Cart`, `SystemConfig`, `TablePage`: the client screens.

### Behaviour modelled as the code has it

- **An update does not move the counter.** A stored record whose quantity differs from yesterday's row is overwritten in place. The subtraction that should remove the old quantity reads the field after it was overwritten. So the counter moves by 0 rather than by new minus old (`Refresh.ReconcileRow`, `RefreshProperties.UpdateKeepsCounter`).
- **With one `target`, the update path never runs.** The skip guard and the per-product snapshot both use yesterday at 07:00, computed from two separate clock reads (scheduler.ts:146-148 and 180-182). The model takes them to be one date, `target`. A refresh that gets past the guard therefore finds no record to match, inserts every row and updates none (`RefreshProperties.RefreshInsertsEveryRow`). So the previous point never affects a committed run.
- **Duplicate rows are both inserted.** Matching consults only the records loaded before the run, not records the run is about to insert. Two rows of one group with the same branch and date become two records with the same key (`RefreshProperties.DuplicateRowsInsertedTwice`). This breaks one record per key, but not the counters: each inserted record adds its quantity to both the counter and the records' sum.
- **Counters and records move together.** Every committed run moves each product's counter and the sum of its records' quantities by the same amount. So a counter that equalled its records' sum still does afterwards (`CounterSums.RefreshKeepsCounterSums`, `CounterSums.InitKeepsCounterSums`).
- **The bootstrap adds to the stored counter.** It starts from the product's `saleQuantityHistory` instead of 0. So it keeps the match between counter and records, but does not establish it when a counter starts non-zero beside an empty table (`CounterSums.InitKeepsStaleCounter`).
- **Draft configs are sent with their slug.** The form's comment says the slug is removed before sending, but the copy `{ ...config }` keeps every field. The model sends each draft whole (`SystemConfig.SubmittedConfigs`).

## Model

| member | source | states |
|---|---|---|
| AnalysisStore.Commit | app/order-api/src/product-analysis/product-analysis.scheduler.ts:117-138 | the transaction fails exactly when a save throws: a record-save failure is reported when there is one, otherwise the product-save failure; a committed transaction stores the records with every write applied in order and the counters with every save applied, and keeps the branches |
| AnalysisStore.SavesApplied | app/order-api/src/product-analysis/product-analysis.scheduler.ts:125 | saving products with distinct ids gives each saved product exactly its new counter; every other product keeps its counter and stays present or absent as before |
| AnalysisStore.InsertsAppend | app/order-api/src/product-analysis/product-analysis.scheduler.ts:123-124 | saving only new records keeps the existing records and appends the new ones after them, in order |
| AnalysisStore.MapperRoundTrip | app/order-api/src/product-analysis/product-analysis.scheduler.ts:95-102 | the row-to-record mapping with the product attached loses nothing: shifting the record's date back by 7 hours gives the row again, carrying the attached product |
| AnalysisStore.ApplyWritesKeepKeys | app/order-api/src/product-analysis/product-analysis.scheduler.ts:124 | saving the records adds exactly one record per insert and leaves every existing record's product, branch and date as they were |
| AnalysisStore.ApplySavesKeys | app/order-api/src/product-analysis/product-analysis.scheduler.ts:125 | saving products never drops one: afterwards exactly the previously stored products and the saved ones exist |
| Bootstrap.MaterializeGroup | app/order-api/src/product-analysis/product-analysis.scheduler.ts:87-105 | a group's records exist exactly when every row's branch exists (otherwise BRANCH_NOT_FOUND); there is one per row, in order, the row shifted by the mapper and attached to the group's product |
| Bootstrap.BootstrapPlan | app/order-api/src/product-analysis/product-analysis.scheduler.ts:76-114 | building the bootstrap's records and counters can only fail with product-not-found or branch-not-found |
| Bootstrap.PlanExistsIffResolvable | app/order-api/src/product-analysis/product-analysis.scheduler.ts:78-93 | the bootstrap plan exists if and only if every row's product and branch can be looked up |
| Bootstrap.PlanInsertsEveryRow | app/order-api/src/product-analysis/product-analysis.scheduler.ts:87-123 | the plan inserts exactly one record per query row, in row order, carrying the row's product, branch, shifted date and quantity |
| Bootstrap.PlanSavesEachGroup | app/order-api/src/product-analysis/product-analysis.scheduler.ts:85-110 | the plan saves each group's product once, at its previous counter plus the sum of the group's quantities |
| Bootstrap.InitProductAnalysis | app/order-api/src/product-analysis/product-analysis.scheduler.ts:47-139 | the run does nothing exactly when the table already holds a record; every failure message starts with "Error when init product analysis: " |
| Bootstrap.InitFailsExactly | app/order-api/src/product-analysis/product-analysis.scheduler.ts:121-135 | on an empty table the run fails if and only if a product or branch is missing or a save throws; a lookup failure carries the not-found message |
| Bootstrap.InitStoresOneRecordPerRow | app/order-api/src/product-analysis/product-analysis.scheduler.ts:116-126 | a committed bootstrap stores exactly one record per query row, in row order, and keeps the branches |
| Bootstrap.InitAddsGroupQuantities | app/order-api/src/product-analysis/product-analysis.scheduler.ts:85-125 | a committed bootstrap adds each group's quantities to its product's counter and leaves every other product unchanged |
| Bootstrap.InitIsIdempotent | app/order-api/src/product-analysis/product-analysis.scheduler.ts:50-55 | after a committed bootstrap that stored anything, any second bootstrap does nothing |
| Refresh.FindFrom | app/order-api/src/product-analysis/product-analysis.scheduler.ts:214-221 | the search returns the first matching snapshot record at or after its start, or nothing when none there matches |
| Refresh.FindMatch | app/order-api/src/product-analysis/product-analysis.scheduler.ts:214-221 | a found record is the first snapshot record with the row's product, branch and shifted date; nothing is found if and only if no snapshot record matches |
| Refresh.ReconcileRow | app/order-api/src/product-analysis/product-analysis.scheduler.ts:206-245 | a missing branch fails; an unmatched row is inserted and adds its quantity; a match with a different quantity is overwritten in place and leaves the counter unchanged; an equal match changes nothing; the counter minus the inserted quantity is invariant |
| Refresh.ReconcileRows | app/order-api/src/product-analysis/product-analysis.scheduler.ts:206-249 | a group's rows reconcile exactly when every branch exists (otherwise BRANCH_NOT_FOUND), with the counter moving only by inserted quantities |
| Refresh.GroupStep | app/order-api/src/product-analysis/product-analysis.scheduler.ts:186-256 | one product's reconciliation succeeds exactly when the product and every branch exist; it saves the product only when its counter changed |
| Refresh.RefreshGroups | app/order-api/src/product-analysis/product-analysis.scheduler.ts:185-257 | reconciling all groups fails only with product- or branch-not-found, and every product save changes that product's counter |
| Refresh.RefreshPlan | app/order-api/src/product-analysis/product-analysis.scheduler.ts:250-253 | the refresh plan saves a product only when its counter differs from the stored one |
| Refresh.RefreshProductAnalysis | app/order-api/src/product-analysis/product-analysis.scheduler.ts:143-290 | the run is skipped if and only if some record is dated at the target; a failure is logged with both error prefixes and not rethrown |
| RefreshProperties.RowsTrackView | app/order-api/src/product-analysis/product-analysis.scheduler.ts:214-232 | the snapshot objects mutated in place always equal the stored records with the group's collected writes applied |
| RefreshProperties.GroupsTrackView | app/order-api/src/product-analysis/product-analysis.scheduler.ts:185-257 | across all groups, the records in memory equal the stored records with all collected writes applied |
| RefreshProperties.CommitStoresView | app/order-api/src/product-analysis/product-analysis.scheduler.ts:264-270 | a committed refresh leaves the table equal to the records the run held in memory and keeps the branches |
| RefreshProperties.GroupsSucceedIffResolvable | app/order-api/src/product-analysis/product-analysis.scheduler.ts:187-212 | reconciling the groups succeeds if and only if every row's product and branch can be looked up |
| RefreshProperties.RefreshFailsExactly | app/order-api/src/product-analysis/product-analysis.scheduler.ts:264-289 | past the skip guard, the refresh fails if and only if a product or branch is missing or a save throws |
| RefreshProperties.ClearRowsInsertAll | app/order-api/src/product-analysis/product-analysis.scheduler.ts:214-244 | with no snapshot record dated at the target, every row of a group is appended as an insert and the counter grows by the group's sum |
| RefreshProperties.ClearStep | app/order-api/src/product-analysis/product-analysis.scheduler.ts:206-249 | with no snapshot record dated at the target, a group appends one insert of each row's stored form, in row order, and the records in memory stay clear of the target |
| RefreshProperties.ClearStepSaves | app/order-api/src/product-analysis/product-analysis.scheduler.ts:194-253 | with no snapshot record dated at the target, a group saves its product, at the old counter plus the group's sum, exactly when that sum is not zero |
| RefreshProperties.ClearGroupsInsertAll | app/order-api/src/product-analysis/product-analysis.scheduler.ts:185-257 | with no snapshot record dated at the target, the run's writes are one insert per row of all groups, in order |
| RefreshProperties.ClearGroupsSaveCounters | app/order-api/src/product-analysis/product-analysis.scheduler.ts:250-253 | with no snapshot record dated at the target, the run saves, in group order, each product whose group sum is not zero, and every group's product exists |
| RefreshProperties.CounterSavesKeepKeys | app/order-api/src/product-analysis/product-analysis.scheduler.ts:250-253 | applying the counter saves of a run that inserts every row to counters that already hold every group's product adds no product |
| RefreshProperties.CounterSavesSkip | app/order-api/src/product-analysis/product-analysis.scheduler.ts:250-253 | applying the counter saves of a run that inserts every row leaves the counter of a product that no group belongs to unchanged |
| RefreshProperties.CounterSavesHit | app/order-api/src/product-analysis/product-analysis.scheduler.ts:194-253 | applying the counter saves of a run that inserts every row sets each group's product to its stored counter plus the group's sum when that sum is not zero, and leaves it alone otherwise |
| RefreshProperties.CounterSavesApplied | app/order-api/src/product-analysis/product-analysis.scheduler.ts:250-269 | applying the counter saves of a run that inserts every row to the stored counters adds each group's sum to its product and leaves every other product unchanged |
| RefreshProperties.RefreshedCommitsGroups | app/order-api/src/product-analysis/product-analysis.scheduler.ts:264-270 | a committed refresh applies exactly the writes and saves its groups produced |
| RefreshProperties.FreshRunInserts | app/order-api/src/product-analysis/product-analysis.scheduler.ts:214-244 | a run over stored records none of which is dated at the target writes exactly one insert of each row's stored form, in row order, and nothing else |
| RefreshProperties.FreshRunAppendsRows | app/order-api/src/product-analysis/product-analysis.scheduler.ts:214-268 | saving the writes of a run over stored records none of which is dated at the target appends every row's stored form after them, in row order |
| RefreshProperties.RefreshInsertsEveryRow | app/order-api/src/product-analysis/product-analysis.scheduler.ts:151-244 | with the guard's date and the snapshot's date taken as one `target`, a committed refresh keeps every stored record and appends one record per row, in order, updating none |
| RefreshProperties.RefreshAddsGroupQuantities | app/order-api/src/product-analysis/product-analysis.scheduler.ts:194-253 | a committed refresh adds each group's quantities to its product's counter and leaves every other product unchanged |
| RefreshProperties.DuplicateRowsReconciled | app/order-api/src/product-analysis/product-analysis.scheduler.ts:214-243 | within one group, a second row with the same product, branch and date does not match the record the first row created, so both are inserted |
| RefreshProperties.DuplicateRowsInsertedTwice | app/order-api/src/product-analysis/product-analysis.scheduler.ts:214-243 | two rows with the same product, branch and date in one group become two inserts with the same key |
| RefreshProperties.UpdateKeepsCounter | app/order-api/src/product-analysis/product-analysis.scheduler.ts:224-231 | a stored quantity 5 corrected to 7 is overwritten in place and the counter stays at 10 instead of growing by 2 |
| CounterSums.SumForAppend | app/order-api/src/product-analysis/product-analysis.scheduler.ts:123 | the quantity the table holds for a product, over records saved after others, is the sum of the two parts |
| CounterSums.FormsSum | app/order-api/src/product-analysis/product-analysis.scheduler.ts:95-100 | the stored forms of rows of one product hold their quantities for that product and nothing for any other |
| CounterSums.GroupsFormsSum | app/order-api/src/product-analysis/product-analysis.scheduler.ts:87-113 | the stored forms of all grouped rows hold a group's quantities for its product and nothing for a product with no group |
| CounterSums.AppendedFormsSum | app/order-api/src/product-analysis/product-analysis.scheduler.ts:87-124 | appending the grouped rows' stored forms raises each grouped product's records' sum by its group's quantities and leaves every other product's sum alone |
| CounterSums.RefreshAppendsForms | app/order-api/src/product-analysis/product-analysis.scheduler.ts:214-268 | a committed refresh leaves the table as the stored records followed by the rows' stored forms |
| CounterSums.RefreshKeepsCounterGaps | app/order-api/src/product-analysis/product-analysis.scheduler.ts:185-270 | a committed refresh keeps the products and, for each, the difference between its counter and its records' sum |
| CounterSums.RefreshKeepsCounterSums | app/order-api/src/product-analysis/product-analysis.scheduler.ts:185-270 | a committed refresh starting from counters equal to their records' sums ends with counters equal to their records' sums |
| CounterSums.InitKeepsCounterGaps | app/order-api/src/product-analysis/product-analysis.scheduler.ts:76-126 | a committed bootstrap keeps the products and, for each, the difference between its counter and its records' sum |
| CounterSums.InitKeepsCounterSums | app/order-api/src/product-analysis/product-analysis.scheduler.ts:76-126 | a committed bootstrap starting from counters equal to their records' sums ends with counters equal to their records' sums |
| CounterSums.InitKeepsStaleCounter | app/order-api/src/product-analysis/product-analysis.scheduler.ts:85-125 | a counter of 4 beside an empty table ends at 6 with records summing to 2, because the bootstrap adds to the stored counter |
| Toast.Key | app/order-ui/src/utils/toast.ts:5-189 | every key written in the table lies in the `toast.` namespace and is non-empty |
| Toast.ErrorCodes | app/order-ui/src/utils/toast.ts:5-189 | a code has a listed key exactly when the table names it, and every listed key begins with `toast.` |
| Toast.KeyOr | app/order-ui/src/utils/toast.ts:196 | a listed, non-empty key is chosen as is; a missing one gives `toast.requestFailed` |
| Toast.ShowErrorToast | app/order-ui/src/utils/toast.ts:195-198 | a listed code selects its listed key, any other code selects `toast.requestFailed`, and the key always begins with `toast.` |
| Toast.UseErrorToast | app/order-ui/src/utils/toast.ts:200-203 | the hook variant selects the listed key or the fallback key, always in the `toast.` namespace |
| Toast.BothToastsAgree | app/order-ui/src/utils/toast.ts:195-203 | both entry points select the same key for every code |
| Toast.UnauthorizedKey | app/order-ui/src/utils/toast.ts:7 | code 401 selects `toast.unauthorized` |
| Toast.UnlistedCodesFallBack | app/order-ui/src/utils/toast.ts:196 | codes 404 and 0, absent from the table, select `toast.requestFailed` |
| Toast.VoucherNotFoundHasTwoCodes | app/order-ui/src/utils/toast.ts:104-148 | the table is not injective: codes 1000 and 143401 both list `toast.voucherNotFound` |
| PriceRange.Prices | app/order-ui/src/app/client/home/components/best-seller-carousel.tsx:43 | the price list has one entry per variant, the variant's price, in order |
| PriceRange.MinPrice | app/order-ui/src/app/client/home/components/best-seller-carousel.tsx:44 | the minimum is one of the prices and no price is below it |
| PriceRange.MaxPrice | app/order-ui/src/app/client/home/components/best-seller-carousel.tsx:45 | the maximum is one of the prices and no price is above it |
| PriceRange.GetPriceRange | app/order-ui/src/app/client/home/components/best-seller-carousel.tsx:40-52 | the range is null exactly for a missing or empty list; min ≤ max; both bounds are variant prices; every price lies between them; it is a single price exactly when all prices are equal |
| PriceRange.RangeLabel | app/order-ui/src/app/client/home/components/best-seller-carousel.tsx:134-142 | a null range shows "0đ", a single-price range shows its price, any other range shows "min - max" |
| PriceRange.CardPriceLabel | app/order-ui/src/app/client/home/components/best-seller-carousel.tsx:131-152 | a product without variants shows "contact for price"; one price is shown exactly when all variants cost the same; a span has low < high and encloses every price |
| PriceRange.ZeroPriceNeverShown | app/order-ui/src/app/client/home/components/best-seller-carousel.tsx:131-138 | the "0đ" branch is dead because it sits under the non-empty check |
| PriceRange.TwoPricesShowSpan | app/order-ui/src/app/client/home/components/best-seller-carousel.tsx:139-141 | variants at 45000 and 30000 show the span 30000 - 45000 |
| Cart.Reduce | app/order-ui/src/components/app/drawer/cart-drawer.tsx:33-35 | folding items whose line amounts are all non-negative never lowers the running total |
| Cart.ReduceAddsSum | app/order-ui/src/components/app/drawer/cart-drawer.tsx:33-35 | the reduce from any starting total adds the sum of price times quantity over the items |
| Cart.Subtotal | app/order-ui/src/components/app/drawer/cart-drawer.tsx:32-36 | the subtotal is missing exactly when the cart or its items are missing, and is otherwise the sum of (price or 0) times quantity |
| Cart.Total | app/order-ui/src/components/app/drawer/cart-drawer.tsx:38-44 | the total plus the discount is the subtotal when the subtotal is non-zero; a missing or zero subtotal gives total 0 |
| Cart.EmptyCartSubtotal | app/order-ui/src/components/app/drawer/cart-drawer.tsx:33-35 | an empty item list gives subtotal 0 |
| Cart.UnpricedItemAddsNothing | app/order-ui/src/components/app/drawer/cart-drawer.tsx:34 | inserting an item without a price anywhere leaves the subtotal unchanged |
| Cart.TotalShowsSubtotal | app/order-ui/src/components/app/drawer/cart-drawer.tsx:29-44 | with the fixed discount of 0 the total always equals the subtotal, a missing subtotal shown as 0 |
| SystemConfig.WithField | app/order-ui/src/components/app/form/system-config-form.tsx:109 | the copy holds the new value in the named field and the original value in every other field |
| SystemConfig.UpdateConfigField | app/order-ui/src/components/app/form/system-config-form.tsx:102-112 | the list keeps its length and order; drafts with the slug get the field set and all others are unchanged |
| SystemConfig.Filter | app/order-ui/src/components/app/form/system-config-form.tsx:150 | the filter keeps exactly the passing elements, each as often as before, and never grows the list |
| SystemConfig.FilterAppend | app/order-ui/src/components/app/form/system-config-form.tsx:148-155 | filtering distributes over concatenation, so kept elements stay in their relative order |
| SystemConfig.RemoveConfig | app/order-ui/src/components/app/form/system-config-form.tsx:148-155 | exactly the drafts with the slug and exactly the slug's open description entries are dropped; everything else keeps its multiplicity |
| SystemConfig.ToggleDescriptionInput | app/order-ui/src/components/app/form/system-config-form.tsx:157-163 | an open slug is removed entirely and other slugs keep their multiplicity; a closed slug is appended at the end |
| SystemConfig.ToggleTwiceRestores | app/order-ui/src/components/app/form/system-config-form.tsx:157-163 | toggling a closed slug twice gives back the original list |
| SystemConfig.ToggleTwiceMovesToEnd | app/order-ui/src/components/app/form/system-config-form.tsx:157-163 | toggling an open slug twice leaves the list without it plus one occurrence at the end |
| SystemConfig.ValidConfigs | app/order-ui/src/components/app/form/system-config-form.tsx:116-118 | exactly the drafts with a non-empty key and value are kept, each as often as before; none are kept exactly when no draft qualifies |
| SystemConfig.SubmittedConfigs | app/order-ui/src/components/app/form/system-config-form.tsx:114-145 | exactly the valid drafts are sent; nothing is sent exactly when no draft is valid |
| SystemConfig.SubmittedConfigsAppend | app/order-ui/src/components/app/form/system-config-form.tsx:116-122 | drafts from two lists are submitted as each list's valid drafts, in order |
| SystemConfig.UpdateThenRemove | app/order-ui/src/components/app/form/system-config-form.tsx:102-155 | removing a slug after updating a non-slug field of its drafts is the same as just removing it |
| TablePage.Flip | app/order-ui/src/app/system/table/table-page.tsx:70-71 | a coordinate moves back by the menu's size exactly when the menu would cross the limit, and an unmoved menu fits |
| TablePage.OpenContextMenu | app/order-ui/src/app/system/table/table-page.tsx:58-79 | the menu shows for the table; x moves left by 192 exactly when x + 192 exceeds the viewport width, y up by 200 exactly when y + 200 exceeds its height; otherwise the menu fits |
| TablePage.FlippedMenuEndsAtCursor | app/order-ui/src/app/system/table/table-page.tsx:70-71 | a flipped menu's far edge lands exactly on the cursor |
| TablePage.SetOpen | app/order-ui/src/app/system/table/table-page.tsx:221-223 | opening or closing changes only visibility: position and table stay |
| TablePage.ReopenRestoresMenu | app/order-ui/src/app/system/table/table-page.tsx:221-223 | closing a shown menu and reopening it restores it exactly |
| TablePage.AfterMenuAction | app/order-ui/src/app/system/table/table-page.tsx:81-110 | after a status change or a delete the menu is back in the page's initial state (table-page.tsx:46-56): hidden at (0, 0) with no table |
| TablePage.MenuActionIdempotent | app/order-ui/src/app/system/table/table-page.tsx:81-110 | a second menu action after a first changes nothing, and closing a reset menu leaves it in the initial state |
| TablePage.Clamp | app/order-ui/src/app/system/table/table-page.tsx:135-139 | the clamped coordinate lies in [0, extent - 80] when extent ≥ 80, is 0 when extent < 80, and is unchanged when already in range |
| TablePage.ClampIdempotent | app/order-ui/src/app/system/table/table-page.tsx:135-139 | clamping twice equals clamping once |
| TablePage.ClampIsNearest | app/order-ui/src/app/system/table/table-page.tsx:135-139 | when the map can hold a table, the clamp picks the allowed coordinate nearest to the requested one |
| TablePage.FindTable | app/order-ui/src/app/system/table/table-page.tsx:122 | the found table is the first with the slug; nothing is found exactly when no table has it |
| TablePage.StoredPosition | app/order-ui/src/app/system/table/table-page.tsx:162-163 | each coordinate is the stored one when present and 0 when missing |
| TablePage.StartPosition | app/order-ui/src/app/system/table/table-page.tsx:129-132 | a drag starts from the page's last position for the table, else the stored position with a missing coordinate as 0 |
| TablePage.HandleDragEnd | app/order-ui/src/app/system/table/table-page.tsx:120-167 | nothing changes when the table is unknown or the map is missing; otherwise start plus offset, clamped, is shown and sent, only that table's entry changes, and a failed update shows the stored position instead |
| TablePage.DropLandsInsideMap | app/order-ui/src/app/system/table/table-page.tsx:135-155 | a saved drop on a map that can hold a table lands inside the map |
| TablePage.StillDropKeepsPosition | app/order-ui/src/app/system/table/table-page.tsx:129-145 | dropping an in-bounds table without moving it keeps every position |
| TablePage.FailedSaveForgetsEarlierMoves | app/order-ui/src/app/system/table/table-page.tsx:156-165 | a failed save drops earlier unsaved moves too and shows the stored position, a missing coordinate as 0 |

## Left out

- Persistence: the repositories, TypeORM and the query runner are not modelled. The lookups are map and set membership. The transaction is `AnalysisStore.Commit`.
- The aggregation queries: the SQL of the all-history and yesterday clauses is not part of this model. Their rows are inputs.
- The grouping helper: `groupProductAnalysisByProduct` is not part of this model. Its promise is assumed as a precondition (`Grouped`): groups are non-empty, each group has one product, and no product has two groups.
- The mapper: assumed to copy product, branch and quantity and to add 7 hours to the date (its profile is not part of this model). The refresh compares and writes the row's `totalProducts` (scheduler.ts:225-231), while both insert paths add the mapped `totalQuantity` (scheduler.ts:100, 240). The model reads one field, `Row.quantity`, for both, so it assumes the mapper copies `totalProducts` into `totalQuantity`.
- Clocks and scheduling: the date of the refresh is a parameter, and it serves both as the skip guard's date and as the snapshot's date. The source reads the clock twice, so the two differ when a run crosses midnight between the reads. In that case the update path could run, and the model does not cover it. The `@Timeout` and `@Cron` triggers are left out. So are `Date` and `moment` arithmetic and time zones.
- Concurrency: the `Promise.all` fan-outs are modelled in group and row order. When several lookups fail, the model reports the first in that order, while the source reports whichever rejection settles first. The model also assumes every lookup failure reaches the run's catch, rollback and log. In the source the lookups start before the query runner connects (scheduler.ts:76 and 185), and `Promise.all` only attaches to them after the transaction has started (scheduler.ts:122 and 265). So a lookup that rejects while the runner is still connecting would be an unhandled rejection, which by Node's default ends the process instead.
- Other I/O failures: lost connections and a failing skip-guard query are not modelled. The `Faults` parameter stands for a save that throws.
- Logging: log lines and their counts are left out, except the refresh's error line. The run's result is the committed database.
- Unchanged matches: a matched row with an equal quantity becomes an `undefined` entry of the saved array in the source. The model assumes the save skips that entry and writes nothing for it; no modelled code shows how the save treats it. With one `target` the path is not reached.
- Snapshot order: the per-product snapshot query has no `ORDER BY`. The model searches it in storage order.
- Rendering: markup, i18next translation, the toast display, `formatCurrency`, the carousel's scrolling, drag sensors and DOM measurement are left out. The map size and the viewport size are parameters.
- Number semantics: JavaScript numbers are modelled as integers, so NaN, fractional pixels and floating-point rounding are left out. Error codes are integers.
- Calls from the client screens: the cart store, the config-create calls with their success reset and query invalidation, and the table update call are left out. The update call is modelled as the `updateFails` parameter. The optimistic position shown while the update is pending is not modelled; only the final state is.
- The remaining files of the repository: the branch-revenue scheduler, the menu hook, the price-range filter, the column definitions and pages, and the entity, DTO and validation files. They are context for the modelled code and are not modelled.
