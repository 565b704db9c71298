/**
 * The daily refresh run of the product-analysis scheduler. It skips the day when
 * any record is already dated at the target (yesterday, 07:00); otherwise it
 * reconciles yesterday's query rows against the records stored for each product
 * on the target date, and commits inserts, updates and changed product counters in
 * one transaction. A failure is rolled back and logged, never rethrown.
 */
module Refresh {
  import opened Wrappers
  import opened AnalysisStore

  const RefreshErrorPrefix: string := "Error when refresh product analysis: "
  const RefreshLogPrefix: string := "Error when handle data to refresh product analysis: "

  /** How a refresh run ends. */
  datatype RefreshOutcome =
    | AlreadyRefreshed               // a record is dated at the target: logged, nothing written
    | Refreshed(db: Db)              // committed
    | RefreshFailed(logged: string)  // rolled back; only this error line is logged

  /** Some stored record is dated exactly `target`: the skip guard. */
  predicate HasRecordAt(records: seq<Record>, target: int) {
    exists i :: 0 <= i < |records| && records[i].orderDate == target
  }

  /**
   * `rec` belongs to the snapshot loaded for product `p` on `target` (same
   * product, date between target and target) and matches `row`: same product,
   * same branch, and the row's date plus the mapper shift equals the stored date.
   */
  predicate Matches(rec: Record, p: ProductId, target: int, row: Row) {
    && rec.product == p
    && rec.orderDate == target
    && rec.product == row.productId
    && rec.branch == row.branchId
    && row.orderDate + MapperShiftHours == rec.orderDate
  }

  /** No snapshot record (one of the first `n`) matches `row`. */
  predicate NoMatch(view: seq<Record>, n: nat, p: ProductId, target: int, row: Row) {
    forall j :: 0 <= j < n && j < |view| ==> !Matches(view[j], p, target, row)
  }

  /** `i` is the first snapshot record that matches `row`. */
  predicate FirstMatch(view: seq<Record>, n: nat, p: ProductId, target: int, row: Row, i: nat) {
    && i < n && i < |view|
    && Matches(view[i], p, target, row)
    && forall j :: 0 <= j < i ==> !Matches(view[j], p, target, row)
  }

  /** The first match at or after `from`, searching the first `n` records. */
  function FindFrom(view: seq<Record>, n: nat, p: ProductId, target: int, row: Row, from: nat): (r: Option<nat>)
    ensures r.Some? ==> from <= r.value < n && r.value < |view| && Matches(view[r.value], p, target, row)
    ensures r.Some? ==> forall j :: from <= j < r.value ==> !Matches(view[j], p, target, row)
    ensures r.None? ==> forall j :: from <= j < n && j < |view| ==> !Matches(view[j], p, target, row)
    decreases n - from
  {
    if from >= n || from >= |view| then None
    else if Matches(view[from], p, target, row) then Some(from)
    else FindFrom(view, n, p, target, row, from + 1)
  }

  /** The snapshot search: the first matching record, if any. */
  function FindMatch(view: seq<Record>, n: nat, p: ProductId, target: int, row: Row): (r: Option<nat>)
    ensures r.Some? ==> FirstMatch(view, n, p, target, row, r.value)
    ensures r.None? <==> NoMatch(view, n, p, target, row)
  {
    FindFrom(view, n, p, target, row, 0)
  }

  /** Quantity carried by the inserts among `writes`. */
  function InsertedQuantity(writes: seq<Write>): int
    decreases |writes|
  {
    if |writes| == 0 then 0
    else
      var w := writes[|writes| - 1];
      InsertedQuantity(writes[..|writes| - 1]) + (if w.Insert? then w.rec.totalQuantity else 0)
  }

  /**
   * The in-memory state of one product group: the records as loaded and possibly
   * changed in place, the writes collected so far, and the product's new counter.
   */
  datatype Acc = Acc(view: seq<Record>, writes: seq<Write>, counter: int)

  /**
   * One raw row of a group. Its branch must exist. An unmatched row becomes a new
   * record and adds its quantity to the counter; a match with another quantity is
   * overwritten in place, and because the field is overwritten before the old value
   * is subtracted, the counter is left as it was; a match with the same quantity
   * is left alone.
   */
  function ReconcileRow(acc: Acc, n: nat, branches: set<BranchId>, p: ProductId, target: int, row: Row): (r: Result<Acc, Cause>)
    ensures row.branchId !in branches ==> r == Failure(BranchNotFound)
    ensures row.branchId in branches ==> r.Success?
    ensures r.Success? && NoMatch(acc.view, n, p, target, row) ==>
              r.value == Acc(acc.view + [ToRecord(row, p)], acc.writes + [Insert(ToRecord(row, p))], acc.counter + row.quantity)
    ensures forall i: nat :: r.Success? && FirstMatch(acc.view, n, p, target, row, i) && acc.view[i].totalQuantity == row.quantity ==>
              r.value == acc
    ensures forall i: nat :: r.Success? && FirstMatch(acc.view, n, p, target, row, i) && acc.view[i].totalQuantity != row.quantity ==>
              r.value == Acc(acc.view[i := acc.view[i].(totalQuantity := row.quantity)], acc.writes + [Update(i, row.quantity)], acc.counter)
    ensures r.Success? ==> r.value.counter - InsertedQuantity(r.value.writes) == acc.counter - InsertedQuantity(acc.writes)
  {
    if row.branchId !in branches then Failure(BranchNotFound)
    else
      match FindMatch(acc.view, n, p, target, row)
      case Some(i) =>
        if acc.view[i].totalQuantity != row.quantity then
          var updated := acc.view[i].(totalQuantity := row.quantity);
          // the subtraction reads the field after it was overwritten
          var counter := acc.counter - updated.totalQuantity + row.quantity;
          assert (acc.writes + [Update(i, row.quantity)])[..|acc.writes|] == acc.writes;
          Success(Acc(acc.view[i := updated], acc.writes + [Update(i, row.quantity)], counter))
        else Success(acc)
      case None =>
        var rec := ToRecord(row, p);
        assert (acc.writes + [Insert(rec)])[..|acc.writes|] == acc.writes;
        Success(Acc(acc.view + [rec], acc.writes + [Insert(rec)], acc.counter + rec.totalQuantity))
  }

  /** All rows of one group, in order; the first missing branch aborts. */
  function ReconcileRows(acc: Acc, n: nat, branches: set<BranchId>, p: ProductId, target: int, rows: seq<Row>): (r: Result<Acc, Cause>)
    ensures r.Success? <==> forall row | row in rows :: row.branchId in branches
    ensures r.Failure? ==> r.error == BranchNotFound
    ensures r.Success? ==> r.value.counter - InsertedQuantity(r.value.writes) == acc.counter - InsertedQuantity(acc.writes)
    decreases |rows|
  {
    if |rows| == 0 then Success(acc)
    else
      match ReconcileRow(acc, n, branches, p, target, rows[0])
      case Failure(e) => Failure(e)
      case Success(acc') => ReconcileRows(acc', n, branches, p, target, rows[1..])
  }

  /** The run's progress across groups: records in memory, writes, product saves. */
  datatype Progress = Progress(view: seq<Record>, writes: seq<Write>, saves: seq<ProductSave>)

  /** Every save changes its product's counter. */
  predicate SavesChangeCounters(db: Db, saves: seq<ProductSave>) {
    forall k :: 0 <= k < |saves| ==> saves[k].id in db.products && saves[k].saleQuantityHistory != db.products[saves[k].id]
  }

  /**
   * One product group: look the product up, reconcile its rows against the
   * records stored for it on the target date, and save the product only when its
   * counter changed.
   */
  function GroupStep(db: Db, target: int, g: Group, pr: Progress): (r: Result<Progress, Cause>)
    requires |g| > 0
    ensures r.Failure? ==> r.error == ProductNotFound || r.error == BranchNotFound
    ensures r.Success? <==> g[0].productId in db.products && forall row | row in g :: row.branchId in db.branches
    ensures r.Success? && SavesChangeCounters(db, pr.saves) ==> SavesChangeCounters(db, r.value.saves)
  {
    var p := g[0].productId;
    if p !in db.products then Failure(ProductNotFound)
    else
      var stored := db.products[p];
      match ReconcileRows(Acc(pr.view, pr.writes, stored), |db.records|, db.branches, p, target, g)
      case Failure(e) => Failure(e)
      case Success(acc) =>
        var saves := if acc.counter != stored then pr.saves + [ProductSave(p, acc.counter)] else pr.saves;
        Success(Progress(acc.view, acc.writes, saves))
  }

  /** All product groups in order; the first failure aborts the run. */
  function RefreshGroups(db: Db, target: int, groups: seq<Group>, pr: Progress): (r: Result<Progress, Cause>)
    requires NonEmptyGroups(groups)
    ensures r.Failure? ==> r.error == ProductNotFound || r.error == BranchNotFound
    ensures r.Success? && SavesChangeCounters(db, pr.saves) ==> SavesChangeCounters(db, r.value.saves)
    decreases |groups|
  {
    if |groups| == 0 then Success(pr)
    else
      assert NonEmptyGroups(groups[1..]) by {
        forall i | 0 <= i < |groups[1..]| ensures |groups[1..][i]| > 0 {
          assert groups[1..][i] == groups[i + 1];
        }
      }
      match GroupStep(db, target, groups[0], pr)
      case Failure(e) => Failure(e)
      case Success(pr') => RefreshGroups(db, target, groups[1..], pr')
  }

  /** What the refresh hands to the transaction. */
  function RefreshPlan(db: Db, target: int, groups: seq<Group>): (r: Result<Plan, Cause>)
    requires NonEmptyGroups(groups)
    ensures r.Failure? ==> r.error == ProductNotFound || r.error == BranchNotFound
    ensures r.Success? ==> SavesChangeCounters(db, r.value.productSaves)
  {
    match RefreshGroups(db, target, groups, Progress(db.records, [], []))
    case Failure(e) => Failure(e)
    case Success(pr) => Success(Plan(pr.writes, pr.saves))
  }

  /**
   * The refresh run for the day whose records are dated `target`. It skips the
   * day when any record is already dated there; otherwise it commits the plan, or
   * rolls back and logs the error without rethrowing.
   */
  function RefreshProductAnalysis(db: Db, target: int, groups: seq<Group>, faults: Faults): (o: RefreshOutcome)
    requires NonEmptyGroups(groups)
    ensures HasRecordAt(db.records, target) <==> o == AlreadyRefreshed
    ensures o.RefreshFailed? ==>
              var prefix := RefreshLogPrefix + RefreshErrorPrefix;
              |o.logged| >= |prefix| && o.logged[..|prefix|] == prefix
  {
    if HasRecordAt(db.records, target) then AlreadyRefreshed
    else
      match RefreshPlan(db, target, groups)
      case Failure(c) => RefreshFailed(RefreshLogPrefix + (RefreshErrorPrefix + c.Message()))
      case Success(plan) =>
        match Commit(db, plan, faults)
        case Failure(c) => RefreshFailed(RefreshLogPrefix + (RefreshErrorPrefix + c.Message()))
        case Success(db') => Refreshed(db')
  }

}
