/**
 * The persisted state the product-analysis scheduler works on, the rows its
 * aggregation query returns, and the transaction that writes a run's results.
 *
 * Dates are whole hours on one time line. The automapper that turns a query row
 * into a stored record shifts the date by +7 hours; stored records therefore sit
 * at 07:00 of their day while the query reports midnight.
 */
module AnalysisStore {
  import opened Wrappers

  type ProductId = string
  type BranchId = string

  /** Hours the mapper adds to a query row's order date. */
  const MapperShiftHours: int := 7

  /** One grouped tuple of the aggregation query. */
  datatype Row = Row(productId: ProductId, branchId: BranchId, orderDate: int, quantity: nat)

  /** One persisted product-analysis record. */
  datatype Record = Record(product: ProductId, branch: BranchId, orderDate: int, totalQuantity: nat)

  /**
   * The database as seen by the scheduler: the analysis table (position = row
   * identity), each product's `saleQuantityHistory`, and the known branches.
   * A product or branch lookup succeeds exactly when its id is present.
   */
  datatype Db = Db(records: seq<Record>, products: map<ProductId, int>, branches: set<BranchId>)

  /** What makes a run fail; save failures carry the driver's message. */
  datatype Cause =
    | ProductNotFound
    | BranchNotFound
    | RecordSaveFailed(msg: string)
    | ProductSaveFailed(msg: string)
  {
    /** The message of the exception behind the cause. The two lookup messages
        stand for the validation constants of the product and branch modules. */
    function Message(): string {
      match this
      case ProductNotFound => "PRODUCT_NOT_FOUND"
      case BranchNotFound => "BRANCH_NOT_FOUND"
      case RecordSaveFailed(m) => m
      case ProductSaveFailed(m) => m
    }
  }

  /** Which of the two saves of a transaction throw, and with what message. */
  datatype Faults = Faults(recordSave: Option<string>, productSave: Option<string>)

  /** The rows of one product, as produced by the grouping helper. */
  type Group = seq<Row>

  /** Every group is non-empty. */
  predicate NonEmptyGroups(groups: seq<Group>) {
    forall i :: 0 <= i < |groups| ==> |groups[i]| > 0
  }

  /** All rows of `g` carry the product of its first row. */
  predicate OneProduct(g: Group) {
    |g| > 0 && forall k :: 0 <= k < |g| ==> g[k].productId == g[0].productId
  }

  /** Every group is non-empty and no two groups start with the same product. */
  predicate DistinctHeads(groups: seq<Group>) {
    && NonEmptyGroups(groups)
    && forall i, j :: 0 <= i < j < |groups| ==> groups[i][0].productId != groups[j][0].productId
  }

  /**
   * What the grouping helper guarantees: every group is non-empty, all its rows
   * carry the group's product, and no product has two groups.
   */
  predicate Grouped(groups: seq<Group>) {
    && DistinctHeads(groups)
    && forall i :: 0 <= i < |groups| ==> OneProduct(groups[i])
  }

  /** Dropping the first group keeps the rest grouped. */
  lemma GroupedTail(groups: seq<Group>)
    requires Grouped(groups) && |groups| > 0
    ensures Grouped(groups[1..])
  {
    var tail: seq<Group> := groups[1..];
    forall i, k | 0 <= i < |tail| && 0 <= k < |tail[i]|
      ensures tail[i][k].productId == tail[i][0].productId
    {
      assert tail[i] == groups[i + 1];
    }
    forall i, j | 0 <= i < j < |tail|
      ensures tail[i][0].productId != tail[j][0].productId
    {
      assert tail[i] == groups[i + 1] && tail[j] == groups[j + 1];
    }
  }

  /** Every row's product and branch can be looked up. */
  predicate Resolvable(db: Db, rows: seq<Row>) {
    forall row | row in rows :: row.productId in db.products && row.branchId in db.branches
  }

  /** All rows of all groups, in order. */
  function Rows(groups: seq<Group>): seq<Row> {
    if |groups| == 0 then [] else groups[0] + Rows(groups[1..])
  }

  /** Sum of the quantities of some rows. */
  function QuantitySum(rows: seq<Row>): int {
    if |rows| == 0 then 0 else rows[0].quantity + QuantitySum(rows[1..])
  }

  /** The record the mapper builds from `row`, attached to `product`. */
  function ToRecord(row: Row, product: ProductId): Record {
    Record(product, row.branchId, row.orderDate + MapperShiftHours, row.quantity)
  }

  /** The mapper loses nothing: shifting a record's date back gives its row again, attached to the record's product. */
  lemma MapperRoundTrip(row: Row, product: ProductId)
    ensures var rec := ToRecord(row, product);
      Row(rec.product, rec.branch, rec.orderDate - MapperShiftHours, rec.totalQuantity) == row.(productId := product)
  {
  }

  /** The record a row becomes when it is attached to its own product. */
  function StoredForm(row: Row): Record {
    ToRecord(row, row.productId)
  }

  /** One write to the analysis table: a new record, or a new quantity for an existing one. */
  datatype Write = Insert(rec: Record) | Update(index: nat, quantity: nat)

  /** One save of a product entity with a new `saleQuantityHistory`. */
  datatype ProductSave = ProductSave(id: ProductId, saleQuantityHistory: int)

  /** Everything one run hands to the transaction. */
  datatype Plan = Plan(writes: seq<Write>, productSaves: seq<ProductSave>)

  /** The analysis table after saving one write; an update of a missing index changes nothing. */
  function ApplyWrite(records: seq<Record>, w: Write): seq<Record> {
    match w
    case Insert(rec) => records + [rec]
    case Update(i, q) => if i < |records| then records[i := records[i].(totalQuantity := q)] else records
  }

  /** The number of inserts among `writes`. */
  function InsertCount(writes: seq<Write>): nat
    decreases |writes|
  {
    if |writes| == 0 then 0
    else InsertCount(writes[..|writes| - 1]) + (if writes[|writes| - 1].Insert? then 1 else 0)
  }

  /** Two records for the same product, branch and date. */
  predicate SameKey(a: Record, b: Record) {
    a.product == b.product && a.branch == b.branch && a.orderDate == b.orderDate
  }

  /** The analysis table after saving `writes` in order. */
  function ApplyWrites(records: seq<Record>, writes: seq<Write>): seq<Record>
    decreases |writes|
  {
    if |writes| == 0 then records
    else ApplyWrite(ApplyWrites(records, writes[..|writes| - 1]), writes[|writes| - 1])
  }

  /** The product counters after saving `saves` in order. */
  function ApplySaves(products: map<ProductId, int>, saves: seq<ProductSave>): map<ProductId, int>
    decreases |saves|
  {
    if |saves| == 0 then products
    else
      var last := saves[|saves| - 1];
      ApplySaves(products, saves[..|saves| - 1])[last.id := last.saleQuantityHistory]
  }

  /** Saving writes adds one record per insert, and every existing record keeps its product, branch and date. */
  lemma {:induction false} ApplyWritesKeepKeys(records: seq<Record>, writes: seq<Write>)
    ensures |ApplyWrites(records, writes)| == |records| + InsertCount(writes)
    ensures forall k :: 0 <= k < |records| ==> SameKey(ApplyWrites(records, writes)[k], records[k])
    decreases |writes|
  {
    if |writes| > 0 {
      ApplyWritesKeepKeys(records, writes[..|writes| - 1]);
    }
  }

  /** Saving products can add a product but never drops one: afterwards exactly the stored and the saved ids exist. */
  lemma {:induction false} ApplySavesKeys(products: map<ProductId, int>, saves: seq<ProductSave>)
    ensures forall id :: id in ApplySaves(products, saves) <==> id in products || exists k :: 0 <= k < |saves| && saves[k].id == id
    decreases |saves|
  {
    if |saves| > 0 {
      var init := saves[..|saves| - 1];
      ApplySavesKeys(products, init);
      forall k | 0 <= k < |init| ensures init[k] == saves[k] { }
    }
  }

  /**
   * The query-runner transaction: the records are saved, then the products, then
   * the commit. Any failing save rolls the whole run back, so the result is either
   * the database with every write applied or the cause with nothing applied.
   */
  function Commit(db: Db, plan: Plan, faults: Faults): (r: Result<Db, Cause>)
    ensures r.Failure? <==> faults.recordSave.Some? || faults.productSave.Some?
    ensures faults.recordSave.Some? ==> r == Failure(RecordSaveFailed(faults.recordSave.value))
    ensures faults.recordSave.None? && faults.productSave.Some? ==> r == Failure(ProductSaveFailed(faults.productSave.value))
    ensures r.Success? ==> r.value == Db(ApplyWrites(db.records, plan.writes), ApplySaves(db.products, plan.productSaves), db.branches)
  {
    if faults.recordSave.Some? then Failure(RecordSaveFailed(faults.recordSave.value))
    else if faults.productSave.Some? then Failure(ProductSaveFailed(faults.productSave.value))
    else Success(Db(ApplyWrites(db.records, plan.writes), ApplySaves(db.products, plan.productSaves), db.branches))
  }

  /** No product appears twice among the saves. */
  predicate DistinctSaves(saves: seq<ProductSave>) {
    forall i, j :: 0 <= i < j < |saves| ==> saves[i].id != saves[j].id
  }

  /**
   * Saving products with distinct ids gives each saved product exactly its saved
   * value and leaves every other product as it was.
   */
  lemma {:induction false} SavesApplied(products: map<ProductId, int>, saves: seq<ProductSave>)
    requires DistinctSaves(saves)
    ensures forall k :: 0 <= k < |saves| ==> saves[k].id in ApplySaves(products, saves)
    ensures forall k :: 0 <= k < |saves| ==> ApplySaves(products, saves)[saves[k].id] == saves[k].saleQuantityHistory
    ensures forall id :: (forall k :: 0 <= k < |saves| ==> saves[k].id != id) ==>
              (id in ApplySaves(products, saves) <==> id in products)
    ensures forall id :: id in products && (forall k :: 0 <= k < |saves| ==> saves[k].id != id) ==>
              ApplySaves(products, saves)[id] == products[id]
    decreases |saves|
  {
    if |saves| > 0 {
      var init := saves[..|saves| - 1];
      assert DistinctSaves(init) by {
        forall i, j | 0 <= i < j < |init| ensures init[i].id != init[j].id {
          assert init[i] == saves[i] && init[j] == saves[j];
        }
      }
      SavesApplied(products, init);
      forall k | 0 <= k < |saves| - 1
        ensures saves[k].id != saves[|saves| - 1].id && saves[k] == init[k]
      {
      }
    }
  }

  /**
   * Saving only inserts appends their records, in order, after the existing ones.
   */
  lemma {:induction false} InsertsAppend(records: seq<Record>, writes: seq<Write>)
    requires forall k :: 0 <= k < |writes| ==> writes[k].Insert?
    ensures |ApplyWrites(records, writes)| == |records| + |writes|
    ensures ApplyWrites(records, writes)[..|records|] == records
    ensures forall k :: 0 <= k < |writes| ==> ApplyWrites(records, writes)[|records| + k] == writes[k].rec
    decreases |writes|
  {
    if |writes| > 0 {
      var init := writes[..|writes| - 1];
      InsertsAppend(records, init);
      forall k | 0 <= k < |init| ensures init[k] == writes[k] { }
    }
  }
}
