/**
 * The bootstrap run of the product-analysis scheduler: when the analysis table is
 * empty, every row of the all-history query becomes one record and each product's
 * `saleQuantityHistory` grows by its group's quantities, all in one transaction.
 */
module Bootstrap {
  import opened Wrappers
  import opened AnalysisStore

  const InitErrorPrefix: string := "Error when init product analysis: "

  /** How a bootstrap run ends. */
  datatype InitOutcome =
    | AlreadyInitialised            // some record existed: nothing read further, nothing written
    | Initialised(db: Db)           // committed
    | InitFailed(message: string)   // rolled back; a BadRequestException with this message is thrown

  /**
   * The records of one product group: each row needs its branch, and becomes a
   * record carrying that branch and the group's product.
   */
  function MaterializeGroup(branches: set<BranchId>, product: ProductId, rows: seq<Row>): (r: Result<seq<Write>, Cause>)
    ensures r.Success? <==> forall row | row in rows :: row.branchId in branches
    ensures r.Failure? ==> r.error == BranchNotFound
    ensures r.Success? ==> |r.value| == |rows|
    ensures r.Success? ==> forall k :: 0 <= k < |rows| ==> r.value[k] == Insert(ToRecord(rows[k], product))
  {
    if |rows| == 0 then Success([])
    else if rows[0].branchId !in branches then Failure(BranchNotFound)
    else
      match MaterializeGroup(branches, product, rows[1..])
      case Failure(e) => Failure(e)
      case Success(ws) => Success([Insert(ToRecord(rows[0], product))] + ws)
  }

  /**
   * What the bootstrap hands to the transaction: one insert per row, and for each
   * group its product saved at the previous counter plus the group's quantities.
   * The first missing product or branch, in group and row order, aborts the run.
   */
  function BootstrapPlan(db: Db, groups: seq<Group>): (r: Result<Plan, Cause>)
    requires Grouped(groups)
    ensures r.Failure? ==> r.error == ProductNotFound || r.error == BranchNotFound
    decreases |groups|
  {
    if |groups| == 0 then Success(Plan([], []))
    else
      var g := groups[0];
      var p := g[0].productId;
      GroupedTail(groups);
      if p !in db.products then Failure(ProductNotFound)
      else
        match MaterializeGroup(db.branches, p, g)
        case Failure(e) => Failure(e)
        case Success(ws) =>
          match BootstrapPlan(db, groups[1..])
          case Failure(e) => Failure(e)
          case Success(rest) =>
            Success(Plan(ws + rest.writes, [ProductSave(p, db.products[p] + QuantitySum(g))] + rest.productSaves))
  }

  /** The bootstrap plan exists exactly when every product and branch can be looked up. */
  lemma {:induction false} PlanExistsIffResolvable(db: Db, groups: seq<Group>)
    requires Grouped(groups)
    ensures BootstrapPlan(db, groups).Success? <==> Resolvable(db, Rows(groups))
    decreases |groups|
  {
    if |groups| > 0 {
      var g := groups[0];
      var p := g[0].productId;
      GroupedTail(groups);
      PlanExistsIffResolvable(db, groups[1..]);
      assert Rows(groups) == g + Rows(groups[1..]);
      assert g[0] in Rows(groups);
      forall row | row in g ensures row.productId == p {
        var k :| 0 <= k < |g| && g[k] == row;
      }
    }
  }

  /** The bootstrap plan inserts the stored form of every row, in row order. */
  lemma {:induction false} PlanInsertsEveryRow(db: Db, groups: seq<Group>)
    requires Grouped(groups)
    requires BootstrapPlan(db, groups).Success?
    ensures |BootstrapPlan(db, groups).value.writes| == |Rows(groups)|
    ensures forall k :: 0 <= k < |Rows(groups)| ==>
              BootstrapPlan(db, groups).value.writes[k] == Insert(StoredForm(Rows(groups)[k]))
    decreases |groups|
  {
    if |groups| > 0 {
      var g := groups[0];
      var p := g[0].productId;
      GroupedTail(groups);
      PlanInsertsEveryRow(db, groups[1..]);
      var ws := MaterializeGroup(db.branches, p, g).value;
      var rest := BootstrapPlan(db, groups[1..]).value;
      var writes := BootstrapPlan(db, groups).value.writes;
      assert writes == ws + rest.writes;
      assert Rows(groups) == g + Rows(groups[1..]);
      forall k | 0 <= k < |Rows(groups)| ensures writes[k] == Insert(StoredForm(Rows(groups)[k])) {
        if k < |g| {
          assert g[k].productId == p;
        } else {
          assert Rows(groups)[k] == Rows(groups[1..])[k - |g|];
        }
      }
    }
  }

  /** The bootstrap plan saves each group's product once, at its previous counter plus the group's quantities. */
  lemma {:induction false} PlanSavesEachGroup(db: Db, groups: seq<Group>)
    requires Grouped(groups)
    requires BootstrapPlan(db, groups).Success?
    ensures |BootstrapPlan(db, groups).value.productSaves| == |groups|
    ensures forall i :: 0 <= i < |groups| ==>
              groups[i][0].productId in db.products &&
              BootstrapPlan(db, groups).value.productSaves[i]
                == ProductSave(groups[i][0].productId, db.products[groups[i][0].productId] + QuantitySum(groups[i]))
    decreases |groups|
  {
    if |groups| > 0 {
      GroupedTail(groups);
      PlanSavesEachGroup(db, groups[1..]);
      forall i | 1 <= i < |groups| ensures groups[i] == groups[1..][i - 1] { }
    }
  }

  /**
   * The bootstrap run. It does nothing when any record exists; otherwise it
   * builds every record and counter and commits them together, or rolls back and
   * reports a bad request.
   */
  function InitProductAnalysis(db: Db, groups: seq<Group>, faults: Faults): (o: InitOutcome)
    requires Grouped(groups)
    ensures |db.records| > 0 <==> o == AlreadyInitialised
    ensures o.InitFailed? ==> |o.message| >= |InitErrorPrefix| && o.message[..|InitErrorPrefix|] == InitErrorPrefix
  {
    if |db.records| > 0 then AlreadyInitialised
    else
      match BootstrapPlan(db, groups)
      case Failure(c) => InitFailed(InitErrorPrefix + c.Message())
      case Success(plan) =>
        match Commit(db, plan, faults)
        case Failure(c) => InitFailed(InitErrorPrefix + c.Message())
        case Success(db') => Initialised(db')
  }

  /**
   * On an empty table the run fails exactly when some product or branch is
   * missing or a save throws; a failure carries no database, so nothing survives.
   */
  lemma InitFailsExactly(db: Db, groups: seq<Group>, faults: Faults)
    requires Grouped(groups)
    requires |db.records| == 0
    ensures InitProductAnalysis(db, groups, faults).InitFailed? <==>
              !Resolvable(db, Rows(groups)) || faults.recordSave.Some? || faults.productSave.Some?
    ensures !Resolvable(db, Rows(groups)) ==>
              InitProductAnalysis(db, groups, faults) == InitFailed(InitErrorPrefix + "PRODUCT_NOT_FOUND")
              || InitProductAnalysis(db, groups, faults) == InitFailed(InitErrorPrefix + "BRANCH_NOT_FOUND")
  {
    PlanExistsIffResolvable(db, groups);
  }

  /**
   * A committed bootstrap stores exactly one record per query row, in row order,
   * carrying the row's branch, product, shifted date and quantity.
   */
  lemma InitStoresOneRecordPerRow(db: Db, groups: seq<Group>, faults: Faults)
    requires Grouped(groups)
    ensures var o := InitProductAnalysis(db, groups, faults);
      o.Initialised? ==>
        && |o.db.records| == |Rows(groups)|
        && (forall k :: 0 <= k < |Rows(groups)| ==> o.db.records[k] == StoredForm(Rows(groups)[k]))
        && o.db.branches == db.branches
  {
    var o := InitProductAnalysis(db, groups, faults);
    if o.Initialised? {
      var plan := BootstrapPlan(db, groups).value;
      PlanInsertsEveryRow(db, groups);
      InsertsAppend(db.records, plan.writes);
    }
  }

  /**
   * A committed bootstrap sets each grouped product's counter to its previous
   * value plus its group's quantities and leaves every other product alone.
   */
  lemma InitAddsGroupQuantities(db: Db, groups: seq<Group>, faults: Faults)
    requires Grouped(groups)
    ensures var o := InitProductAnalysis(db, groups, faults);
      o.Initialised? ==>
        && o.db.products.Keys == db.products.Keys
        && (forall i :: 0 <= i < |groups| ==>
              groups[i][0].productId in db.products &&
              o.db.products[groups[i][0].productId] == db.products[groups[i][0].productId] + QuantitySum(groups[i]))
        && (forall id :: id in db.products && (forall i :: 0 <= i < |groups| ==> groups[i][0].productId != id) ==>
              o.db.products[id] == db.products[id])
  {
    var o := InitProductAnalysis(db, groups, faults);
    if o.Initialised? {
      var saves := BootstrapPlan(db, groups).value.productSaves;
      PlanSavesEachGroup(db, groups);
      assert DistinctSaves(saves);
      SavesApplied(db.products, saves);
      forall id | id in o.db.products ensures id in db.products {
        if forall k :: 0 <= k < |saves| ==> saves[k].id != id {
        } else {
          var k :| 0 <= k < |saves| && saves[k].id == id;
        }
      }
    }
  }

  /**
   * Bootstrap runs at most once: after a committed run that stored anything, a
   * second run, whatever its input, is a no-op.
   */
  lemma InitIsIdempotent(db: Db, groups: seq<Group>, faults: Faults, groups2: seq<Group>, faults2: Faults)
    requires Grouped(groups) && Grouped(groups2)
    requires |Rows(groups)| > 0
    requires InitProductAnalysis(db, groups, faults).Initialised?
    ensures InitProductAnalysis(InitProductAnalysis(db, groups, faults).db, groups2, faults2) == AlreadyInitialised
  {
    InitStoresOneRecordPerRow(db, groups, faults);
  }
}
