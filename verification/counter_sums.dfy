/**
 * The link between the two things the scheduler keeps: each product's
 * `saleQuantityHistory` counter and the quantities of that product's records in
 * the analysis table. Every committed run moves a product's counter and its
 * records' sum by the same amount, so a counter that matched its records still
 * matches them afterwards.
 */
module CounterSums {
  import opened Wrappers
  import opened AnalysisStore
  import opened Bootstrap
  import opened Refresh
  import opened RefreshProperties

  /** The quantity the analysis table holds for product `p`: the sum over its records. */
  function SumFor(records: seq<Record>, p: ProductId): nat
    decreases |records|
  {
    if |records| == 0 then 0
    else (if records[0].product == p then records[0].totalQuantity else 0) + SumFor(records[1..], p)
  }

  /** The stored forms of some rows, in order. */
  function Forms(rows: seq<Row>): (forms: seq<Record>)
    ensures |forms| == |rows|
    ensures forall k :: 0 <= k < |rows| ==> forms[k] == StoredForm(rows[k])
  {
    if |rows| == 0 then [] else [StoredForm(rows[0])] + Forms(rows[1..])
  }

  /** Every product's counter equals the sum of its records' quantities. */
  predicate CountersMatchRecords(db: Db) {
    forall p :: p in db.products ==> db.products[p] == SumFor(db.records, p)
  }

  /** The sum over a concatenation is the sum over the parts. */
  lemma {:induction false} SumForAppend(a: seq<Record>, b: seq<Record>, p: ProductId)
    ensures SumFor(a + b, p) == SumFor(a, p) + SumFor(b, p)
    decreases |a|
  {
    if |a| == 0 {
      assert a + b == b;
    } else {
      assert (a + b)[1..] == a[1..] + b;
      SumForAppend(a[1..], b, p);
    }
  }

  /** The stored forms of rows that all carry product `q` hold their quantities for `q` and nothing for any other product. */
  lemma {:induction false} FormsSum(rows: seq<Row>, q: ProductId, p: ProductId)
    requires forall k :: 0 <= k < |rows| ==> rows[k].productId == q
    ensures SumFor(Forms(rows), p) == if q == p then QuantitySum(rows) else 0
    decreases |rows|
  {
    if |rows| > 0 {
      var forms := Forms(rows);
      assert forms[1..] == Forms(rows[1..]);
      FormsSum(rows[1..], q, p);
    }
  }

  /**
   * The stored forms of all grouped rows hold, for a product, its group's
   * quantities when some group belongs to it and nothing otherwise.
   */
  lemma {:induction false} GroupsFormsSum(groups: seq<Group>, p: ProductId)
    requires Grouped(groups)
    ensures forall i :: 0 <= i < |groups| && groups[i][0].productId == p ==>
              SumFor(Forms(Rows(groups)), p) == QuantitySum(groups[i])
    ensures (forall i :: 0 <= i < |groups| ==> groups[i][0].productId != p) ==> SumFor(Forms(Rows(groups)), p) == 0
    decreases |groups|
  {
    if |groups| > 0 {
      var g := groups[0];
      var tail := groups[1..];
      assert OneProduct(g);
      GroupedTail(groups);
      assert Forms(Rows(groups)) == Forms(g) + Forms(Rows(tail));
      SumForAppend(Forms(g), Forms(Rows(tail)), p);
      FormsSum(g, g[0].productId, p);
      GroupsFormsSum(tail, p);
      forall i | 0 < i < |groups| ensures groups[i] == tail[i - 1] && groups[i][0].productId != g[0].productId { }
    }
  }

  /** Records followed by the stored forms of the rows add the rows' group sum to each grouped product. */
  lemma AppendedFormsSum(records: seq<Record>, groups: seq<Group>, p: ProductId)
    requires Grouped(groups)
    ensures forall i :: 0 <= i < |groups| && groups[i][0].productId == p ==>
              SumFor(records + Forms(Rows(groups)), p) == SumFor(records, p) + QuantitySum(groups[i])
    ensures (forall i :: 0 <= i < |groups| ==> groups[i][0].productId != p) ==>
              SumFor(records + Forms(Rows(groups)), p) == SumFor(records, p)
  {
    SumForAppend(records, Forms(Rows(groups)), p);
    GroupsFormsSum(groups, p);
  }

  /** A committed refresh leaves the table as the stored records followed by the rows' stored forms. */
  lemma RefreshAppendsForms(db: Db, target: int, groups: seq<Group>, faults: Faults)
    requires Grouped(groups)
    ensures var o := RefreshProductAnalysis(db, target, groups, faults);
      o.Refreshed? ==> o.db.records == db.records + Forms(Rows(groups))
  {
    if RefreshProductAnalysis(db, target, groups, faults).Refreshed? {
      RefreshInsertsEveryRow(db, target, groups, faults);
    }
  }

  /**
   * A committed refresh keeps every product and moves each product's counter by
   * exactly as much as the sum of its records, so the gap between them is unchanged.
   */
  lemma RefreshKeepsCounterGaps(db: Db, target: int, groups: seq<Group>, faults: Faults)
    requires Grouped(groups)
    ensures var o := RefreshProductAnalysis(db, target, groups, faults);
      o.Refreshed? ==>
        && o.db.products.Keys == db.products.Keys
        && forall p :: p in db.products ==>
             o.db.products[p] - SumFor(o.db.records, p) == db.products[p] - SumFor(db.records, p)
  {
    var o := RefreshProductAnalysis(db, target, groups, faults);
    if o.Refreshed? {
      RefreshAppendsForms(db, target, groups, faults);
      RefreshAddsGroupQuantities(db, target, groups, faults);
      forall p | p in db.products
        ensures o.db.products[p] - SumFor(o.db.records, p) == db.products[p] - SumFor(db.records, p)
      {
        AppendedFormsSum(db.records, groups, p);
      }
    }
  }

  /** A committed refresh keeps every counter equal to its records' sum if it was before. */
  lemma RefreshKeepsCounterSums(db: Db, target: int, groups: seq<Group>, faults: Faults)
    requires Grouped(groups)
    requires CountersMatchRecords(db)
    ensures var o := RefreshProductAnalysis(db, target, groups, faults);
      o.Refreshed? ==> CountersMatchRecords(o.db)
  {
    RefreshKeepsCounterGaps(db, target, groups, faults);
  }

  /**
   * A committed bootstrap keeps every product and moves each product's counter by
   * exactly as much as the sum of its records, so the gap between them is unchanged.
   */
  lemma InitKeepsCounterGaps(db: Db, groups: seq<Group>, faults: Faults)
    requires Grouped(groups)
    ensures var o := InitProductAnalysis(db, groups, faults);
      o.Initialised? ==>
        && o.db.products.Keys == db.products.Keys
        && forall p :: p in db.products ==>
             o.db.products[p] - SumFor(o.db.records, p) == db.products[p] - SumFor(db.records, p)
  {
    var o := InitProductAnalysis(db, groups, faults);
    if o.Initialised? {
      InitStoresOneRecordPerRow(db, groups, faults);
      InitAddsGroupQuantities(db, groups, faults);
      assert db.records == [];
      assert o.db.records == db.records + Forms(Rows(groups));
      forall p | p in db.products
        ensures o.db.products[p] - SumFor(o.db.records, p) == db.products[p] - SumFor(db.records, p)
      {
        AppendedFormsSum(db.records, groups, p);
      }
    }
  }

  /** A committed bootstrap keeps every counter equal to its records' sum if it was before. */
  lemma InitKeepsCounterSums(db: Db, groups: seq<Group>, faults: Faults)
    requires Grouped(groups)
    requires CountersMatchRecords(db)
    ensures var o := InitProductAnalysis(db, groups, faults);
      o.Initialised? ==> CountersMatchRecords(o.db)
  {
    InitKeepsCounterGaps(db, groups, faults);
  }

  /**
   * The bootstrap adds to the stored counter instead of setting it: a product
   * whose counter is 4 while the table is empty ends at 6 with records summing to 2.
   */
  lemma InitKeepsStaleCounter()
    ensures var o := InitProductAnalysis(Db([], map["p" := 4], {"b"}), [[Row("p", "b", 0, 2)]], Faults(None, None));
      && o == Initialised(Db([Record("p", "b", 7, 2)], map["p" := 6], {"b"}))
      && !CountersMatchRecords(o.db)
  {
    var db := Db([], map["p" := 4], {"b"});
    var groups := [[Row("p", "b", 0, 2)]];
    var faults := Faults(None, None);
    InitStoresOneRecordPerRow(db, groups, faults);
    InitAddsGroupQuantities(db, groups, faults);
    InitFailsExactly(db, groups, faults);
    assert Rows(groups) == [Row("p", "b", 0, 2)] by {
      assert groups[1..] == [];
    }
    assert Resolvable(db, Rows(groups));
    var o := InitProductAnalysis(db, groups, faults);
    assert o.db.records == [Record("p", "b", 7, 2)];
    assert o.db.products == map["p" := 6];
    assert SumFor(o.db.records, "p") == 2;
  }
}
