/**
 * Properties of the daily refresh run: the in-memory records track the writes,
 * the run fails exactly on a missing product or branch or a failing save, and,
 * with the guard's date and the snapshot's date taken as one `target`, a
 * refresh that passes the guard inserts every row and never updates one.
 */
module RefreshProperties {
  import opened Wrappers
  import opened AnalysisStore
  import opened Refresh

  /** The records in memory stay equal to the stored records with the collected writes applied. */
  lemma {:induction false} RowsTrackView(base: seq<Record>, acc: Acc, n: nat, branches: set<BranchId>, p: ProductId, target: int, rows: seq<Row>)
    requires acc.view == ApplyWrites(base, acc.writes)
    requires ReconcileRows(acc, n, branches, p, target, rows).Success?
    ensures var a := ReconcileRows(acc, n, branches, p, target, rows).value;
      a.view == ApplyWrites(base, a.writes)
    decreases |rows|
  {
    if |rows| > 0 {
      var row := rows[0];
      var acc' := ReconcileRow(acc, n, branches, p, target, row).value;
      match FindMatch(acc.view, n, p, target, row) {
        case Some(i) =>
          if acc.view[i].totalQuantity != row.quantity {
            assert acc'.writes[..|acc'.writes| - 1] == acc.writes;
          }
        case None =>
          assert acc'.writes[..|acc'.writes| - 1] == acc.writes;
      }
      RowsTrackView(base, acc', n, branches, p, target, rows[1..]);
    }
  }

  /** Across groups, too, the records in memory are the stored records with the writes applied. */
  lemma {:induction false} GroupsTrackView(db: Db, target: int, groups: seq<Group>, pr: Progress)
    requires NonEmptyGroups(groups)
    requires pr.view == ApplyWrites(db.records, pr.writes)
    requires RefreshGroups(db, target, groups, pr).Success?
    ensures var r := RefreshGroups(db, target, groups, pr).value;
      r.view == ApplyWrites(db.records, r.writes)
    decreases |groups|
  {
    if |groups| > 0 {
      var g := groups[0];
      var p := g[0].productId;
      RowsTrackView(db.records, Acc(pr.view, pr.writes, db.products[p]), |db.records|, db.branches, p, target, g);
      var pr' := GroupStep(db, target, g, pr).value;
      assert NonEmptyGroups(groups[1..]) by {
        forall i | 0 <= i < |groups[1..]| ensures |groups[1..][i]| > 0 {
          assert groups[1..][i] == groups[i + 1];
        }
      }
      GroupsTrackView(db, target, groups[1..], pr');
    }
  }

  /**
   * A committed refresh leaves the analysis table equal to the records the run
   * held in memory, its own changes included.
   */
  lemma CommitStoresView(db: Db, target: int, groups: seq<Group>, faults: Faults)
    requires NonEmptyGroups(groups)
    ensures var o := RefreshProductAnalysis(db, target, groups, faults);
      o.Refreshed? ==>
        o.db.records == RefreshGroups(db, target, groups, Progress(db.records, [], [])).value.view
        && o.db.branches == db.branches
  {
    var o := RefreshProductAnalysis(db, target, groups, faults);
    if o.Refreshed? {
      GroupsTrackView(db, target, groups, Progress(db.records, [], []));
    }
  }

  /** Grouped rows never form an empty group. */
  lemma GroupedNonEmpty(groups: seq<Group>)
    requires Grouped(groups)
    ensures NonEmptyGroups(groups)
  {
  }

  /** The refresh plan exists exactly when every product and branch of the rows can be looked up. */
  lemma {:induction false} GroupsSucceedIffResolvable(db: Db, target: int, groups: seq<Group>, pr: Progress)
    requires Grouped(groups)
    ensures RefreshGroups(db, target, groups, pr).Success? <==> Resolvable(db, Rows(groups))
    decreases |groups|
  {
    if |groups| > 0 {
      var g := groups[0];
      var p := g[0].productId;
      GroupedTail(groups);
      assert Rows(groups) == g + Rows(groups[1..]);
      assert g[0] in Rows(groups);
      forall row | row in g ensures row.productId == p {
        var k :| 0 <= k < |g| && g[k] == row;
      }
      var step := GroupStep(db, target, g, pr);
      if step.Success? {
        GroupsSucceedIffResolvable(db, target, groups[1..], step.value);
      }
    }
  }

  /**
   * Once the skip guard passes, the run fails exactly when some product or
   * branch is missing or a save throws; a failure carries no database, so none
   * of the run's writes survives.
   */
  lemma RefreshFailsExactly(db: Db, target: int, groups: seq<Group>, faults: Faults)
    requires Grouped(groups)
    requires !HasRecordAt(db.records, target)
    ensures RefreshProductAnalysis(db, target, groups, faults).RefreshFailed? <==>
              !Resolvable(db, Rows(groups)) || faults.recordSave.Some? || faults.productSave.Some?
  {
    GroupsSucceedIffResolvable(db, target, groups, Progress(db.records, [], []));
  }

  /** No record among the first `n` in memory is dated `target`. */
  predicate Clear(view: seq<Record>, n: nat, target: int) {
    n <= |view| && forall j :: 0 <= j < n ==> view[j].orderDate != target
  }

  /** With nothing dated `target` in the snapshot, every row of a group is inserted. */
  lemma {:induction false} ClearRowsInsertAll(acc: Acc, n: nat, branches: set<BranchId>, p: ProductId, target: int, rows: seq<Row>)
    requires Clear(acc.view, n, target)
    requires ReconcileRows(acc, n, branches, p, target, rows).Success?
    ensures var a := ReconcileRows(acc, n, branches, p, target, rows).value;
      && |a.writes| == |acc.writes| + |rows|
      && a.writes[..|acc.writes|] == acc.writes
      && (forall k :: 0 <= k < |rows| ==> a.writes[|acc.writes| + k] == Insert(ToRecord(rows[k], p)))
      && |a.view| == |acc.view| + |rows|
      && a.view[..|acc.view|] == acc.view
      && a.counter == acc.counter + QuantitySum(rows)
    decreases |rows|
  {
    if |rows| > 0 {
      var row := rows[0];
      assert NoMatch(acc.view, n, p, target, row);
      var acc' := ReconcileRow(acc, n, branches, p, target, row).value;
      assert acc'.view[..|acc.view|] == acc.view;
      assert Clear(acc'.view, n, target) by {
        forall j | 0 <= j < n ensures acc'.view[j].orderDate != target {
          assert acc'.view[j] == acc.view[j];
        }
      }
      ClearRowsInsertAll(acc', n, branches, p, target, rows[1..]);
      var a := ReconcileRows(acc', n, branches, p, target, rows[1..]).value;
      assert a.writes[..|acc.writes|] == acc.writes by {
        assert a.writes[..|acc.writes|] == a.writes[..|acc'.writes|][..|acc.writes|];
      }
      assert a.view[..|acc.view|] == acc.view by {
        assert a.view[..|acc.view|] == a.view[..|acc'.view|][..|acc.view|];
      }
      forall k | 0 <= k < |rows| ensures a.writes[|acc.writes| + k] == Insert(ToRecord(rows[k], p)) {
        if k == 0 {
          assert a.writes[|acc.writes|] == a.writes[..|acc'.writes|][|acc.writes|];
        } else {
          assert rows[k] == rows[1..][k - 1];
        }
      }
    }
  }

  /** Appending records keeps the first `n` records clear of `target`. */
  lemma ClearExtends(view: seq<Record>, view': seq<Record>, n: nat, target: int)
    requires Clear(view, n, target)
    requires |view| <= |view'| && view'[..|view|] == view
    ensures Clear(view', n, target)
  {
    forall j | 0 <= j < n ensures view'[j].orderDate != target {
      assert view'[j] == view'[..|view|][j];
    }
  }

  /**
   * One group of a refresh whose snapshot holds nothing dated `target`: every row
   * is appended as a new record, and the records in memory stay clear of `target`.
   */
  lemma ClearStep(db: Db, target: int, g: Group, pr: Progress)
    requires OneProduct(g)
    requires Clear(pr.view, |db.records|, target)
    requires GroupStep(db, target, g, pr).Success?
    ensures var r := GroupStep(db, target, g, pr).value;
      var p := g[0].productId;
      && p in db.products
      && |r.writes| == |pr.writes| + |g|
      && r.writes[..|pr.writes|] == pr.writes
      && (forall k :: 0 <= k < |g| ==> r.writes[|pr.writes| + k] == Insert(StoredForm(g[k])))
      && Clear(r.view, |db.records|, target)
  {
    var p := g[0].productId;
    var acc := Acc(pr.view, pr.writes, db.products[p]);
    ClearRowsInsertAll(acc, |db.records|, db.branches, p, target, g);
    var a := ReconcileRows(acc, |db.records|, db.branches, p, target, g).value;
    forall k | 0 <= k < |g| ensures ToRecord(g[k], p) == StoredForm(g[k]) {
      assert g[k].productId == p;
    }
    ClearExtends(pr.view, a.view, |db.records|, target);
  }

  /**
   * The counter save one group makes when every row is inserted: its product at
   * the previous counter plus the group's sum, or nothing when that sum is zero.
   */
  function GroupSave(db: Db, g: Group): seq<ProductSave> {
    if |g| > 0 && g[0].productId in db.products && QuantitySum(g) != 0 then
      [ProductSave(g[0].productId, db.products[g[0].productId] + QuantitySum(g))]
    else []
  }

  /** The counter saves a refresh makes when every row is inserted, group by group. */
  function CounterSaves(db: Db, groups: seq<Group>): seq<ProductSave>
    decreases |groups|
  {
    if |groups| == 0 then [] else GroupSave(db, groups[0]) + CounterSaves(db, groups[1..])
  }

  /**
   * The saves of one group of a refresh whose snapshot holds nothing dated
   * `target`: the product is saved, at its previous counter plus the group's sum,
   * exactly when that sum is not zero.
   */
  lemma ClearStepSaves(db: Db, target: int, g: Group, pr: Progress)
    requires |g| > 0
    requires Clear(pr.view, |db.records|, target)
    requires GroupStep(db, target, g, pr).Success?
    ensures GroupStep(db, target, g, pr).value.saves == pr.saves + GroupSave(db, g)
    ensures Clear(GroupStep(db, target, g, pr).value.view, |db.records|, target)
  {
    var p := g[0].productId;
    var acc := Acc(pr.view, pr.writes, db.products[p]);
    ClearRowsInsertAll(acc, |db.records|, db.branches, p, target, g);
    ClearExtends(pr.view, ReconcileRows(acc, |db.records|, db.branches, p, target, g).value.view, |db.records|, target);
  }

  /** The first of grouped rows' groups carries one product. */
  lemma GroupedHead(groups: seq<Group>)
    requires Grouped(groups) && |groups| > 0
    ensures OneProduct(groups[0])
  {
    assert forall k :: 0 <= k < |groups[0]| ==> groups[0][k].productId == groups[0][0].productId;
  }

  /** `ws` extends `before` by one insert of the stored form of each of `rows`, in order. */
  predicate InsertsAfter(ws: seq<Write>, before: seq<Write>, rows: seq<Row>) {
    && |ws| == |before| + |rows|
    && ws[..|before|] == before
    && forall k :: 0 <= k < |rows| ==> ws[|before| + k] == Insert(StoredForm(rows[k]))
  }

  /** Two runs of appended inserts make one run over the concatenated rows. */
  lemma InsertsAfterChain(ws: seq<Write>, mid: seq<Write>, before: seq<Write>, a: seq<Row>, b: seq<Row>)
    requires InsertsAfter(mid, before, a)
    requires InsertsAfter(ws, mid, b)
    ensures InsertsAfter(ws, before, a + b)
  {
    assert ws[..|before|] == ws[..|mid|][..|before|];
    forall k | 0 <= k < |a + b| ensures ws[|before| + k] == Insert(StoredForm((a + b)[k])) {
      if k < |a| {
        assert ws[|before| + k] == ws[..|mid|][|before| + k];
      } else {
        assert |before| + k == |mid| + (k - |a|);
      }
    }
  }

  /** With nothing dated `target` stored, every row of every group is inserted, in order. */
  lemma {:induction false} ClearGroupsInsertAll(db: Db, target: int, groups: seq<Group>, pr: Progress)
    requires Grouped(groups)
    requires Clear(pr.view, |db.records|, target)
    requires RefreshGroups(db, target, groups, pr).Success?
    ensures InsertsAfter(RefreshGroups(db, target, groups, pr).value.writes, pr.writes, Rows(groups))
    decreases |groups|
  {
    if |groups| > 0 {
      var g := groups[0];
      GroupedTail(groups);
      GroupedHead(groups);
      ClearStep(db, target, g, pr);
      var pr' := GroupStep(db, target, g, pr).value;
      assert InsertsAfter(pr'.writes, pr.writes, g);
      ClearGroupsInsertAll(db, target, groups[1..], pr');
      var r := RefreshGroups(db, target, groups[1..], pr').value;
      assert r == RefreshGroups(db, target, groups, pr).value;
      InsertsAfterChain(r.writes, pr'.writes, pr.writes, g, Rows(groups[1..]));
    }
  }

  /** With nothing dated `target` stored, the products saved are those of `CounterSaves`. */
  lemma {:induction false} ClearGroupsSaveCounters(db: Db, target: int, groups: seq<Group>, pr: Progress)
    requires Grouped(groups)
    requires Clear(pr.view, |db.records|, target)
    requires RefreshGroups(db, target, groups, pr).Success?
    ensures RefreshGroups(db, target, groups, pr).value.saves == pr.saves + CounterSaves(db, groups)
    ensures forall i :: 0 <= i < |groups| ==> groups[i][0].productId in db.products
    decreases |groups|
  {
    if |groups| > 0 {
      var g := groups[0];
      GroupedTail(groups);
      GroupedHead(groups);
      ClearStepSaves(db, target, g, pr);
      var pr' := GroupStep(db, target, g, pr).value;
      ClearGroupsSaveCounters(db, target, groups[1..], pr');
      var r := RefreshGroups(db, target, groups[1..], pr').value;
      assert r == RefreshGroups(db, target, groups, pr).value;
      assert r.saves == pr.saves + (GroupSave(db, g) + CounterSaves(db, groups[1..]));
      forall i | 1 <= i < |groups| ensures groups[i] == groups[1..][i - 1] { }
    }
  }

  /** A save at the front of a sequence acts as a change to the starting counters. */
  lemma {:induction false} ApplySavesCons(m: map<ProductId, int>, s: ProductSave, rest: seq<ProductSave>)
    ensures ApplySaves(m, [s] + rest) == ApplySaves(m[s.id := s.saleQuantityHistory], rest)
    decreases |rest|
  {
    if |rest| == 0 {
      assert ([s] + rest)[..0] == [];
    } else {
      var init := rest[..|rest| - 1];
      assert ([s] + rest)[..|rest|] == [s] + init;
      ApplySavesCons(m, s, init);
    }
  }

  /** A group's counter save, applied before later saves, acts as a change to the starting counters. */
  lemma ApplyGroupSave(db: Db, g: Group, m: map<ProductId, int>, rest: seq<ProductSave>)
    requires |g| > 0 && g[0].productId in db.products
    ensures var p := g[0].productId;
      ApplySaves(m, GroupSave(db, g) + rest)
        == ApplySaves(if QuantitySum(g) != 0 then m[p := db.products[p] + QuantitySum(g)] else m, rest)
  {
    var p := g[0].productId;
    if QuantitySum(g) != 0 {
      ApplySavesCons(m, ProductSave(p, db.products[p] + QuantitySum(g)), rest);
    } else {
      assert GroupSave(db, g) + rest == rest;
    }
  }

  /** Applying `CounterSaves` onto counters that hold every group's product adds no key. */
  lemma {:induction false} CounterSavesKeepKeys(db: Db, groups: seq<Group>, m: map<ProductId, int>)
    requires NonEmptyGroups(groups)
    requires forall i :: 0 <= i < |groups| ==> groups[i][0].productId in db.products && groups[i][0].productId in m
    ensures ApplySaves(m, CounterSaves(db, groups)).Keys == m.Keys
    decreases |groups|
  {
    if |groups| > 0 {
      var g := groups[0];
      var p := g[0].productId;
      var tail := groups[1..];
      forall i | 0 <= i < |tail| ensures tail[i] == groups[i + 1] { }
      var m' := if QuantitySum(g) != 0 then m[p := db.products[p] + QuantitySum(g)] else m;
      assert CounterSaves(db, groups) == GroupSave(db, g) + CounterSaves(db, tail);
      ApplyGroupSave(db, g, m, CounterSaves(db, tail));
      CounterSavesKeepKeys(db, tail, m');
    }
  }

  /** Applying `CounterSaves` leaves the counter of a product no group starts with as it was. */
  lemma {:induction false} CounterSavesSkip(db: Db, groups: seq<Group>, m: map<ProductId, int>, id: ProductId)
    requires NonEmptyGroups(groups)
    requires forall i :: 0 <= i < |groups| ==> groups[i][0].productId in db.products && groups[i][0].productId != id
    requires id in m
    ensures id in ApplySaves(m, CounterSaves(db, groups))
    ensures ApplySaves(m, CounterSaves(db, groups))[id] == m[id]
    decreases |groups|
  {
    if |groups| > 0 {
      var g := groups[0];
      var p := g[0].productId;
      var tail := groups[1..];
      forall i | 0 <= i < |tail| ensures tail[i] == groups[i + 1] { }
      var m' := if QuantitySum(g) != 0 then m[p := db.products[p] + QuantitySum(g)] else m;
      assert CounterSaves(db, groups) == GroupSave(db, g) + CounterSaves(db, tail);
      ApplyGroupSave(db, g, m, CounterSaves(db, tail));
      CounterSavesSkip(db, tail, m', id);
    }
  }

  /**
   * Applying `CounterSaves` onto counters `m` sets the product of each group with
   * a non-zero sum to its stored counter plus that sum and leaves the product of
   * a zero-sum group at its entry in `m`.
   */
  lemma {:induction false} CounterSavesHit(db: Db, groups: seq<Group>, m: map<ProductId, int>)
    requires DistinctHeads(groups)
    requires forall i :: 0 <= i < |groups| ==> groups[i][0].productId in db.products && groups[i][0].productId in m
    ensures forall i :: 0 <= i < |groups| ==>
              && groups[i][0].productId in ApplySaves(m, CounterSaves(db, groups))
              && ApplySaves(m, CounterSaves(db, groups))[groups[i][0].productId]
                   == if QuantitySum(groups[i]) != 0 then db.products[groups[i][0].productId] + QuantitySum(groups[i])
                      else m[groups[i][0].productId]
    decreases |groups|
  {
    if |groups| > 0 {
      var g := groups[0];
      var p := g[0].productId;
      var tail := groups[1..];
      forall i | 0 <= i < |tail| ensures tail[i] == groups[i + 1] && tail[i][0].productId != p { }
      assert DistinctHeads(tail) by {
        forall i, j | 0 <= i < j < |tail| ensures tail[i][0].productId != tail[j][0].productId {
          assert tail[i] == groups[i + 1] && tail[j] == groups[j + 1];
        }
      }
      var m' := if QuantitySum(g) != 0 then m[p := db.products[p] + QuantitySum(g)] else m;
      assert CounterSaves(db, groups) == GroupSave(db, g) + CounterSaves(db, tail);
      ApplyGroupSave(db, g, m, CounterSaves(db, tail));
      CounterSavesHit(db, tail, m');
      CounterSavesSkip(db, tail, m', p);
      forall i | 0 < i < |groups|
        ensures groups[i][0].productId in ApplySaves(m', CounterSaves(db, tail))
        ensures ApplySaves(m', CounterSaves(db, tail))[groups[i][0].productId]
                  == if QuantitySum(groups[i]) != 0 then db.products[groups[i][0].productId] + QuantitySum(groups[i])
                     else m[groups[i][0].productId]
      {
        assert groups[i] == tail[i - 1];
      }
    }
  }

  /**
   * Applying `CounterSaves` to the stored counters adds each group's sum to its
   * product and leaves every other product as it was.
   */
  lemma CounterSavesApplied(db: Db, groups: seq<Group>)
    requires Grouped(groups)
    requires forall i :: 0 <= i < |groups| ==> groups[i][0].productId in db.products
    ensures var m := ApplySaves(db.products, CounterSaves(db, groups));
      && m.Keys == db.products.Keys
      && (forall i :: 0 <= i < |groups| ==> m[groups[i][0].productId] == db.products[groups[i][0].productId] + QuantitySum(groups[i]))
      && (forall id :: id in db.products && (forall i :: 0 <= i < |groups| ==> groups[i][0].productId != id) ==> m[id] == db.products[id])
  {
    GroupedNonEmpty(groups);
    CounterSavesKeepKeys(db, groups, db.products);
    CounterSavesHit(db, groups, db.products);
    forall id | id in db.products && (forall i :: 0 <= i < |groups| ==> groups[i][0].productId != id)
      ensures ApplySaves(db.products, CounterSaves(db, groups))[id] == db.products[id]
    {
      CounterSavesSkip(db, groups, db.products, id);
    }
  }

  /** A committed refresh applies exactly the writes and saves its groups produced. */
  lemma RefreshedCommitsGroups(db: Db, target: int, groups: seq<Group>, faults: Faults)
    requires NonEmptyGroups(groups)
    requires RefreshProductAnalysis(db, target, groups, faults).Refreshed?
    ensures RefreshGroups(db, target, groups, Progress(db.records, [], [])).Success?
    ensures var pr := RefreshGroups(db, target, groups, Progress(db.records, [], [])).value;
      RefreshProductAnalysis(db, target, groups, faults).db
        == Db(ApplyWrites(db.records, pr.writes), ApplySaves(db.products, pr.saves), db.branches)
  {
  }

  /** Saving a run of inserts of the rows' stored forms appends those forms, in row order. */
  lemma InsertedRowsAppended(records: seq<Record>, writes: seq<Write>, rows: seq<Row>)
    requires InsertsAfter(writes, [], rows)
    ensures |ApplyWrites(records, writes)| == |records| + |rows|
    ensures ApplyWrites(records, writes)[..|records|] == records
    ensures forall k :: 0 <= k < |rows| ==> ApplyWrites(records, writes)[|records| + k] == StoredForm(rows[k])
  {
    forall k | 0 <= k < |writes| ensures writes[k] == Insert(StoredForm(rows[k])) {
      assert writes[0 + k] == Insert(StoredForm(rows[k]));
    }
    InsertsAppend(records, writes);
  }

  /** A run from the stored records, none dated `target`, writes one insert per row, in row order. */
  lemma FreshRunInserts(db: Db, target: int, groups: seq<Group>)
    requires Grouped(groups)
    requires !HasRecordAt(db.records, target)
    requires RefreshGroups(db, target, groups, Progress(db.records, [], [])).Success?
    ensures InsertsAfter(RefreshGroups(db, target, groups, Progress(db.records, [], [])).value.writes, [], Rows(groups))
  {
    var pr := Progress(db.records, [], []);
    assert Clear(db.records, |db.records|, target);
    ClearGroupsInsertAll(db, target, groups, pr);
  }

  /**
   * Saving the writes of a run from the stored records, none dated `target`,
   * appends the stored form of every row after those records, in row order.
   */
  lemma FreshRunAppendsRows(db: Db, target: int, groups: seq<Group>)
    requires Grouped(groups)
    requires !HasRecordAt(db.records, target)
    requires NonEmptyGroups(groups)
    requires RefreshGroups(db, target, groups, Progress(db.records, [], [])).Success?
    ensures var after := ApplyWrites(db.records, RefreshGroups(db, target, groups, Progress(db.records, [], [])).value.writes);
      && |after| == |db.records| + |Rows(groups)|
      && after[..|db.records|] == db.records
      && forall k :: 0 <= k < |Rows(groups)| ==> after[|db.records| + k] == StoredForm(Rows(groups)[k])
  {
    var pr := Progress(db.records, [], []);
    FreshRunInserts(db, target, groups);
    InsertedRowsAppended(db.records, RefreshGroups(db, target, groups, pr).value.writes, Rows(groups));
  }

  /**
   * With the guard's date and the snapshot's date taken as one `target`, a
   * refresh that passes the guard finds no stored record to match: it appends
   * one record per row, in row order, and updates none.
   */
  lemma RefreshInsertsEveryRow(db: Db, target: int, groups: seq<Group>, faults: Faults)
    requires Grouped(groups)
    requires !HasRecordAt(db.records, target)
    ensures var o := RefreshProductAnalysis(db, target, groups, faults);
      o.Refreshed? ==>
        && |o.db.records| == |db.records| + |Rows(groups)|
        && o.db.records[..|db.records|] == db.records
        && (forall k :: 0 <= k < |Rows(groups)| ==> o.db.records[|db.records| + k] == StoredForm(Rows(groups)[k]))
  {
    var o := RefreshProductAnalysis(db, target, groups, faults);
    if o.Refreshed? {
      GroupedNonEmpty(groups);
      RefreshedCommitsGroups(db, target, groups, faults);
      FreshRunAppendsRows(db, target, groups);
    }
  }

  /**
   * A refresh that passes the guard moves each grouped product's counter by
   * exactly its group's quantities and leaves every other product alone.
   */
  lemma RefreshAddsGroupQuantities(db: Db, target: int, groups: seq<Group>, faults: Faults)
    requires Grouped(groups)
    requires !HasRecordAt(db.records, target)
    ensures var o := RefreshProductAnalysis(db, target, groups, faults);
      o.Refreshed? ==>
        && o.db.products.Keys == db.products.Keys
        && (forall i :: 0 <= i < |groups| ==>
              groups[i][0].productId in db.products &&
              o.db.products[groups[i][0].productId] == db.products[groups[i][0].productId] + QuantitySum(groups[i]))
        && (forall id :: id in db.products && (forall i :: 0 <= i < |groups| ==> groups[i][0].productId != id) ==>
              o.db.products[id] == db.products[id])
  {
    var o := RefreshProductAnalysis(db, target, groups, faults);
    if o.Refreshed? {
      GroupedNonEmpty(groups);
      RefreshedCommitsGroups(db, target, groups, faults);
      var pr := Progress(db.records, [], []);
      assert Clear(pr.view, |db.records|, target);
      ClearGroupsSaveCounters(db, target, groups, pr);
      var saves := RefreshGroups(db, target, groups, pr).value.saves;
      assert saves == CounterSaves(db, groups);
      assert o.db.products == ApplySaves(db.products, CounterSaves(db, groups));
      CounterSavesApplied(db, groups);
    }
  }

  /** Both rows of a group with one product, branch and date are inserted: neither sees the other. */
  lemma DuplicateRowsReconciled()
    ensures ReconcileRows(Acc([], [], 0), 0, {"b"}, "p", 7, [Row("p", "b", 0, 2), Row("p", "b", 0, 3)])
              == Success(Acc([Record("p", "b", 7, 2), Record("p", "b", 7, 3)],
                             [Insert(Record("p", "b", 7, 2)), Insert(Record("p", "b", 7, 3))], 5))
  {
    var r1, r2 := Row("p", "b", 0, 2), Row("p", "b", 0, 3);
    var rec1, rec2 := Record("p", "b", 7, 2), Record("p", "b", 7, 3);
    var acc0 := Acc([], [], 0);
    var acc1 := Acc([rec1], [Insert(rec1)], 2);
    var acc2 := Acc([rec1, rec2], [Insert(rec1), Insert(rec2)], 5);
    assert NoMatch(acc0.view, 0, "p", 7, r1) && NoMatch(acc1.view, 0, "p", 7, r2);
    assert ToRecord(r1, "p") == rec1 && ToRecord(r2, "p") == rec2;
    assert acc0.view + [rec1] == [rec1] && acc0.writes + [Insert(rec1)] == [Insert(rec1)];
    assert acc1.view + [rec2] == acc2.view && acc1.writes + [Insert(rec2)] == acc2.writes;
    assert ReconcileRow(acc0, 0, {"b"}, "p", 7, r1) == Success(acc1);
    assert ReconcileRow(acc1, 0, {"b"}, "p", 7, r2) == Success(acc2);
    assert [r1, r2][1..] == [r2] && [r2][1..] == [];
    assert ReconcileRows(acc1, 0, {"b"}, "p", 7, [r2]) == Success(acc2);
  }

  /**
   * Matching consults only the records stored before the run: two rows with the
   * same product, branch and date in one group become two records with the same key.
   */
  lemma DuplicateRowsInsertedTwice()
    ensures RefreshPlan(Db([], map["p" := 0], {"b"}), 7, [[Row("p", "b", 0, 2), Row("p", "b", 0, 3)]])
              == Success(Plan([Insert(Record("p", "b", 7, 2)), Insert(Record("p", "b", 7, 3))], [ProductSave("p", 5)]))
  {
    var db := Db([], map["p" := 0], {"b"});
    var g := [Row("p", "b", 0, 2), Row("p", "b", 0, 3)];
    var rec1, rec2 := Record("p", "b", 7, 2), Record("p", "b", 7, 3);
    DuplicateRowsReconciled();
    var pr' := Progress([rec1, rec2], [Insert(rec1), Insert(rec2)], [ProductSave("p", 5)]);
    assert g[0].productId == "p" && "p" in db.products && db.products["p"] == 0;
    assert [] + [ProductSave("p", 5)] == [ProductSave("p", 5)];
    assert GroupStep(db, 7, g, Progress([], [], [])) == Success(pr');
    assert [g][1..] == [];
    assert RefreshGroups(db, 7, [g], Progress([], [], [])) == Success(pr');
  }

  /**
   * A stored quantity of 5 corrected to 7 is overwritten in place, and the
   * product's counter stays where it was rather than growing by 2.
   */
  lemma UpdateKeepsCounter()
    ensures ReconcileRow(Acc([Record("p", "b", 7, 5)], [], 10), 1, {"b"}, "p", 7, Row("p", "b", 0, 7))
              == Success(Acc([Record("p", "b", 7, 7)], [Update(0, 7)], 10))
  {
    var view := [Record("p", "b", 7, 5)];
    var row := Row("p", "b", 0, 7);
    assert FirstMatch(view, 1, "p", 7, row, 0);
    assert view[0 := view[0].(totalQuantity := 7)] == [Record("p", "b", 7, 7)];
  }
}
