/** The end-to-end oracle: the check every drained system must pass, over the services' own reports. */
module Oracle {
  import opened Collections
  import opened Skus
  import opened Baskets
  import opened Inventory
  import opened Checkout
  import opened Saga
  import opened SagaInvariant
  import opened SagaSteps
  import opened SagaTheorems
  import opened RecoveryPass
  import opened Drain
  import IR = InventoryRuns
  import CR = CheckoutRuns

  datatype CheckoutReport = CheckoutReport(sold: map<Sku, int>, completing: nat, openCompletions: nat,
                                           completed: set<nat>)

  datatype StockRow = StockRow(initial: int, current: int)

  datatype InventoryReport = InventoryReport(stock: map<Sku, StockRow>, applied: set<nat>, unpublished: nat)

  datatype ScanReport = ScanReport(maxScanId: int, relayPosition: Option<int>, unpublished: nat)

  /** Nothing of the scan path or the outboxes is still on its way. */
  predicate CaughtUp(scans: ScanReport, outcomesWaiting: nat, lastScanId: int)
  {
    && lastScanId == scans.maxScanId
    && scans.unpublished == 0 && outcomesWaiting == 0
    && (scans.relayPosition.Some? ==> scans.relayPosition.value == scans.maxScanId)
  }

  /** What a PASS says about the stores. */
  ghost predicate StoresPass(checkout: CheckoutReport, inventory: InventoryReport)
  {
    && inventory.stock != map[]
    && (forall k :: k in inventory.stock ==>
          && inventory.stock[k].initial - inventory.stock[k].current == At(checkout.sold, k)
          && inventory.stock[k].current >= 0)
    && checkout.sold.Keys <= inventory.stock.Keys
    && checkout.completing == 0 && checkout.openCompletions == 0
    && inventory.applied == checkout.completed
  }

  method Check(checkout: CheckoutReport, scans: ScanReport, inventory: InventoryReport, lastScanId: int)
    returns (ok: bool)
    ensures ok <==> StoresPass(checkout, inventory) && CaughtUp(scans, inventory.unpublished, lastScanId)
    ensures ok <==>
      && inventory.stock != map[]
      && (forall k :: k in inventory.stock ==>
            var row := inventory.stock[k];
            row.current >= 0 && row.initial - row.current == if k in checkout.sold then checkout.sold[k] else 0)
      && (forall k :: k in checkout.sold ==> k in inventory.stock)
      && checkout.completing == 0 && checkout.openCompletions == 0 && inventory.applied == checkout.completed
      && lastScanId == scans.maxScanId && scans.unpublished == 0 && inventory.unpublished == 0
      && (scans.relayPosition.None? || scans.relayPosition.value == scans.maxScanId)
  {
    var stock := inventory.stock;
    var mismatched := set k | k in stock && stock[k].initial - stock[k].current != At(checkout.sold, k);
    var negative := set k | k in stock && stock[k].current < 0;
    var unknown := checkout.sold.Keys - stock.Keys;
    ok := true;
    if |stock| == 0 { ok := false; }
    ok := ok && mismatched == {} && negative == {} && unknown == {};
    if checkout.completing > 0 || checkout.openCompletions > 0 { ok := false; }
    if inventory.applied != checkout.completed { ok := false; }
    if lastScanId != scans.maxScanId { ok := false; }
    if scans.unpublished > 0 || inventory.unpublished > 0 { ok := false; }
    var relay := if scans.relayPosition.Some? then scans.relayPosition.value else scans.maxScanId;
    if relay != scans.maxScanId { ok := false; }
    if mismatched == {} && negative == {} {
      forall k | k in stock
        ensures stock[k].initial - stock[k].current == At(checkout.sold, k) && stock[k].current >= 0
      {
        assert k !in mismatched && k !in negative;
      }
    }
    if unknown == {} {
      forall k | k in checkout.sold.Keys ensures k in stock.Keys {
        assert k !in unknown;
      }
    }
  }

  // ---- the reports of a world --------------------------------------------------------------

  ghost function CompletedIds(db: Db): set<nat>
  {
    set id | id in db.txs && db.txs[id].status == Completed
  }

  ghost function UnitsSold(db: Db, k: Sku): nat -> int
  {
    (id: nat) => if id in db.txs then Units(db.txs[id].items, k) else 0
  }

  ghost function Sold(db: Db, k: Sku): int
  {
    SumOver(CompletedIds(db), UnitsSold(db, k))
  }

  ghost function SoldSkus(db: Db): set<Sku>
  {
    set id, i | id in CompletedIds(db) && 0 <= i < |db.txs[id].items| :: db.txs[id].items[i].sku
  }

  ghost function ReportOf(db: Db): CheckoutReport
  {
    CheckoutReport(map k | k in SoldSkus(db) :: Sold(db, k),
                   |set id | id in db.txs && db.txs[id].status == Completing|, |Unfinished(db)|, CompletedIds(db))
  }

  ghost function StockReport(store: Store, unpublished: nat): InventoryReport
    requires store.stock.Keys == store.initial.Keys
  {
    InventoryReport(map k | k in store.stock :: StockRow(store.initial[k], store.stock[k]),
                    set key | key in store.adj && store.adj[key].Applied? :: key.0, unpublished)
  }

  // ---- when nothing is unfinished ----------------------------------------------------------

  ghost function AttemptOf(db: Db): nat -> Key
  {
    (id: nat) => (id, CR.EpochOf(db, id))
  }

  lemma FinishedStatus(w: World, id: nat)
    requires Inv(w) && Unfinished(w.db) == {} && id in w.db.txs
    ensures w.db.txs[id].status != Completing
  {
    assert InvAt(w, id);
    hide CompletionOk;
    assert id in w.db.completions ==> id !in Unfinished(w.db);
  }

  lemma HoldersAreCompleted(w: World, key: Key)
    requires Reachable(w) && Unfinished(w.db) == {} && key in w.store.adj && w.store.adj[key].Applied?
    ensures key.0 in CompletedIds(w.db) && key == AttemptOf(w.db)(key.0)
  {
    ReachableInv(w);
    assert InvAt(w, key.0);
    CrossStoreSafety(w, key.0);
    FinishedStatus(w, key.0);
    assert AppliedAt(w.store, key.0, key.1);
  }

  lemma CompletedHold(w: World, id: nat, k: Sku)
    requires Reachable(w) && id in CompletedIds(w.db)
    ensures var key := AttemptOf(w.db)(id);
      key in w.store.adj && w.store.adj[key].Applied? && IR.AppliedQty(w.store, k)(key) == UnitsSold(w.db, k)(id)
    ensures k in Counts(w.db.txs[id].items) ==> k in w.store.stock
  {
    CrossStoreSafety(w, id);
    UnitsPositive(w.db.txs[id].items, k);
    ReachableInv(w);
  }

  lemma SoldIsHeld(w: World, k: Sku)
    requires Reachable(w) && Unfinished(w.db) == {}
    ensures IR.HeldUnits(w.store, k) == Sold(w.db, k)
  {
    forall id | id in CompletedIds(w.db)
      ensures AttemptOf(w.db)(id) in w.store.adj.Keys
      ensures IR.AppliedQty(w.store, k)(AttemptOf(w.db)(id)) == UnitsSold(w.db, k)(id)
    {
      CompletedHold(w, id, k);
    }
    forall key | key in w.store.adj.Keys && (forall id :: id in CompletedIds(w.db) ==> AttemptOf(w.db)(id) != key)
      ensures IR.AppliedQty(w.store, k)(key) == 0
    {
      if w.store.adj[key].Applied? { HoldersAreCompleted(w, key); }
    }
    SumReindex(w.store.adj.Keys, IR.AppliedQty(w.store, k), CompletedIds(w.db), UnitsSold(w.db, k), AttemptOf(w.db));
  }

  lemma {:induction false} UnitsOfAbsent(items: seq<Item>, k: Sku)
    requires forall i :: 0 <= i < |items| ==> items[i].sku != k
    ensures Units(items, k) == 0
  {
    if items != [] { UnitsOfAbsent(items[..|items| - 1], k); }
  }

  /** Looking a SKU up in the report, absent meaning zero, gives the units sold. */
  lemma SoldReported(db: Db, k: Sku)
    ensures At(ReportOf(db).sold, k) == Sold(db, k)
  {
    if k !in SoldSkus(db) {
      forall id | id in CompletedIds(db) ensures UnitsSold(db, k)(id) == 0 {
        var items := db.txs[id].items;
        forall i | 0 <= i < |items| ensures items[i].sku != k {
          assert items[i].sku in SoldSkus(db);
        }
        UnitsOfAbsent(items, k);
      }
      SumZero(CompletedIds(db), UnitsSold(db, k));
    }
  }

  lemma SameHolders(w: World, unpublished: nat)
    requires Reachable(w) && Inv(w) && Unfinished(w.db) == {}
    ensures StockReport(w.store, unpublished).applied == CompletedIds(w.db)
  {
    var applied := StockReport(w.store, unpublished).applied;
    forall id: nat ensures id in applied <==> id in CompletedIds(w.db) {
      if id in CompletedIds(w.db) { CompletedHold(w, id, ""); }
      if id in applied {
        var key :| key in w.store.adj && w.store.adj[key].Applied? && key.0 == id;
        HoldersAreCompleted(w, key);
      }
    }
  }

  lemma OnlyKnownSkusSold(w: World)
    requires Reachable(w)
    ensures SoldSkus(w.db) <= w.store.stock.Keys
  {
    forall k | k in SoldSkus(w.db) ensures k in w.store.stock {
      var id, i :| id in CompletedIds(w.db) && 0 <= i < |w.db.txs[id].items| && w.db.txs[id].items[i].sku == k;
      CompletedHold(w, id, k);
    }
  }

  lemma NothingCompleting(w: World)
    requires Inv(w) && Unfinished(w.db) == {}
    ensures ReportOf(w.db).completing == 0 && ReportOf(w.db).openCompletions == 0
  {
    var completing := set id | id in w.db.txs && w.db.txs[id].status == Completing;
    forall id: nat ensures id !in completing {
      if id in w.db.txs { FinishedStatus(w, id); }
    }
    assert completing == {};
  }

  /** The oracle: in every reachable state its store conditions hold exactly when Inventory was seeded and no
      completion is unfinished. Conservation, no negative stock and agreement need no checking beyond that. */
  lemma CheckPassesIffFinished(w: World, unpublished: nat)
    requires Reachable(w)
    ensures w.store.stock.Keys == w.store.initial.Keys
    ensures StoresPass(ReportOf(w.db), StockReport(w.store, unpublished))
       <==> w.store.stock != map[] && Unfinished(w.db) == {}
  {
    ReachableInv(w);
    var checkout, inventory := ReportOf(w.db), StockReport(w.store, unpublished);
    assert inventory.stock.Keys == w.store.stock.Keys;
    if Unfinished(w.db) == {} {
      NothingCompleting(w);
      SameHolders(w, unpublished);
      OnlyKnownSkusSold(w);
      forall k | k in inventory.stock
        ensures inventory.stock[k].initial - inventory.stock[k].current == At(checkout.sold, k)
        ensures inventory.stock[k].current >= 0
      {
        SoldIsHeld(w, k);
        SoldReported(w.db, k);
      }
    }
  }

  /** From any reachable state with every driver dead, however recovery passes are timed and limited, once enough of
      them have been made after the leases lapsed the stores are as the oracle wants them. */
  lemma DrainedSystemPasses(w: World, limit: nat, passes: seq<Pass>, db': Db, store': Store, horizon: int,
                            unpublished: nat)
    requires Reachable(w) && Quiet(w) && w.lease > 0 && w.store.stock != map[] && LapsedBy(w.db, w.lease, horizon)
    requires Passes(w.db, w.store, w.clock, w.lease, limit, passes, db', store')
    requires MadeBy(passes, horizon) * limit >= |Unfinished(w.db)|
    ensures store'.stock.Keys == store'.initial.Keys
    ensures StoresPass(ReportOf(db'), StockReport(store', unpublished))
    ensures exists w' :: Steps(w, w') && Reachable(w') && w'.db == db' && w'.store == store'
  {
    hide Inv, Runs, Initial, StoresPass, Passes;
    ReachableInv(w);
    var w' := DrainTheorem(w, limit, passes, db', store', horizon);
    var w0, a :| Initial(w0) && Runs(w0, a, w);
    var b :| Runs(w, b, w');
    RunsConcat(w0, a, w, b, w');
    StockRowsStay(w, b, w');
    CheckPassesIffFinished(w', unpublished);
  }

  /** No run adds or removes a stock row. */
  lemma {:induction false} StockRowsStay(w: World, labels: seq<Label>, w': World)
    requires Inv(w) && Runs(w, labels, w')
    ensures w'.store.stock.Keys == w.store.stock.Keys
    decreases |labels|
  {
    if labels != [] {
      var l := labels[0];
      StepKeeps(w, l);
      if l.HandleRequest? {
        IR.HandleKeepsStock(w.store, l.req);
      }
      StockRowsStay(Apply(w, l), labels[1..], w');
    }
  }
}
