/** What the saga guarantees in every reachable state, and what its premises are needed for. */
module SagaTheorems {
  import opened Collections
  import opened Baskets
  import opened Inventory
  import opened Checkout
  import opened Saga
  import opened SagaInvariant
  import opened SagaSteps
  import IR = InventoryRuns
  import CR = CheckoutRuns

  ghost predicate AppliedAt(store: Store, id: nat, e: nat)
  {
    (id, e) in store.adj && store.adj[(id, e)].Applied?
  }

  /** The two stores agree about transaction `id`. */
  ghost predicate StoresAgree(w: World, id: nat)
    requires id in w.db.txs
  {
    var t, epoch := w.db.txs[id], CR.EpochOf(w.db, id);
    && (t.status == Completed ==> Holds(w.store, id, epoch, Counts(t.items)))
    && (t.status == Open || t.status == Cancelled ==> forall e :: !AppliedAt(w.store, id, e))
    && (forall e :: AppliedAt(w.store, id, e) ==> e == epoch)
  }

  /** Cross-store safety, over every run with crashes, duplicates, reordering and loss: COMPLETED means the
      current attempt holds exactly the basket; OPEN or CANCELLED means no attempt holds anything; an
      attempt below the current one never holds anything. */
  lemma CrossStoreSafety(w: World, id: nat)
    requires Reachable(w) && id in w.db.txs
    ensures StoresAgree(w, id)
  {
    ReachableInv(w);
    assert InvAt(w, id);
    if id in w.db.completions { assert CompletionOk(w, id); }
    hide Counts, SumPrices;
    forall e: nat | AppliedAt(w.store, id, e) ensures e == CR.EpochOf(w.db, id) {
      assert (id, e) in w.store.adj;
      assert e < w.db.completions[id].epoch ==> Closed(w.store, id, e);
    }
  }

  /** Money: what a completed transaction was charged is the sum of its scanned prices, which is its running
      total and the total of its grouped basket. */
  lemma ChargedWhatWasScanned(w: World, id: nat)
    requires Reachable(w) && id in w.db.txs && w.db.txs[id].status == Completed
    ensures var t := w.db.txs[id];
      && t.total == Some(t.runningTotal) && t.runningTotal == SumPrices(t.items) == BasketTotal(Basket(t.items))
      && t.itemCount == |t.items| == BasketUnits(Basket(t.items)) > 0
      && Holds(w.store, id, CR.EpochOf(w.db, id), Counts(t.items))
      && UnitsOf(Counts(t.items)) == t.itemCount
  {
    var t := w.db.txs[id];
    ReachableInv(w);
    assert InvAt(w, id) && CompletionOk(w, id);
    BasketAccounts(t.items, "");
    LinesCarryEveryItem(t.items);
  }

  /** Lease exclusion: no begin, takeover or claim ever gives a completion two live drivers. */
  lemma LeaseExclusion(w: World, d: nat, d': nat)
    requires Reachable(w) && Live(w, d) && Live(w, d') && d != d'
    ensures w.drivers[d].tx != w.drivers[d'].tx
  {
    ReachableInv(w);
    assert OneDriver(w, w.drivers[d].tx) by { assert InvAt(w, w.drivers[d].tx); }
  }

  /** The code only ever repeats itself: whatever a driver publishes or republishes, and a driver long past
      its lease too, is a message already sent. */
  lemma RepublishingAddsNothing(w: World, d: nat)
    requires Reachable(w) && Enabled(w, Publish(d))
    ensures Apply(w, Publish(d)) == w
  {
    ReachableInv(w);
    PublishKeeps(w, d);
  }

  // ---- late messages -----------------------------------------------------------------------

  ghost predicate Inert(store: Store, req: Request)
  {
    match req
    case ReserveReq(tx, epoch, _) => (tx, epoch) in store.adj
    case ReleaseReq(tx, epoch) => Closed(store, tx, epoch)
  }

  /** The attempt is over on Checkout's side: its transaction COMPLETED, or the attempt itself rolled back. */
  ghost predicate Over(w: World, id: nat, epoch: nat)
  {
    id in w.db.txs && id in w.db.completions &&
      (w.db.txs[id].status == Completed || epoch < w.db.completions[id].epoch || w.db.completions[id].state == Aborted)
  }

  ghost predicate SameHoldings(store: Store, store': Store)
  {
    && store'.stock == store.stock
    && store'.adj.Keys == store.adj.Keys
    && (forall key :: key in store.adj && (store.adj[key].Applied? || store'.adj[key].Applied?) ==>
          store'.adj[key] == store.adj[key])
  }

  lemma InertChangesNothing(store: Store, req: Request)
    requires Inert(store, req)
    ensures SameHoldings(store, Handle(store, req).0)
    ensures Handle(store, req).0.alerts == store.alerts
  {
  }

  lemma {:induction false} InertRun(store: Store, reqs: seq<Request>)
    requires forall req :: req in reqs ==> Inert(store, req)
    ensures SameHoldings(store, IR.Run(store, reqs)) && IR.Run(store, reqs).alerts == store.alerts
  {
    if reqs != [] {
      var front, last := reqs[..|reqs| - 1], reqs[|reqs| - 1];
      assert last in reqs && forall req :: req in front ==> req in reqs;
      InertRun(store, front);
      assert Inert(IR.Run(store, front), last) by { assert Inert(store, last); }
      InertChangesNothing(IR.Run(store, front), last);
    }
  }

  /** Late messages are inert: requests already sent for attempts that are over, delivered any number of times
      and in any order, move no stock, raise no alert, and leave every holding as it was. */
  lemma LateMessagesAreInert(w: World, reqs: seq<Request>)
    requires Reachable(w)
    requires forall req :: req in reqs ==> Req(req) in w.sent && Over(w, req.tx, req.epoch)
    ensures SameHoldings(w.store, IR.Run(w.store, reqs))
    ensures IR.Run(w.store, reqs).alerts == w.store.alerts
  {
    ReachableInv(w);
    hide Counts, SumPrices;
    forall req | req in reqs ensures Inert(w.store, req) {
      assert InvAt(w, req.tx);
      assert RequestOk(w, req) && CompletionOk(w, req.tx);
      assert req.epoch < w.db.completions[req.tx].epoch ==> Closed(w.store, req.tx, req.epoch);
    }
    InertRun(w.store, reqs);
  }
}
