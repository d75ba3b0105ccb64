/** The inductive invariant of the saga and its preservation by every step. */
module SagaInvariant {
  import opened Collections
  import opened Baskets
  import opened Inventory
  import opened Checkout
  import opened Saga
  import IR = InventoryRuns
  import CR = CheckoutRuns

  /** The attempt holds nothing and never will. */
  ghost predicate Closed(store: Store, tx: nat, epoch: nat)
  {
    (tx, epoch) in store.adj && !store.adj[(tx, epoch)].Applied?
  }

  ghost predicate Holds(store: Store, tx: nat, epoch: nat, lines: Lines)
  {
    (tx, epoch) in store.adj && store.adj[(tx, epoch)] == Applied(lines)
  }

  ghost predicate CompletionOk(w: World, id: nat)
    requires id in w.db.txs && id in w.db.completions
  {
    var c, t, key := w.db.completions[id], w.db.txs[id], (id, w.db.completions[id].epoch);
    && (forall e :: 1 <= e < c.epoch ==> Closed(w.store, id, e))
    && (c.state == Aborted ==> Closed(w.store, id, c.epoch))
    && (c.state == Finished || c.state == Reserved ==> Holds(w.store, id, c.epoch, Counts(t.items)))
    && (!Terminal(c.state) && key in w.store.adj && w.store.adj[key].Applied? ==>
          Holds(w.store, id, c.epoch, Counts(t.items)))
    && (key in w.store.adj && w.store.adj[key].Released? ==> c.state == Compensating || c.state == Aborted)
    && (!Terminal(c.state) ==> c.total == SumPrices(t.items) && Req(ReserveReq(id, c.epoch, Counts(t.items))) in w.sent)
    && (c.state == Finished ==> t.total == Some(SumPrices(t.items)))
  }

  ghost predicate RequestOk(w: World, req: Request)
  {
    && req.tx in w.db.txs && req.tx in w.db.completions
    && 1 <= req.epoch <= w.db.completions[req.tx].epoch
    && IR.QuantitiesOk(req)
    && (req.epoch == w.db.completions[req.tx].epoch ==>
          var c := w.db.completions[req.tx];
          match req
          case ReserveReq(_, _, lines) => !Terminal(c.state) ==> lines == Counts(w.db.txs[req.tx].items)
          case ReleaseReq(_, _) => c.state == Compensating || c.state == Aborted)
  }

  ghost predicate ReplyOk(store: Store, rep: Reply)
  {
    && rep.Key() in store.adj
    && (match rep
        case ReservedReply(_, _, _) => !store.adj[rep.Key()].Rejected?
        case RejectedReply(_, _, _) => !store.adj[rep.Key()].Applied?
        case _ => store.adj[rep.Key()].Released?)
  }

  /** What a live driver knows about its completion. */
  ghost predicate DriverOk(w: World, dr: Driver)
  {
    && dr.tx in w.db.txs && dr.tx in w.db.completions
    && (var c, t := w.db.completions[dr.tx], w.db.txs[dr.tx];
        && t.status == Completing && !Terminal(c.state) && c.epoch == dr.epoch
        && (c.state != Compensating ==> dr.touched <= c.updatedAt)
        && (match dr.pc
            case AskReserve => c.state != Compensating && dr.lines == Counts(t.items) && dr.total == c.total
            case GotReserved =>
              c.state != Compensating && dr.total == c.total && Holds(w.store, dr.tx, dr.epoch, Counts(t.items))
            case MustFinalize => c.state == Reserved && dr.total == c.total
            case MustCompensate => true
            case AskRelease => c.state == Compensating
            case MustReopen => Closed(w.store, dr.tx, dr.epoch)))
  }

  ghost predicate RecordsOk(w: World, id: nat)
  {
    forall e :: (id, e) in w.store.adj ==> id in w.db.completions && 1 <= e <= w.db.completions[id].epoch
  }

  ghost predicate MessagesOk(w: World, id: nat)
  {
    && (forall req: Request :: Req(req) in w.sent && req.tx == id ==> RequestOk(w, req))
    && (forall rep: Reply :: Rep(rep) in w.sent && rep.tx == id ==> ReplyOk(w.store, rep))
  }

  ghost predicate DriversOk(w: World, id: nat)
  {
    forall d :: d in w.drivers && w.drivers[d].tx == id ==>
      && (w.drivers[d].pc == AskReserve || w.drivers[d].pc == AskRelease ==> Req(Ask(w.drivers[d])) in w.sent)
      && (Live(w, d) ==> DriverOk(w, w.drivers[d]))
  }

  /** Lease exclusion: no completion has two live drivers. */
  ghost predicate OneDriver(w: World, id: nat)
  {
    forall d, d' :: Live(w, d) && Live(w, d') && w.drivers[d].tx == id && w.drivers[d'].tx == id ==> d == d'
  }

  ghost predicate InvAt(w: World, id: nat)
  {
    && (id in w.db.txs || id in w.db.completions ==> CR.AgreesAt(w.db, id))
    && (id in w.db.txs ==> CR.Counted(w.db.txs[id]))
    && (id in w.db.completions ==> id in w.db.txs && CompletionOk(w, id))
    && RecordsOk(w, id) && MessagesOk(w, id) && DriversOk(w, id) && OneDriver(w, id)
  }

  ghost predicate StoreOk(store: Store)
  {
    IR.Balanced(store) && IR.HoldsNothingNegative(store)
  }

  ghost predicate Inv(w: World)
  {
    StoreOk(w.store) && forall id :: InvAt(w, id)
  }

  // ---- a step leaves other transactions alone ----------------------------------------------

  ghost predicate SameRows(w: World, w': World, id: nat)
  {
    && (id in w.db.txs <==> id in w'.db.txs) && (id in w.db.txs ==> w'.db.txs[id] == w.db.txs[id])
    && (id in w.db.completions <==> id in w'.db.completions)
    && (id in w.db.completions ==> w'.db.completions[id] == w.db.completions[id])
  }

  ghost predicate SameRecords(w: World, w': World, id: nat)
  {
    forall e :: ((id, e) in w.store.adj <==> (id, e) in w'.store.adj)
             && ((id, e) in w.store.adj ==> w'.store.adj[(id, e)] == w.store.adj[(id, e)])
  }

  ghost predicate SameMessages(w: World, w': World, id: nat)
  {
    && (forall req: Request :: req.tx == id ==> (Req(req) in w.sent <==> Req(req) in w'.sent))
    && (forall rep: Reply :: rep.tx == id ==> (Rep(rep) in w.sent <==> Rep(rep) in w'.sent))
  }

  ghost predicate NoNewDriver(w: World, w': World, id: nat)
  {
    && w'.lease == w.lease && w'.clock >= w.clock
    && forall d :: d in w'.drivers && w'.drivers[d].tx == id ==> d in w.drivers && w'.drivers[d] == w.drivers[d]
  }

  ghost predicate Untouched(w: World, w': World, id: nat)
  {
    SameRows(w, w', id) && SameRecords(w, w', id) && SameMessages(w, w', id) && NoNewDriver(w, w', id)
  }

  lemma UntouchedKeeps(w: World, w': World, id: nat)
    requires InvAt(w, id) && Untouched(w, w', id)
    ensures InvAt(w', id)
  {
    hide Counts, SumPrices, CR.Counted;
    assert forall d :: Live(w', d) && w'.drivers[d].tx == id ==> Live(w, d);
    if id in w.db.completions {
      var c, t := w.db.completions[id], w.db.txs[id];
      assert forall e :: Closed(w.store, id, e) ==> Closed(w'.store, id, e);
      assert Holds(w.store, id, c.epoch, Counts(t.items)) ==> Holds(w'.store, id, c.epoch, Counts(t.items));
      assert (id, c.epoch) in w'.store.adj ==> (id, c.epoch) in w.store.adj;
      var req := ReserveReq(id, c.epoch, Counts(t.items));
      assert Req(req) in w.sent ==> Req(req) in w'.sent;
      assert CompletionOk(w', id);
    }
    forall req: Request | Req(req) in w'.sent && req.tx == id ensures RequestOk(w', req) {
      assert RequestOk(w, req);
    }
    forall d | d in w'.drivers && w'.drivers[d].tx == id && Live(w', d) ensures DriverOk(w', w'.drivers[d]) {
      assert DriverOk(w, w.drivers[d]);
    }
  }
}
