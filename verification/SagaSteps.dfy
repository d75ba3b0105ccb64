/** Every step of the saga keeps its invariant. */
module SagaSteps {
  import opened Collections
  import opened Baskets
  import opened Inventory
  import opened Checkout
  import opened Saga
  import opened SagaInvariant
  import IR = InventoryRuns
  import CR = CheckoutRuns

  /** The transaction a step works on, if it works on one. */
  ghost function Target(w: World, l: Label): Option<nat>
    requires Enabled(w, l)
  {
    match l
    case Tick(_) => None
    case NewTx(id) => Some(id)
    case ScanItem(id, _) => Some(id)
    case SweepOpen(_) => None
    case BeginDriver(_, id) => Some(id)
    case ClaimDriver(_, id) => Some(id)
    case HandleRequest(req) => Some(req.tx)
    case _ => Some(w.drivers[l.d].tx)
  }

  lemma OthersUntouchedByRequest(w: World, l: Label, id: nat)
    requires l.HandleRequest? && Enabled(w, l) && l.req.tx != id
    ensures Untouched(w, Apply(w, l), id)
  {
    IR.HandleIsLocal(w.store, l.req);
    hide Handle;
    forall e ensures IR.RecordOf(Apply(w, l).store, (id, e)) == IR.RecordOf(w.store, (id, e)) {}
  }

  lemma OthersUntouchedByJoin(w: World, l: Label, id: nat)
    requires (l.BeginDriver? || l.ClaimDriver?) && Enabled(w, l) && l.id != id
    ensures Untouched(w, Apply(w, l), id)
  {
    hide Counts, SumPrices;
  }

  lemma OthersUntouched(w: World, l: Label, id: nat)
    requires Enabled(w, l) && !l.SweepOpen? && Target(w, l) != Some(id)
    ensures Untouched(w, Apply(w, l), id)
  {
    hide Counts, SumPrices, Handle;
    if l.HandleRequest? {
      OthersUntouchedByRequest(w, l, id);
    } else if l.BeginDriver? || l.ClaimDriver? {
      OthersUntouchedByJoin(w, l, id);
    }
  }

  // ---- shoppers and the sweep --------------------------------------------------------------

  lemma NewTxKeeps(w: World, id: nat)
    requires InvAt(w, id) && Enabled(w, NewTx(id))
    ensures InvAt(Apply(w, NewTx(id)), id)
  {
    hide Counts;
    assert id !in w.db.completions;
  }

  lemma ScanKeeps(w: World, id: nat, item: Item)
    requires InvAt(w, id)
    ensures InvAt(Apply(w, ScanItem(id, item)), id)
  {
    CR.ScanKeepsCounts(w.db, id, item);
    hide Counts, SumPrices, CR.Counted;
    var w' := Apply(w, ScanItem(id, item));
    if w' != w && id in w.db.completions {
      assert w.db.completions[id].state == Aborted;
      assert CompletionOk(w, id);
    }
  }

  lemma SweepKeeps(w: World, ids: set<nat>, id: nat)
    requires InvAt(w, id)
    ensures InvAt(Apply(w, SweepOpen(ids)), id)
  {
    hide Counts, SumPrices;
    var w' := Apply(w, SweepOpen(ids));
    if id in w.db.txs && w.db.txs[id].status == Open && id in ids {
      if id in w.db.completions {
        assert w.db.completions[id].state == Aborted;
        assert CompletionOk(w, id);
      }
    } else {
      UntouchedKeeps(w, w', id);
    }
  }

  // ---- joining a completion ----------------------------------------------------------------

  /** An OPEN transaction starts a fresh epoch: every earlier attempt is closed, nothing names the new one. */
  lemma StartKeeps(w: World, d: nat, id: nat)
    requires InvAt(w, id) && Enabled(w, BeginDriver(d, id))
    requires Begin(w.db, id, w.lease, w.clock).1.Started?
    ensures InvAt(Apply(w, BeginDriver(d, id)), id)
  {
    hide Counts, SumPrices;
    var w' := Apply(w, BeginDriver(d, id));
    var e := CR.EpochOf(w.db, id) + 1;
    assert (id, e) !in w.store.adj;
    if id in w.db.completions {
      assert CompletionOk(w, id) && w.db.completions[id].state == Aborted;
    }
    assert forall e' :: 1 <= e' < e ==> Closed(w'.store, id, e');
    assert CompletionOk(w', id);
    forall req: Request | Req(req) in w'.sent && req.tx == id ensures RequestOk(w', req) {
      if Req(req) in w.sent { assert RequestOk(w, req); } else { CountsNotNegative(w.db.txs[id].items); }
    }
    assert forall d' :: Live(w, d') ==> w.drivers[d'].tx != id || DriverOk(w, w.drivers[d']);
  }

  lemma CountsNotNegative(items: seq<Item>)
    ensures forall k :: k in Counts(items) ==> Counts(items)[k] >= 0
  {
  }

  /** A lapsed lease means every earlier driver of the row has run out of time. */
  lemma LapsedMeansNoDriver(w: World, id: nat)
    requires InvAt(w, id) && id in w.db.completions && w.db.completions[id].state != Compensating
    requires w.db.completions[id].updatedAt <= w.clock - w.lease
    ensures NoLiveDriver(w, id)
  {
    hide Counts, SumPrices, CompletionOk, RequestOk;
    var c := w.db.completions[id];
    assert forall d :: Live(w, d) ==> w.drivers[d].tx == id ==> DriverOk(w, w.drivers[d]);
    assert forall d :: Live(w, d) ==> w.drivers[d].tx == id ==> w.drivers[d].touched <= c.updatedAt;
  }

  /** One driver joins a completion nobody else is working on; its row moves in nothing but lease and attempts. */
  lemma JoinKeeps(w: World, w': World, d: nat, dr: Driver)
    requires InvAt(w, dr.tx) && d !in w.drivers && NoLiveDriver(w, dr.tx)
    requires w' == w.(db := w'.db, drivers := w.drivers[d := dr])
    requires dr.tx in w.db.completions && !Terminal(w.db.completions[dr.tx].state)
    requires w'.db.txs == w.db.txs
    requires dr.tx in w'.db.completions
    requires var c, c' := w.db.completions[dr.tx], w'.db.completions[dr.tx];
      c'.state == c.state && c'.epoch == c.epoch == dr.epoch && c'.total == c.total
      && (c.state != Compensating ==> dr.touched <= c'.updatedAt)
    requires dr.pc == AskReserve ==>
      && dr.lines == Counts(w.db.txs[dr.tx].items) && dr.total == w.db.completions[dr.tx].total
      && w.db.completions[dr.tx].state != Compensating
    requires dr.pc == MustFinalize ==>
      w.db.completions[dr.tx].state == Reserved && dr.total == w.db.completions[dr.tx].total
    requires dr.pc == AskReserve || dr.pc == MustFinalize || dr.pc == MustCompensate
    ensures InvAt(w', dr.tx)
  {
    hide Counts, SumPrices, CR.Counted;
    var id := dr.tx;
    assert CompletionOk(w, id) && CompletionOk(w', id);
    forall req: Request | Req(req) in w'.sent && req.tx == id ensures RequestOk(w', req) {
      assert RequestOk(w, req);
    }
    assert DriverOk(w', dr);
    forall d' | Live(w', d') && d' != d ensures w'.drivers[d'].tx != id {
      assert Live(w, d');
    }
  }

  lemma TakeOverKeeps(w: World, d: nat, id: nat)
    requires InvAt(w, id) && Enabled(w, BeginDriver(d, id))
    requires Begin(w.db, id, w.lease, w.clock).1.TookOver?
    ensures InvAt(Apply(w, BeginDriver(d, id)), id)
  {
    hide Counts, SumPrices, InvAt;
    var w' := Apply(w, BeginDriver(d, id));
    AgreedState(w, id);
    LapsedMeansNoDriver(w, id);
    JoinKeeps(w, w', d, w'.drivers[d]);
  }

  lemma AgreedState(w: World, id: nat)
    requires InvAt(w, id) && id in w.db.txs && w.db.txs[id].status == Completing
    ensures id in w.db.completions && !Terminal(w.db.completions[id].state)
  {
    hide Counts, SumPrices, CompletionOk;
  }

  lemma OweKeeps(w: World, d: nat, id: nat)
    requires InvAt(w, id) && Enabled(w, BeginDriver(d, id)) && Premised(w, BeginDriver(d, id))
    requires Begin(w.db, id, w.lease, w.clock).1.OwesRelease?
    ensures InvAt(Apply(w, BeginDriver(d, id)), id)
  {
    hide Counts, SumPrices, InvAt;
    var w' := Apply(w, BeginDriver(d, id));
    JoinKeeps(w, w', d, w'.drivers[d]);
  }

  lemma BeginKeeps(w: World, d: nat, id: nat)
    requires InvAt(w, id) && Enabled(w, BeginDriver(d, id)) && Premised(w, BeginDriver(d, id))
    ensures InvAt(Apply(w, BeginDriver(d, id)), id)
  {
    hide Counts, SumPrices, InvAt;
    match Begin(w.db, id, w.lease, w.clock).1
    case Started(_, _, _) => StartKeeps(w, d, id);
    case TookOver(_, _, _) => TakeOverKeeps(w, d, id);
    case OwesRelease(_) => OweKeeps(w, d, id);
    case _ =>
  }

  lemma ClaimKeeps(w: World, d: nat, id: nat)
    requires InvAt(w, id) && Enabled(w, ClaimDriver(d, id)) && Premised(w, ClaimDriver(d, id))
    ensures InvAt(Apply(w, ClaimDriver(d, id)), id)
  {
    hide Counts, SumPrices, InvAt;
    var w' := Apply(w, ClaimDriver(d, id));
    if w.db.completions[id].state != Compensating { LapsedMeansNoDriver(w, id); }
    JoinKeeps(w, w', d, w'.drivers[d]);
  }

  // ---- one driver's step -------------------------------------------------------------------

  /** A driver that only learns something, or leaves: the tables and the messages stay as they are. */
  lemma QuietKeeps(w: World, w': World, d: nat)
    requires d in w.drivers && InvAt(w, w.drivers[d].tx)
    requires w' == w.(drivers := w'.drivers) && w'.drivers.Keys <= w.drivers.Keys
    requires forall d' :: d' in w'.drivers && d' != d ==> w'.drivers[d'] == w.drivers[d']
    requires d in w'.drivers ==>
      && w'.drivers[d] == w.drivers[d].(pc := w'.drivers[d].pc)
      && w'.drivers[d].pc != AskReserve && w'.drivers[d].pc != AskRelease
      && (Live(w, d) ==> DriverOk(w, w'.drivers[d]))
    ensures InvAt(w', w.drivers[d].tx)
  {
    hide Counts, SumPrices, CR.Counted;
    var id := w.drivers[d].tx;
    assert forall d' :: Live(w', d') ==> Live(w, d');
    assert id in w.db.completions ==> CompletionOk(w', id);
    forall req: Request | Req(req) in w'.sent && req.tx == id ensures RequestOk(w', req) {
      assert RequestOk(w, req);
    }
  }

  lemma CrashKeeps(w: World, d: nat)
    requires d in w.drivers && InvAt(w, w.drivers[d].tx)
    ensures InvAt(Drop(w, d), w.drivers[d].tx)
  {
    hide InvAt, Counts, SumPrices;
    QuietKeeps(w, Drop(w, d), d);
  }

  lemma PublishKeeps(w: World, d: nat)
    requires Enabled(w, Publish(d)) && InvAt(w, w.drivers[d].tx)
    ensures Apply(w, Publish(d)) == w
  {
    hide Counts, SumPrices;
    assert Req(Ask(w.drivers[d])) in w.sent;
    assert w.sent + {Req(Ask(w.drivers[d]))} == w.sent;
  }

  lemma HearKeeps(w: World, d: nat, rep: Reply)
    requires Enabled(w, Hear(d, rep)) && InvAt(w, w.drivers[d].tx)
    ensures InvAt(Apply(w, Hear(d, rep)), w.drivers[d].tx)
  {
    hide Counts, SumPrices;
    var w', dr := Apply(w, Hear(d, rep)), w.drivers[d];
    assert ReplyOk(w.store, rep);
    if Live(w, d) {
      assert DriverOk(w, dr) && CompletionOk(w, dr.tx);
      assert DriverOk(w, w'.drivers[d]);
    }
    hide InvAt;
    QuietKeeps(w, w', d);
  }

  lemma GiveUpKeeps(w: World, d: nat)
    requires Enabled(w, GiveUp(d)) && InvAt(w, w.drivers[d].tx)
    ensures InvAt(Apply(w, GiveUp(d)), w.drivers[d].tx)
  {
    hide Counts, SumPrices;
    assert Live(w, d) ==> DriverOk(w, w.drivers[d]);
    hide InvAt;
    QuietKeeps(w, Apply(w, GiveUp(d)), d);
  }

  lemma FinalizeFailsKeeps(w: World, d: nat)
    requires Enabled(w, FinalizeFails(d)) && InvAt(w, w.drivers[d].tx)
    ensures InvAt(Apply(w, FinalizeFails(d)), w.drivers[d].tx)
  {
    hide Counts, SumPrices;
    assert Live(w, d) ==> DriverOk(w, w.drivers[d]);
    hide InvAt;
    QuietKeeps(w, Apply(w, FinalizeFails(d)), d);
  }

  /** A live driver is the only one: whatever else is in the table for its transaction has lapsed. */
  lemma OthersLapsed(w: World, d: nat)
    requires Live(w, d) && InvAt(w, w.drivers[d].tx)
    ensures forall d' :: Live(w, d') && d' != d ==> w.drivers[d'].tx != w.drivers[d].tx
  {
    hide CompletionOk, RequestOk, DriverOk;
  }

  lemma SetReservedKeeps(w: World, d: nat)
    requires Enabled(w, SetReserved(d)) && Live(w, d) && InvAt(w, w.drivers[d].tx)
    ensures InvAt(Apply(w, SetReserved(d)), w.drivers[d].tx)
  {
    hide Counts, SumPrices, CR.Counted;
    var w', id := Apply(w, SetReserved(d)), w.drivers[d].tx;
    OthersLapsed(w, d);
    assert DriverOk(w, w.drivers[d]) && CompletionOk(w, id);
    assert CompletionOk(w', id);
    forall req: Request | Req(req) in w'.sent && req.tx == id ensures RequestOk(w', req) {
      assert RequestOk(w, req);
    }
    assert DriverOk(w', w'.drivers[d]);
    assert forall d' :: Live(w', d') && d' != d ==> Live(w, d');
  }

  lemma FinalizeKeeps(w: World, d: nat)
    requires Enabled(w, FinalizeTx(d)) && Live(w, d) && InvAt(w, w.drivers[d].tx)
    ensures InvAt(Apply(w, FinalizeTx(d)), w.drivers[d].tx)
  {
    hide Counts, SumPrices;
    var w', id := Apply(w, FinalizeTx(d)), w.drivers[d].tx;
    OthersLapsed(w, d);
    assert DriverOk(w, w.drivers[d]) && CompletionOk(w, id);
    assert CompletionOk(w', id);
    forall req: Request | Req(req) in w'.sent && req.tx == id ensures RequestOk(w', req) {
      assert RequestOk(w, req);
    }
    assert forall d' :: Live(w', d') ==> Live(w, d') && d' != d;
  }

  lemma CompensateKeeps(w: World, d: nat)
    requires Enabled(w, Compensate(d)) && Live(w, d) && InvAt(w, w.drivers[d].tx)
    ensures InvAt(Apply(w, Compensate(d)), w.drivers[d].tx)
  {
    hide Counts, SumPrices, CR.Counted;
    var w', id := Apply(w, Compensate(d)), w.drivers[d].tx;
    OthersLapsed(w, d);
    assert DriverOk(w, w.drivers[d]) && CompletionOk(w, id);
    assert CompletionOk(w', id);
    forall req: Request | Req(req) in w'.sent && req.tx == id ensures RequestOk(w', req) {
      if Req(req) in w.sent { assert RequestOk(w, req); }
    }
    assert DriverOk(w', w'.drivers[d]);
    assert forall d' :: Live(w', d') && d' != d ==> Live(w, d');
  }

  lemma ReopenKeeps(w: World, d: nat)
    requires Enabled(w, Saga.ReopenTx(d)) && Live(w, d) && InvAt(w, w.drivers[d].tx)
    ensures InvAt(Apply(w, Saga.ReopenTx(d)), w.drivers[d].tx)
  {
    hide Counts, SumPrices;
    var w', id := Apply(w, Saga.ReopenTx(d)), w.drivers[d].tx;
    OthersLapsed(w, d);
    assert DriverOk(w, w.drivers[d]) && CompletionOk(w, id);
    assert CompletionOk(w', id);
    forall req: Request | Req(req) in w'.sent && req.tx == id ensures RequestOk(w', req) {
      assert RequestOk(w, req);
    }
    assert forall d' :: Live(w', d') ==> Live(w, d') && d' != d;
  }

  // ---- Inventory ---------------------------------------------------------------------------

  lemma ReserveKeeps(w: World, req: Request)
    requires InvAt(w, req.tx) && Enabled(w, HandleRequest(req)) && req.ReserveReq?
    ensures InvAt(Apply(w, HandleRequest(req)), req.tx)
  {
    hide Counts, SumPrices, CR.Counted, Covers, ShortSkus, Take, Crossing;
    var w', id := Apply(w, HandleRequest(req)), req.tx;
    assert RequestOk(w, req) && CompletionOk(w, id);
    HandleMessages(w, req);
    if req.Key() in w.store.adj {
      assert w'.store == w.store;
    } else {
      assert forall e :: e != req.epoch ==> Closed(w.store, id, e) == Closed(w'.store, id, e);
      assert req.epoch < w.db.completions[id].epoch ==> Closed(w.store, id, req.epoch);
    }
    assert CompletionOk(w', id);
    forall d | d in w'.drivers && w'.drivers[d].tx == id && Live(w', d) ensures DriverOk(w', w'.drivers[d]) {
      assert Live(w, d) && DriverOk(w, w.drivers[d]);
    }
  }

  lemma ReleaseKeeps(w: World, req: Request)
    requires InvAt(w, req.tx) && Enabled(w, HandleRequest(req)) && req.ReleaseReq?
    ensures InvAt(Apply(w, HandleRequest(req)), req.tx)
  {
    hide Counts, SumPrices, CR.Counted, Restore, NonNegative, UnitsOf;
    var w', id := Apply(w, HandleRequest(req)), req.tx;
    assert RequestOk(w, req) && CompletionOk(w, id);
    HandleMessages(w, req);
    assert forall e :: Closed(w.store, id, e) ==> Closed(w'.store, id, e);
    assert CompletionOk(w', id);
    forall d | d in w'.drivers && w'.drivers[d].tx == id && Live(w', d) ensures DriverOk(w', w'.drivers[d]) {
      assert Live(w, d) && DriverOk(w, w.drivers[d]);
    }
  }

  /** Messages already sent stay true of the records, and the new outcome is true of its own. */
  lemma HandleMessages(w: World, req: Request)
    requires InvAt(w, req.tx) && Enabled(w, HandleRequest(req))
    ensures MessagesOk(Apply(w, HandleRequest(req)), req.tx)
  {
    var w', id := Apply(w, HandleRequest(req)), req.tx;
    var outcome := Handle(w.store, req).1;
    if outcome.Some? { IR.ReplyStatesRecord(w.store, req); }
    hide Handle, Counts, SumPrices, CompletionOk, DriversOk;
    forall r: Request | Req(r) in w'.sent && r.tx == id ensures RequestOk(w', r) {
      assert RequestOk(w, r);
    }
    forall rep: Reply | Rep(rep) in w'.sent && rep.tx == id ensures ReplyOk(w'.store, rep) {
      if Rep(rep) in w.sent {
        assert ReplyOk(w.store, rep);
        IR.HandleAdvances(w.store, req, rep.Key());
      }
    }
  }

  // ---- all together ------------------------------------------------------------------------

  lemma DriverStepKeeps(w: World, l: Label)
    requires Inv(w) && Enabled(w, l) && Premised(w, l)
    requires l.Publish? || l.Hear? || l.GiveUp? || l.SetReserved? || l.FinalizeTx? || l.FinalizeFails?
          || l.Compensate? || l.ReopenTx? || l.Crash?
    ensures InvAt(Apply(w, l), w.drivers[l.d].tx)
  {
    hide InvAt, StoreOk;
    match l
    case Publish(d) => PublishKeeps(w, d);
    case Hear(d, rep) => HearKeeps(w, d, rep);
    case GiveUp(d) => GiveUpKeeps(w, d);
    case SetReserved(d) => SetReservedKeeps(w, d);
    case FinalizeTx(d) => FinalizeKeeps(w, d);
    case FinalizeFails(d) => FinalizeFailsKeeps(w, d);
    case Compensate(d) => CompensateKeeps(w, d);
    case ReopenTx(d) => ReopenKeeps(w, d);
    case Crash(d) => CrashKeeps(w, d);
  }

  lemma TargetKeeps(w: World, l: Label, id: nat)
    requires Inv(w) && Enabled(w, l) && Premised(w, l) && Target(w, l) == Some(id)
    ensures InvAt(Apply(w, l), id)
  {
    hide InvAt, StoreOk;
    match l
    case NewTx(_) => NewTxKeeps(w, id);
    case ScanItem(_, item) => ScanKeeps(w, id, item);
    case BeginDriver(d, _) => BeginKeeps(w, d, id);
    case ClaimDriver(d, _) => ClaimKeeps(w, d, id);
    case HandleRequest(req) => if req.ReserveReq? { ReserveKeeps(w, req); } else { ReleaseKeeps(w, req); }
    case _ => DriverStepKeeps(w, l);
  }

  lemma StoreKept(w: World, l: Label)
    requires Inv(w) && Enabled(w, l)
    ensures StoreOk(Apply(w, l).store)
  {
    if l.HandleRequest? {
      assert RequestOk(w, l.req) by { assert InvAt(w, l.req.tx); }
      hide InvAt;
      IR.HandleKeepsBalance(w.store, l.req);
      IR.HandleSettles(w.store, l.req);
    }
  }

  lemma StepKeeps(w: World, l: Label)
    requires Inv(w) && Enabled(w, l) && Premised(w, l)
    ensures Inv(Apply(w, l))
  {
    StoreKept(w, l);
    hide InvAt, Untouched, StoreOk, Apply, Premised;
    forall id: nat ensures InvAt(Apply(w, l), id) {
      if l.SweepOpen? {
        SweepKeeps(w, l.ids, id);
      } else if Target(w, l) == Some(id) {
        TargetKeeps(w, l, id);
      } else {
        OthersUntouched(w, l, id);
        UntouchedKeeps(w, Apply(w, l), id);
      }
    }
  }

  lemma {:induction false} RunKeeps(w: World, labels: seq<Label>, w': World)
    requires Inv(w) && Runs(w, labels, w')
    ensures Inv(w')
    decreases |labels|
  {
    hide InvAt, StoreOk, Apply, Enabled, Premised;
    if labels != [] {
      StepKeeps(w, labels[0]);
      RunKeeps(Apply(w, labels[0]), labels[1..], w');
    }
  }

  lemma InitialInv(w: World)
    requires Initial(w)
    ensures Inv(w)
  {
    IR.StockIsConserved(w.store, []);
  }

  lemma ReachableInv(w: World)
    requires Reachable(w)
    ensures Inv(w)
  {
    hide Initial, Runs;
    var w0, labels :| Initial(w0) && Runs(w0, labels, w);
    InitialInv(w0);
    RunKeeps(w0, labels, w);
  }
}
