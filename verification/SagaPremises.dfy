/** Why the premises are needed: runs of the code's own steps, without them, that break agreement. */
module SagaPremises {
  import opened Collections
  import opened Baskets
  import opened Inventory
  import opened Checkout
  import opened Saga
  import opened SagaInvariant
  import opened SagaSteps
  import opened SagaTheorems
  import opened RecoveryPass
  import opened Drain
  import CR = CheckoutRuns
  import IR = InventoryRuns

  /** Runs that respect the code's guards but not the premises. */
  ghost predicate CodeRuns(w: World, labels: seq<Label>, w': World)
    decreases |labels|
  {
    if labels == [] then w' == w else Enabled(w, labels[0]) && CodeRuns(Apply(w, labels[0]), labels[1..], w')
  }

  ghost predicate CodeReachable(w: World)
  {
    exists w0, labels :: Initial(w0) && CodeRuns(w0, labels, w)
  }

  lemma {:induction false} CodeSnoc(w: World, labels: seq<Label>, w1: World, l: Label)
    requires CodeRuns(w, labels, w1) && Enabled(w1, l)
    ensures CodeRuns(w, labels + [l], Apply(w1, l))
    decreases |labels|
  {
    hide Enabled, Apply;
    if labels == [] {
      assert ([l])[1..] == [] && labels + [l] == [l];
      assert CodeRuns(Apply(w, l), [], Apply(w1, l));
    } else {
      assert (labels + [l])[1..] == labels[1..] + [l];
      CodeSnoc(Apply(w, labels[0]), labels[1..], w1, l);
    }
  }

  lemma Then(w: World, l: Label)
    requires CodeReachable(w) && Enabled(w, l)
    ensures CodeReachable(Apply(w, l))
  {
    hide Enabled, Apply, CodeRuns;
    var w0, labels :| Initial(w0) && CodeRuns(w0, labels, w);
    CodeSnoc(w0, labels, w, l);
  }

  // ---- two drivers on one COMPENSATING row -------------------------------------------------

  const APPLE: Item := Item("A", 5)
  const ONE_APPLE: Lines := map["A" := 1]

  ghost predicate Shop(w: World, status: Status, c: Completion, adj: map<Key, Adjustment>, left: int)
  {
    && CodeReachable(w) && w.clock == 0 && w.lease == 10
    && w.db == Db(map[1 := Tx(status, 1, 5, None, [APPLE])], map[1 := c])
    && w.store == Shelf(adj, left)
  }

  lemma CountOneApple()
    ensures Counts([APPLE]) == ONE_APPLE && SumPrices([APPLE]) == 5
  {
    var items := [APPLE];
    assert items[..|items| - 1] == [];
    assert Units(items, "A") == 1;
    assert Counts(items).Keys == {"A"} by { assert items[0].sku in Counts(items); }
  }

  ghost function Shelf(adj: map<Key, Adjustment>, left: int): Store
  {
    Store(map["A" := 1], map["A" := left], adj, multiset{}, 0)
  }

  lemma TakeApple(adj: map<Key, Adjustment>, e: nat)
    requires (1, e) !in adj
    ensures Reserve(Shelf(adj, 1), 1, e, ONE_APPLE)
      == (Shelf(adj[(1, e) := Applied(ONE_APPLE)], 0), ReservedReply(1, e, false))
  {
    var stock := map["A" := 1];
    assert "A" in ONE_APPLE && Covers(stock, ONE_APPLE);
    assert Take(stock, ONE_APPLE) == map["A" := 0];
    assert Crossing(stock, ONE_APPLE, 0) == {};
    assert multiset{} + multiset(Crossing(stock, ONE_APPLE, 0)) == multiset{};
  }

  lemma ReturnApple(adj: map<Key, Adjustment>, e: nat)
    requires (1, e) in adj && adj[(1, e)] == Applied(ONE_APPLE)
    ensures exists units ::
      Release(Shelf(adj, 0), 1, e) == (Shelf(adj[(1, e) := Released], 1), Some(ReleasedReply(1, e, units, false)))
  {
    assert Restore(map["A" := 0], ONE_APPLE) == map["A" := 1];
    assert Release(Shelf(adj, 0), 1, e).1 == Some(ReleasedReply(1, e, UnitsOf(ONE_APPLE), false));
  }

  lemma AppleScanned() returns (w: World)
    ensures CodeReachable(w)
    ensures w == World(Db(map[1 := Tx(Open, 1, 5, None, [APPLE])], map[]), Shelf(map[], 1), {}, map[], 0, 10)
  {
    var w0 := World(Db(map[], map[]), Shelf(map[], 1), {}, map[], 0, 10);
    assert CodeRuns(w0, [], w0);
    assert CodeReachable(w0);
    hide CodeReachable, CodeRuns;
    Then(w0, NewTx(1));
    var w1 := Apply(w0, NewTx(1));
    Then(w1, Saga.ScanItem(1, APPLE));
    assert [] + [APPLE] == [APPLE];
    w := Apply(w1, Saga.ScanItem(1, APPLE));
    assert w.db.txs == map[1 := Tx(Open, 1, 5, None, [APPLE])];
  }

  lemma FirstDriverBegins() returns (w: World)
    ensures Shop(w, Completing, Completion(1, Reserving, 5, 0, 0), map[], 1)
    ensures w.drivers == map[1 := Driver(1, 1, ONE_APPLE, 5, AskReserve, false, 0)]
    ensures w.sent == {Req(ReserveReq(1, 1, ONE_APPLE))}
  {
    CountOneApple();
    hide Counts, SumPrices;
    var w2 := AppleScanned();
    hide CodeReachable;
    assert Begin(w2.db, 1, 10, 0).1 == Started(1, ONE_APPLE, 5);
    Then(w2, BeginDriver(1, 1));
    w := Apply(w2, BeginDriver(1, 1));
  }

  /** The first driver's request timed out after stock was taken; it recorded COMPENSATING and waits. */
  lemma FirstDriverCompensates() returns (w: World)
    ensures Shop(w, Completing, Completion(1, Compensating, 5, 0, 0), map[(1, 1) := Applied(ONE_APPLE)], 0)
    ensures w.drivers == map[1 := Driver(1, 1, ONE_APPLE, 5, AskRelease, false, 0)]
    ensures Req(ReleaseReq(1, 1)) in w.sent
  {
    var w3 := FirstDriverBegins();
    hide CodeReachable;
    var ask := HandleRequest(ReserveReq(1, 1, ONE_APPLE));
    TakeApple(w3.store.adj, 1);
    hide Reserve;
    Then(w3, ask);
    var w4 := Apply(w3, ask);
    Then(w4, GiveUp(1));
    var w5 := Apply(w4, GiveUp(1));
    Then(w5, Compensate(1));
    w := Apply(w5, Compensate(1));
  }

  /** A retry joins the COMPENSATING row while the first driver still waits for the release. */
  lemma SecondDriverJoins() returns (w: World)
    ensures Shop(w, Completing, Completion(1, Compensating, 5, 0, 0), map[(1, 1) := Applied(ONE_APPLE)], 0)
    ensures w.drivers == map[1 := Driver(1, 1, ONE_APPLE, 5, AskRelease, false, 0),
                             2 := Driver(1, 1, map[], 0, MustCompensate, false, 0)]
    ensures Req(ReleaseReq(1, 1)) in w.sent
  {
    var w0 := FirstDriverCompensates();
    hide CodeReachable, Counts, SumPrices;
    assert Begin(w0.db, 1, 10, 0).1 == OwesRelease(1);
    Then(w0, BeginDriver(2, 1));
    w := Apply(w0, BeginDriver(2, 1));
  }

  lemma ReleaseHandled() returns (w: World, units: int)
    ensures Shop(w, Completing, Completion(1, Compensating, 5, 0, 0), map[(1, 1) := Released], 1)
    ensures w.drivers == map[1 := Driver(1, 1, ONE_APPLE, 5, AskRelease, false, 0),
                             2 := Driver(1, 1, map[], 0, MustCompensate, false, 0)]
    ensures Req(ReleaseReq(1, 1)) in w.sent && Rep(ReleasedReply(1, 1, units, false)) in w.sent
  {
    var w1 := SecondDriverJoins();
    hide CodeReachable;
    ReturnApple(w1.store.adj, 1);
    hide Release;
    units :| Release(w1.store, 1, 1)
      == (Shelf(w1.store.adj[(1, 1) := Released], 1), Some(ReleasedReply(1, 1, units, false)));
    Then(w1, HandleRequest(ReleaseReq(1, 1)));
    w := Apply(w1, HandleRequest(ReleaseReq(1, 1)));
    assert w1.store.adj[(1, 1) := Released] == map[(1, 1) := Released];
  }

  /** The first driver hears of the release and reopens; the second has still to write. */
  lemma FirstDriverReopens() returns (w: World)
    ensures Shop(w, Open, Completion(1, Aborted, 5, 0, 0), map[(1, 1) := Released], 1)
    ensures w.drivers == map[2 := Driver(1, 1, map[], 0, MustCompensate, false, 0)]
    ensures Req(ReleaseReq(1, 1)) in w.sent
  {
    var w2, units := ReleaseHandled();
    hide CodeReachable;
    var hear := Hear(1, ReleasedReply(1, 1, units, false));
    Then(w2, hear);
    var w3 := Apply(w2, hear);
    Then(w3, Saga.ReopenTx(1));
    w := Apply(w3, Saga.ReopenTx(1));
  }

  /** The shopper completes again: a new epoch, and its stock is taken. */
  lemma NextEpochApplies() returns (w: World)
    ensures Shop(w, Completing, Completion(2, Reserving, 5, 0, 0),
                 map[(1, 1) := Released, (1, 2) := Applied(ONE_APPLE)], 0)
    ensures 2 in w.drivers && w.drivers[2] == Driver(1, 1, map[], 0, MustCompensate, false, 0)
    ensures Req(ReleaseReq(1, 1)) in w.sent
  {
    CountOneApple();
    var w0 := FirstDriverReopens();
    hide CodeReachable, Counts, SumPrices;
    assert Begin(w0.db, 1, 10, 0).1 == Started(2, ONE_APPLE, 5);
    Then(w0, BeginDriver(3, 1));
    var w1 := Apply(w0, BeginDriver(3, 1));
    var ask := HandleRequest(ReserveReq(1, 2, ONE_APPLE));
    TakeApple(w1.store.adj, 2);
    hide Reserve;
    Then(w1, ask);
    w := Apply(w1, ask);
  }

  /** A second driver on a COMPENSATING row breaks agreement: it finishes the old attempt's rollback on the new
      attempt's record, because state is keyed by transaction. The basket is OPEN and its stock is gone. */
  lemma SecondDriverLosesStock() returns (w: World)
    ensures CodeReachable(w) && 1 in w.db.txs && w.db.txs[1].status == Open
    ensures AppliedAt(w.store, 1, 2) && !StoresAgree(w, 1)
  {
    var w0 := NextEpochApplies();
    hide CodeReachable;
    var w1 := Apply(w0, Compensate(2));
    Then(w0, Compensate(2));
    var w2 := Apply(w1, HandleRequest(ReleaseReq(1, 1)));
    Then(w1, HandleRequest(ReleaseReq(1, 1)));
    var rep := ReleasedReply(1, 1, 0, true);
    var w3 := Apply(w2, Hear(2, rep));
    Then(w2, Hear(2, rep));
    w := Apply(w3, Saga.ReopenTx(2));
    Then(w3, Saga.ReopenTx(2));
    assert AppliedAt(w.store, 1, 2);
  }

  // ---- a driver that outlives its lease ----------------------------------------------------

  /** One more step within the premises. */
  lemma OneMore(w: World, l: Label)
    requires Reachable(w) && Enabled(w, l) && Premised(w, l)
    ensures Reachable(Apply(w, l))
  {
    hide Enabled, Premised, Apply, Runs, Initial;
    var w0, labels :| Initial(w0) && Runs(w0, labels, w);
    assert Steps(w0, w);
    StepsThen(w0, w, l);
    var more :| Runs(w0, more, Apply(w, l));
  }

  ghost predicate Sold(w: World, status: Status, c: Completion, adj: map<Key, Adjustment>, left: int)
  {
    && Reachable(w) && w.lease == 10
    && w.db == Db(map[1 := Tx(status, 1, 5, None, [APPLE])], map[1 := c])
    && w.store == Shelf(adj, left)
  }

  lemma OneAppleScanned() returns (w: World)
    ensures Reachable(w)
    ensures w == World(Db(map[1 := Tx(Open, 1, 5, None, [APPLE])], map[]), Shelf(map[], 1), {}, map[], 0, 10)
  {
    var w0 := World(Db(map[], map[]), Shelf(map[], 1), {}, map[], 0, 10);
    assert Runs(w0, [], w0);
    assert Reachable(w0);
    hide Reachable, Runs;
    OneMore(w0, NewTx(1));
    var w1 := Apply(w0, NewTx(1));
    OneMore(w1, Saga.ScanItem(1, APPLE));
    assert [] + [APPLE] == [APPLE];
    w := Apply(w1, Saga.ScanItem(1, APPLE));
    assert w.db.txs == map[1 := Tx(Open, 1, 5, None, [APPLE])];
  }

  /** Stock is taken and the first driver has been told so, but has not yet recorded it. */
  lemma FirstDriverHears() returns (w: World)
    ensures Sold(w, Completing, Completion(1, Reserving, 5, 0, 0), map[(1, 1) := Applied(ONE_APPLE)], 0)
    ensures w.clock == 0 && w.drivers == map[1 := Driver(1, 1, ONE_APPLE, 5, GotReserved, false, 0)]
  {
    CountOneApple();
    hide Counts, SumPrices;
    var w2 := OneAppleScanned();
    hide Reachable;
    assert Begin(w2.db, 1, 10, 0).1 == Started(1, ONE_APPLE, 5);
    OneMore(w2, BeginDriver(1, 1));
    w := TakeAndHear(Apply(w2, BeginDriver(1, 1)));
  }

  lemma TakeAndHear(w3: World) returns (w: World)
    requires Sold(w3, Completing, Completion(1, Reserving, 5, 0, 0), map[], 1) && w3.clock == 0
    requires w3.drivers == map[1 := Driver(1, 1, ONE_APPLE, 5, AskReserve, false, 0)]
    requires Req(ReserveReq(1, 1, ONE_APPLE)) in w3.sent
    ensures Sold(w, Completing, Completion(1, Reserving, 5, 0, 0), map[(1, 1) := Applied(ONE_APPLE)], 0)
    ensures w.clock == 0 && w.drivers == map[1 := Driver(1, 1, ONE_APPLE, 5, GotReserved, false, 0)]
  {
    hide Reachable, Counts, SumPrices;
    TakeApple(w3.store.adj, 1);
    hide Reserve;
    var ask := HandleRequest(ReserveReq(1, 1, ONE_APPLE));
    OneMore(w3, ask);
    var w4 := Apply(w3, ask);
    var hear := Hear(1, ReservedReply(1, 1, false));
    OneMore(w4, hear);
    w := Apply(w4, hear);
  }

  /** The first driver's lease lapses, and recovery rolls its attempt back. */
  lemma RolledBackMeanwhile() returns (w: World)
    ensures Sold(w, Open, Completion(1, Aborted, 5, 1, 11), map[(1, 1) := Released], 1)
    ensures w.clock == 11 && w.drivers == map[1 := Driver(1, 1, ONE_APPLE, 5, GotReserved, false, 0)]
  {
    var w0 := FirstDriverHears();
    hide Reachable, Counts, SumPrices;
    OneMore(w0, Tick(11));
    var w1 := Apply(w0, Tick(11));
    OneMore(w1, ClaimDriver(2, 1));
    var w2 := Apply(w1, ClaimDriver(2, 1));
    OneMore(w2, Compensate(2));
    var w3 := Apply(w2, Compensate(2));
    w := ReleaseAndReopen(w3);
  }

  lemma ReleaseAndReopen(w3: World) returns (w: World)
    requires Sold(w3, Completing, Completion(1, Compensating, 5, 1, 11), map[(1, 1) := Applied(ONE_APPLE)], 0)
    requires w3.clock == 11
    requires w3.drivers == map[1 := Driver(1, 1, ONE_APPLE, 5, GotReserved, false, 0),
                               2 := Driver(1, 1, map[], 5, AskRelease, true, 11)]
    requires Req(ReleaseReq(1, 1)) in w3.sent
    ensures Sold(w, Open, Completion(1, Aborted, 5, 1, 11), map[(1, 1) := Released], 1)
    ensures w.clock == 11 && w.drivers == map[1 := Driver(1, 1, ONE_APPLE, 5, GotReserved, false, 0)]
  {
    hide Reachable, Counts, SumPrices;
    var w4, units := ReleasedByRecovery(w3);
    var hear := Hear(2, ReleasedReply(1, 1, units, false));
    OneMore(w4, hear);
    var w5 := Apply(w4, hear);
    OneMore(w5, Saga.ReopenTx(2));
    w := Apply(w5, Saga.ReopenTx(2));
  }

  lemma ReleasedByRecovery(w3: World) returns (w: World, units: int)
    requires Sold(w3, Completing, Completion(1, Compensating, 5, 1, 11), map[(1, 1) := Applied(ONE_APPLE)], 0)
    requires Req(ReleaseReq(1, 1)) in w3.sent
    ensures Sold(w, Completing, Completion(1, Compensating, 5, 1, 11), map[(1, 1) := Released], 1)
    ensures w.clock == w3.clock && w.drivers == w3.drivers && Rep(ReleasedReply(1, 1, units, false)) in w.sent
  {
    hide Reachable, Counts, SumPrices;
    ReturnApple(w3.store.adj, 1);
    hide Release;
    units :| Release(w3.store, 1, 1)
      == (Shelf(w3.store.adj[(1, 1) := Released], 1), Some(ReleasedReply(1, 1, units, false)));
    OneMore(w3, HandleRequest(ReleaseReq(1, 1)));
    w := Apply(w3, HandleRequest(ReleaseReq(1, 1)));
    assert w3.store.adj[(1, 1) := Released] == map[(1, 1) := Released];
  }

  /** A driver past its lease breaks agreement, every other step within the premises: it records RESERVED and finalizes
      on the next attempt's record, whose stock nobody has taken. The basket is COMPLETED and holds nothing. */
  lemma LateDriverSellsUnreserved() returns (w: World, w': World)
    ensures Reachable(w) && 1 in w.drivers && !Live(w, 1)
    ensures Enabled(w, SetReserved(1)) && Enabled(Apply(w, SetReserved(1)), FinalizeTx(1))
    ensures w' == Apply(Apply(w, SetReserved(1)), FinalizeTx(1))
    ensures 1 in w'.db.txs && w'.db.txs[1].status == Completed && !StoresAgree(w', 1)
  {
    CountOneApple();
    var w0 := RolledBackMeanwhile();
    hide Reachable, Counts, SumPrices;
    assert Begin(w0.db, 1, 10, 11).1 == Started(2, ONE_APPLE, 5);
    OneMore(w0, BeginDriver(3, 1));
    w := Apply(w0, BeginDriver(3, 1));
    w' := Apply(Apply(w, SetReserved(1)), FinalizeTx(1));
    assert CR.EpochOf(w'.db, 1) == 2;
    assert (1, 2) !in w'.store.adj;
  }

  // ---- a finalize that raised but committed ------------------------------------------------

  /** A driver within its lease, about to finalize, is a reachable thing. */
  lemma DriverAboutToFinalize() returns (w: World)
    ensures Reachable(w) && Live(w, 1) && w.drivers[1].pc == MustFinalize && !w.drivers[1].recovering
    ensures w.drivers[1].tx in w.db.txs
  {
    var w0 := FirstDriverHears();
    hide Reachable;
    OneMore(w0, SetReserved(1));
    w := Apply(w0, SetReserved(1));
  }

  /** A finalize whose call raised: either nothing happened, as the saga assumes, or it had committed. Either way the
      driver goes on to compensate. */
  ghost function FinalizeRaised(w: World, d: nat, committed: bool): World
    requires d in w.drivers
  {
    var dr := w.drivers[d];
    GoTo(if committed then w.(db := Finalize(w.db, dr.tx, dr.total, w.clock).0) else w, d, MustCompensate)
  }

  /** The rollback that follows, undisturbed, by the code's own steps. */
  lemma RollsBack(w: World, d: nat) returns (w': World)
    requires Live(w, d) && w.drivers[d].pc == MustCompensate && NonNegative(w.store.stock)
    requires IR.HoldsNothingNegative(w.store)
    requires w.lease > 0
    ensures var dr := w.drivers[d];
      && Steps(w, w') && w'.store == Release(w.store, dr.tx, dr.epoch).0
      && w'.db == Reopen(SetState(w.db, dr.tx, Compensating, w.clock), dr.tx, w.clock)
  {
    var dr := w.drivers[d];
    var req := ReleaseReq(dr.tx, dr.epoch);
    IR.HandleSettles(w.store, req);
    IR.HandleIsLocal(w.store, req);
    var rep := Release(w.store, dr.tx, dr.epoch).1.value;
    hide Runs, Release;
    StepsNone(w);
    StepsThen(w, w, Compensate(d));
    var w1 := Apply(w, Compensate(d));
    StepsThen(w, w1, HandleRequest(req));
    var w2 := Apply(w1, HandleRequest(req));
    StepsThen(w, w2, Hear(d, rep));
    var w3 := Apply(w2, Hear(d, rep));
    StepsThen(w, w3, Saga.ReopenTx(d));
    w' := Apply(w3, Saga.ReopenTx(d));
  }

  /** What such a driver finds. */
  lemma FinalizerFinds(w: World, d: nat)
    requires Reachable(w) && Live(w, d) && w.drivers[d].pc == MustFinalize
    ensures var dr := w.drivers[d];
      && dr.tx in w.db.txs && dr.tx in w.db.completions && w.db.txs[dr.tx].status == Completing
      && !Terminal(w.db.completions[dr.tx].state) && w.db.completions[dr.tx].epoch == dr.epoch
      && (dr.tx, dr.epoch) in w.store.adj && w.store.adj[(dr.tx, dr.epoch)].Applied?
    ensures NonNegative(w.store.stock) && IR.HoldsNothingNegative(w.store)
  {
    ReachableInv(w);
    assert InvAt(w, w.drivers[d].tx) && DriverOk(w, w.drivers[d]) && CompletionOk(w, w.drivers[d].tx);
    hide Reachable, Counts, SumPrices;
  }

  /** From every reachable state with a live driver at its finalize: after a finalize that raised and the rollback that
      follows, the stores agree about the transaction if and only if the finalize had not committed. If it had, a
      COMPLETED transaction ends holding nothing. */
  lemma InDoubtFinalizeLosesStock(w: World, d: nat, committed: bool) returns (w': World)
    requires Reachable(w) && Live(w, d) && w.drivers[d].pc == MustFinalize && !w.drivers[d].recovering && w.lease > 0
    ensures var dr, raised := w.drivers[d], FinalizeRaised(w, d, committed);
      && Steps(raised, w') && dr.tx in w'.db.txs
      && w'.store == Release(w.store, dr.tx, dr.epoch).0
      && w'.db == Reopen(SetState(raised.db, dr.tx, Compensating, w.clock), dr.tx, w.clock)
    ensures StoresAgree(w', w.drivers[d].tx) <==> !committed
    ensures committed ==>
      w'.db.txs[w.drivers[d].tx].status == Completed && Closed(w'.store, w.drivers[d].tx, w.drivers[d].epoch)
  {
    var dr := w.drivers[d];
    FinalizerFinds(w, d);
    hide Reachable, Counts, SumPrices, Steps, Release, Runs, Live;
    var raised := FinalizeRaised(w, d, committed);
    assert Live(raised, d) by { LiveStill(w, raised, d); }
    w' := RollsBack(raised, d);
    if committed {
      IR.HandleSettles(w.store, ReleaseReq(dr.tx, dr.epoch));
      ReleaseCloses(w.store, dr.tx, dr.epoch);
      assert CR.EpochOf(w'.db, dr.tx) == dr.epoch;
    } else {
      assert raised == Apply(w, FinalizeFails(d));
      OneMore(w, FinalizeFails(d));
      ManyMore(raised, w');
      hide StoresAgree;
      CrossStoreSafety(w', dr.tx);
    }
  }

  lemma LiveStill(w: World, w': World, d: nat)
    requires Live(w, d) && w'.clock == w.clock && w'.lease == w.lease && d in w'.drivers
    requires w'.drivers[d].touched == w.drivers[d].touched
    ensures Live(w', d)
  {
  }

  lemma ManyMore(w: World, w': World)
    requires Reachable(w) && Steps(w, w')
    ensures Reachable(w')
  {
    hide Runs, Initial;
    var w0, a :| Initial(w0) && Runs(w0, a, w);
    var b :| Runs(w, b, w');
    RunsConcat(w0, a, w, b, w');
  }
}
