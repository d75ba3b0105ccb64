/** One recovery pass, whatever becomes of each row it claims, is a run of the saga. */
module RecoveryPass {
  import opened Collections
  import opened Baskets
  import opened Inventory
  import opened Checkout
  import opened Recovery
  import opened Saga
  import opened SagaInvariant
  import opened SagaSteps
  import IR = InventoryRuns
  import CR = CheckoutRuns

  ghost predicate Steps(w: World, w': World)
  {
    exists labels :: Runs(w, labels, w')
  }

  lemma StepsNone(w: World)
    ensures Steps(w, w)
  {
    assert Runs(w, [], w);
  }

  lemma StepsThen(w: World, w1: World, l: Label)
    requires Steps(w, w1) && Enabled(w1, l) && Premised(w1, l)
    ensures Steps(w, Apply(w1, l))
  {
    hide Enabled, Premised, Apply;
    var labels :| Runs(w, labels, w1);
    var w2 := Apply(w1, l);
    assert ([l])[1..] == [];
    assert Runs(w2, [], w2);
    assert Runs(w1, [l], w2);
    RunsConcat(w, labels, w1, [l], w2);
  }

  lemma StepsTogether(w: World, w1: World, w2: World)
    requires Steps(w, w1) && Steps(w1, w2)
    ensures Steps(w, w2)
  {
    hide Runs;
    var a :| Runs(w, a, w1);
    var b :| Runs(w1, b, w2);
    RunsConcat(w, a, w1, b, w2);
  }

  ghost function Unfinished(db: Db): set<nat>
  {
    set id | id in db.completions && !Terminal(db.completions[id].state)
  }

  /** One more step of a run, with its invariant. */
  lemma Advance(w: World, w1: World, l: Label)
    requires Steps(w, w1) && Inv(w1) && Enabled(w1, l) && Premised(w1, l)
    ensures Steps(w, Apply(w1, l)) && Inv(Apply(w1, l))
  {
    hide *;
    StepsThen(w, w1, l);
    StepKeeps(w1, l);
  }

  // ---- claiming ----------------------------------------------------------------------------

  ghost function DriverFor(db: Db, id: nat, now: int): Driver
    requires id in db.completions
  {
    var c := db.completions[id];
    Driver(id, c.epoch, map[], c.total, if c.state == Reserved then MustFinalize else MustCompensate, true, now)
  }

  ghost predicate Claimed(w: World, claimed: seq<nat>, base: nat, w': World)
  {
    && (forall i :: 0 <= i < |claimed| ==> claimed[i] in w.db.completions)
    && w' == w.(db := Claim(w.db, claimed, w.clock), drivers := w'.drivers)
    && (forall d :: d in w'.drivers <==> d in w.drivers || base <= d < base + |claimed|)
    && (forall d :: d in w.drivers ==> w'.drivers[d] == w.drivers[d])
    && (forall i :: 0 <= i < |claimed| ==> w'.drivers[base + i] == DriverFor(w.db, claimed[i], w.clock))
  }

  /** The rows are lapsed, and no driver still works on any. For a row that is not COMPENSATING the lease says so. */
  ghost predicate CanClaim(w: World, claimed: seq<nat>, base: nat)
  {
    && w.lease > 0
    && (forall d :: d in w.drivers ==> d < base)
    && (forall i, j :: 0 <= i < j < |claimed| ==> claimed[i] != claimed[j])
    && (forall i :: 0 <= i < |claimed| ==> Stuck(w.db, claimed[i], w.lease, w.clock) && NoLiveDriver(w, claimed[i]))
  }

  lemma {:induction false} ClaimLeavesOthers(db: Db, ids: seq<nat>, now: int, id: nat)
    requires id !in ids && id in db.completions
    ensures id in Claim(db, ids, now).completions && Claim(db, ids, now).completions[id] == db.completions[id]
  {
    if ids != [] { ClaimLeavesOthers(db, ids[..|ids| - 1], now, id); }
  }

  lemma NextClaimAllowed(w: World, claimed: seq<nat>, base: nat, w1: World)
    requires claimed != [] && CanClaim(w, claimed, base) && Claimed(w, claimed[..|claimed| - 1], base, w1)
    ensures var n := |claimed| - 1; var l := ClaimDriver(base + n, claimed[n]);
      Enabled(w1, l) && NoLiveDriver(w1, l.id) && w1.db.completions[l.id] == w.db.completions[l.id]
  {
    var n := |claimed| - 1;
    var front, id := claimed[..n], claimed[n];
    ClaimLeavesOthers(w.db, front, w.clock, id);
    forall d: nat | Live(w1, d) ensures w1.drivers[d].tx != id {
      if d in w.drivers {
        assert Live(w, d) && NoLiveDriver(w, claimed[n]);
      } else {
        assert w1.drivers[d] == DriverFor(w.db, claimed[d - base], w.clock);
      }
    }
  }

  lemma NextClaim(w: World, claimed: seq<nat>, base: nat, w1: World)
    requires claimed != [] && CanClaim(w, claimed, base) && Claimed(w, claimed[..|claimed| - 1], base, w1)
    ensures var n := |claimed| - 1; var l := ClaimDriver(base + n, claimed[n]);
      Enabled(w1, l) && Premised(w1, l) && Claimed(w, claimed, base, Apply(w1, l))
  {
    var n := |claimed| - 1;
    NextClaimAllowed(w, claimed, base, w1);
    hide Live, NoLiveDriver;
    var w' := Apply(w1, ClaimDriver(base + n, claimed[n]));
    assert w'.drivers[base + n] == DriverFor(w.db, claimed[n], w.clock);
  }

  lemma {:induction false} ClaimPass(w: World, claimed: seq<nat>, base: nat) returns (w': World)
    requires Inv(w) && CanClaim(w, claimed, base)
    ensures Steps(w, w') && Inv(w') && Claimed(w, claimed, base, w')
  {
    hide Inv, Runs, Stuck;
    if claimed == [] {
      StepsNone(w);
      return w;
    }
    var n := |claimed| - 1;
    var w1 := ClaimPass(w, claimed[..n], base);
    hide Claimed, CanClaim, Enabled, Premised, Apply;
    var l := ClaimDriver(base + n, claimed[n]);
    NextClaim(w, claimed, base, w1);
    Advance(w, w1, l);
    w' := Apply(w1, l);
  }

  // ---- driving one row ---------------------------------------------------------------------

  ghost function RowFor(dr: Driver): ClaimedRow
  {
    ClaimedRow(dr.tx, dr.epoch, if dr.pc == MustFinalize then Reserved else Reserving, dr.total)
  }

  /** Driving a row depends on its state only through "RESERVED or not". */
  lemma RowStateMatters(db: Db, store: Store, row: ClaimedRow, row': ClaimedRow, fate: Fate, now: int)
    requires row' == row.(state := row'.state) && (row.state == Reserved <==> row'.state == Reserved)
    ensures DriveRow(db, store, row, fate, now) == DriveRow(db, store, row', fate, now)
  {
  }

  /** What becomes of a row: `forward` when it was RESERVED. Nothing if its first statement raised. Forward it
      completes, what it holds untouched. Back it reopens only if the release was confirmed, and then holds nothing;
      otherwise it stays COMPENSATING, and holds nothing if the request was handled. */
  ghost predicate RowLeft(w: World, w': World, id: nat, forward: bool, fate: Fate)
  {
    && id in w.db.txs && id in w.db.completions && id in w'.db.txs && id in w'.db.completions
    && var t, t', c, c' := w.db.txs[id], w'.db.txs[id], w.db.completions[id], w'.db.completions[id];
      && c'.epoch == c.epoch && t'.items == t.items
      && match fate
         case Raised => t' == t && c' == c && SameRecords(w, w', id)
         case Asked(ask) =>
           if forward then
             t'.status == Completed && t'.total == Some(c.total) && c'.state == Finished && SameRecords(w, w', id)
           else match ask
             case Lost => t'.status == Completing && c'.state == Compensating && SameRecords(w, w', id)
             case Unheard => t'.status == Completing && c'.state == Compensating && Closed(w'.store, id, c.epoch)
             case Heard => t'.status == Open && c'.state == Aborted && Closed(w'.store, id, c.epoch)
  }

  /** The fates that end a completion. */
  predicate BringsToEnd(forward: bool, fate: Fate)
  {
    fate.Asked? && (forward || fate.ask == Heard)
  }

  ghost predicate Driven(w: World, d: nat, fate: Fate, w': World)
    requires d in w.drivers
  {
    var id, forward := w.drivers[d].tx, w.drivers[d].pc == MustFinalize;
    && w'.clock == w.clock && w'.lease == w.lease && w'.drivers == w.drivers - {d}
    && (w'.db, w'.store, BringsToEnd(forward, fate)) == DriveRow(w.db, w.store, RowFor(w.drivers[d]), fate, w.clock)
    && RowLeft(w, w', id, forward, fate)
    && (forall other :: other != id ==> SameRows(w, w', other) && SameRecords(w, w', other))
    && Unfinished(w'.db) == Unfinished(w.db) - if BringsToEnd(forward, fate) then {id} else {}
  }

  lemma RollForward(w: World, d: nat) returns (w': World)
    requires Inv(w) && Live(w, d) && w.drivers[d].pc == MustFinalize
    ensures Steps(w, w') && Inv(w')
    ensures forall ask :: Driven(w, d, Asked(ask), w')
  {
    assert DriverOk(w, w.drivers[d]) by { assert InvAt(w, w.drivers[d].tx); }
    hide Inv, Runs;
    StepsNone(w);
    Advance(w, w, FinalizeTx(d));
    w' := Apply(w, FinalizeTx(d));
  }

  /** COMPENSATING and its release are recorded. */
  lemma RecordRelease(w: World, d: nat) returns (w1: World)
    requires Inv(w) && Live(w, d) && w.drivers[d].pc == MustCompensate
    ensures var dr := w.drivers[d];
      && w1 == w.(db := SetState(w.db, dr.tx, Compensating, w.clock),
                  sent := w.sent + {Req(ReleaseReq(dr.tx, dr.epoch))},
                  drivers := w.drivers[d := dr.(pc := AskRelease, touched := w.clock)])
    ensures Steps(w, w1) && Inv(w1)
  {
    hide Inv, Runs;
    StepsNone(w);
    Advance(w, w, Compensate(d));
    w1 := Apply(w, Compensate(d));
  }

  /** And Inventory handles the release. */
  lemma AskForRelease(w: World, d: nat) returns (w2: World, rep: Reply)
    requires Inv(w) && Live(w, d) && w.drivers[d].pc == MustCompensate
    ensures var dr := w.drivers[d];
      && rep.ReleasedReply? && rep.Key() == (dr.tx, dr.epoch)
      && Release(w.store, dr.tx, dr.epoch).1 == Some(rep)
      && w2 == w.(db := SetState(w.db, dr.tx, Compensating, w.clock), store := Release(w.store, dr.tx, dr.epoch).0,
                  sent := w.sent + {Req(ReleaseReq(dr.tx, dr.epoch))} + {Rep(rep)},
                  drivers := w.drivers[d := dr.(pc := AskRelease, touched := w.clock)])
    ensures Steps(w, w2) && Inv(w2)
  {
    var dr := w.drivers[d];
    var req := ReleaseReq(dr.tx, dr.epoch);
    IR.HandleSettles(w.store, req);
    IR.HandleIsLocal(w.store, req);
    hide Inv, Runs, StoreOk;
    rep := Release(w.store, dr.tx, dr.epoch).1.value;
    var w1 := RecordRelease(w, d);
    hide Steps;
    Advance(w, w1, HandleRequest(req));
    w2 := Apply(w1, HandleRequest(req));
  }

  /** Told of the release, the driver reopens the transaction and is done. */
  lemma ReopenAfterRelease(w: World, d: nat) returns (w': World)
    requires Inv(w) && Live(w, d) && w.drivers[d].pc == MustCompensate && w.lease > 0
    ensures Steps(w, w') && Inv(w')
    ensures var dr := w.drivers[d];
      && w' == w.(db := Reopen(SetState(w.db, dr.tx, Compensating, w.clock), dr.tx, w.clock),
                  store := Release(w.store, dr.tx, dr.epoch).0, sent := w'.sent, drivers := w.drivers - {d})
      && Release(w.store, dr.tx, dr.epoch).1.Some?
  {
    var w2, rep := AskForRelease(w, d);
    hide Inv, Runs, Release, Steps, SetState, Reopen;
    Advance(w, w2, Hear(d, rep));
    var w3 := Apply(w2, Hear(d, rep));
    Advance(w, w3, Saga.ReopenTx(d));
    w' := Apply(w3, Saga.ReopenTx(d));
    assert w'.drivers == w.drivers - {d};
  }

  /** Not told of the release, the driver leaves the row COMPENSATING. */
  lemma GiveUpRelease(w: World, d: nat, handled: bool) returns (w': World)
    requires Inv(w) && Live(w, d) && w.drivers[d].pc == MustCompensate
    ensures Steps(w, w') && Inv(w')
    ensures var dr := w.drivers[d];
      && w' == w.(db := SetState(w.db, dr.tx, Compensating, w.clock),
                  store := if handled then Release(w.store, dr.tx, dr.epoch).0 else w.store,
                  sent := w'.sent, drivers := w.drivers - {d})
      && Release(w.store, dr.tx, dr.epoch).1.Some?
  {
    var w2, rep := AskForRelease(w, d);
    if !handled { w2 := RecordRelease(w, d); }
    hide Inv, Runs, Release, Steps, SetState;
    Advance(w, w2, GiveUp(d));
    w' := Apply(w2, GiveUp(d));
    assert w'.drivers == w.drivers - {d};
  }

  lemma ReleaseCloses(store: Store, tx: nat, epoch: nat)
    requires Release(store, tx, epoch).1.Some?
    ensures Closed(Release(store, tx, epoch).0, tx, epoch)
  {
  }

  lemma ReleaseIsLocal(w: World, w': World, tx: nat, epoch: nat)
    requires w'.store == Release(w.store, tx, epoch).0
    ensures forall other :: other != tx ==> SameRecords(w, w', other)
  {
    IR.HandleIsLocal(w.store, ReleaseReq(tx, epoch));
    hide Release;
    forall other, e: nat | other != tx ensures IR.RecordOf(w'.store, (other, e)) == IR.RecordOf(w.store, (other, e)) {}
  }

  /** A row rolled back: reopened if `heard`, left COMPENSATING if not. */
  lemma RolledBack(w: World, d: nat, ask: Ask, w': World)
    requires d in w.drivers && w.drivers[d].pc == MustCompensate && DriverOk(w, w.drivers[d])
    requires w'.clock == w.clock && w'.lease == w.lease && w'.drivers == w.drivers - {d}
    requires var dr := w.drivers[d];
      var marked := SetState(w.db, dr.tx, Compensating, w.clock);
      && Release(w.store, dr.tx, dr.epoch).1.Some?
      && w'.db == (if ask.Heard? then Reopen(marked, dr.tx, w.clock) else marked)
      && w'.store == if ask.Lost? then w.store else Release(w.store, dr.tx, dr.epoch).0
    ensures Driven(w, d, Asked(ask), w')
  {
    var dr := w.drivers[d];
    ReleaseCloses(w.store, dr.tx, dr.epoch);
    if !ask.Lost? { ReleaseIsLocal(w, w', dr.tx, dr.epoch); }
    hide Release, Counts, SumPrices, Holds, Closed;
  }

  lemma RollBack(w: World, d: nat, ask: Ask) returns (w': World)
    requires Inv(w) && Live(w, d) && w.drivers[d].pc == MustCompensate && w.lease > 0
    ensures Steps(w, w') && Inv(w') && Driven(w, d, Asked(ask), w')
  {
    assert DriverOk(w, w.drivers[d]) by { assert InvAt(w, w.drivers[d].tx); }
    hide Inv, Steps, Release, SetState, Reopen, DriverOk, Driven;
    if ask.Heard? {
      w' := ReopenAfterRelease(w, d);
    } else {
      w' := GiveUpRelease(w, d, ask.Unheard?);
    }
    RolledBack(w, d, ask, w');
  }

  lemma RowRaises(w: World, d: nat) returns (w': World)
    requires Inv(w) && Live(w, d) && w.lease > 0
    ensures Steps(w, w') && Inv(w') && Driven(w, d, Raised, w')
  {
    assert DriverOk(w, w.drivers[d]) by { assert InvAt(w, w.drivers[d].tx); }
    hide Inv, Runs;
    StepsNone(w);
    Advance(w, w, Crash(d));
    w' := Apply(w, Crash(d));
  }

  /** Whatever becomes of its row, what a recovery driver leaves behind is reached by steps of the saga. */
  lemma DriveOne(w: World, d: nat, fate: Fate) returns (w': World)
    requires Inv(w) && Live(w, d) && w.lease > 0
    requires w.drivers[d].pc == MustFinalize || w.drivers[d].pc == MustCompensate
    ensures Steps(w, w') && Inv(w') && Driven(w, d, fate, w')
  {
    hide Inv, Steps, Driven, Runs;
    if fate.Raised? {
      w' := RowRaises(w, d);
    } else if w.drivers[d].pc == MustFinalize {
      w' := RollForward(w, d);
    } else {
      w' := RollBack(w, d, fate.ask);
    }
  }

  // ---- a whole pass ------------------------------------------------------------------------

  ghost function RowsFor(db: Db, claimed: seq<nat>): seq<ClaimedRow>
    requires forall i :: 0 <= i < |claimed| ==> claimed[i] in db.completions
  {
    seq(|claimed|, i requires 0 <= i < |claimed| => RowOf(db, claimed[i]))
  }

  predicate Forward(db: Db, id: nat)
  {
    id in db.completions && db.completions[id].state == Reserved
  }

  /** The claimed completions that the pass brings to an end. */
  ghost function DoneIds(db: Db, claimed: seq<nat>, fates: seq<Fate>): set<nat>
    requires |fates| == |claimed|
  {
    if claimed == [] then {} else
      var n := |claimed| - 1;
      var last := if BringsToEnd(Forward(db, claimed[n]), fates[n]) then {claimed[n]} else {};
      DoneIds(db, claimed[..n], fates[..n]) + last
  }

  lemma {:induction false} DoneAreClaimed(db: Db, claimed: seq<nat>, fates: seq<Fate>)
    requires |fates| == |claimed|
    ensures DoneIds(db, claimed, fates) <= Elements(claimed)
  {
    if claimed != [] {
      var n := |claimed| - 1;
      DoneAreClaimed(db, claimed[..n], fates[..n]);
      assert claimed == claimed[..n] + [claimed[n]];
    }
  }

  ghost function ClaimedWorld(w: World, claimed: seq<nat>): World
  {
    w.(db := Claim(w.db, claimed, w.clock))
  }

  /** What a pass does, as `Recovery.RunOnce` states it, and what that means row by row. */
  ghost predicate PassEffect(w: World, claimed: seq<nat>, fates: seq<Fate>, w': World)
  {
    && |fates| == |claimed| && (forall i :: 0 <= i < |claimed| ==> claimed[i] in w.db.completions)
    && w'.clock == w.clock && w'.lease == w.lease && w'.drivers == w.drivers
    && (w'.db, w'.store, |DoneIds(w.db, claimed, fates)|)
         == DriveRows(Claim(w.db, claimed, w.clock), w.store, RowsFor(w.db, claimed), fates, w.clock)
    && (forall i :: 0 <= i < |claimed| ==>
          RowLeft(ClaimedWorld(w, claimed), w', claimed[i], Forward(w.db, claimed[i]), fates[i]))
    && (forall id :: id !in claimed ==> SameRows(w, w', id) && SameRecords(w, w', id))
    && Unfinished(w'.db) == Unfinished(w.db) - DoneIds(w.db, claimed, fates)
  }

  lemma ClaimFinishesNothing(db: Db, claimed: seq<nat>, now: int)
    ensures Unfinished(Claim(db, claimed, now)) == Unfinished(db)
  {
    CR.ClaimTouchesNoState(db, claimed, now);
  }

  ghost function Slots(base: nat, n: nat): set<nat>
  {
    if n == 0 then {} else Slots(base, n - 1) + {base + n - 1}
  }

  lemma {:induction false} SlotsBetween(base: nat, n: nat, d: nat)
    ensures d in Slots(base, n) <==> base <= d < base + n
  {
    if n > 0 { SlotsBetween(base, n - 1, d); }
  }

  /** The tables after `n` rows, and how many completions they brought to an end. */
  ghost predicate TablesAfter(w: World, db1: Db, claimed: seq<nat>, fates: seq<Fate>, n: nat, wn: World)
    requires n <= |claimed| == |fates| && forall i :: 0 <= i < |claimed| ==> claimed[i] in w.db.completions
  {
    && (wn.db, wn.store, |DoneIds(w.db, claimed[..n], fates[..n])|)
       == DriveRows(db1, w.store, RowsFor(w.db, claimed)[..n], fates[..n], w.clock)
    && Unfinished(wn.db) == Unfinished(w.db) - DoneIds(w.db, claimed[..n], fates[..n])
  }

  lemma TablesNext(w: World, db1: Db, claimed: seq<nat>, fates: seq<Fate>, n: nat, wn: World, dr: Driver, w': World)
    requires n < |claimed| == |fates| && forall i :: 0 <= i < |claimed| ==> claimed[i] in w.db.completions
    requires forall i, j :: 0 <= i < j < |claimed| ==> claimed[i] != claimed[j]
    requires TablesAfter(w, db1, claimed, fates, n, wn) && dr == DriverFor(w.db, claimed[n], w.clock)
    requires var ends := BringsToEnd(dr.pc == MustFinalize, fates[n]);
      && (w'.db, w'.store, ends) == DriveRow(wn.db, wn.store, RowFor(dr), fates[n], w.clock)
      && Unfinished(w'.db) == Unfinished(wn.db) - if ends then {dr.tx} else {}
    ensures TablesAfter(w, db1, claimed, fates, n + 1, w')
  {
    hide DriveRow, DriveRows, Unfinished, DoneIds;
    var rows := RowsFor(w.db, claimed);
    RowStateMatters(wn.db, wn.store, RowFor(dr), rows[n], fates[n], w.clock);
    OneMoreRow(db1, w.store, rows, fates, w.clock, n);
    OneMoreDone(w.db, claimed, fates, n);
  }

  /** The first `n` of the claimed rows are driven, the rest are still to do. */
  ghost predicate Midway(w: World, w1: World, claimed: seq<nat>, fates: seq<Fate>, base: nat, n: nat, wn: World)
    requires n <= |claimed| == |fates| && Claimed(w, claimed, base, w1)
  {
    && wn.clock == w.clock && wn.lease == w.lease
    && wn.drivers == w1.drivers - Slots(base, n)
    && TablesAfter(w, w1.db, claimed, fates, n, wn)
    && (forall i :: 0 <= i < n ==> RowLeft(w1, wn, claimed[i], Forward(w.db, claimed[i]), fates[i]))
    && (forall id :: id !in claimed[..n] ==> SameRows(w1, wn, id) && SameRecords(w1, wn, id))
  }

  lemma OneMoreRow(db: Db, store: Store, rows: seq<ClaimedRow>, fates: seq<Fate>, now: int, n: nat)
    requires n < |rows| == |fates|
    ensures var (db', store', done) := DriveRows(db, store, rows[..n], fates[..n], now);
      var (db'', store'', ok) := DriveRow(db', store', rows[n], fates[n], now);
      DriveRows(db, store, rows[..n + 1], fates[..n + 1], now) == (db'', store'', done + if ok then 1 else 0)
  {
    assert rows[..n + 1][..n] == rows[..n] && fates[..n + 1][..n] == fates[..n];
  }

  lemma OneMoreDone(db: Db, claimed: seq<nat>, fates: seq<Fate>, n: nat)
    requires n < |claimed| == |fates| && forall i, j :: 0 <= i < j < |claimed| ==> claimed[i] != claimed[j]
    ensures var before, ends := DoneIds(db, claimed[..n], fates[..n]), BringsToEnd(Forward(db, claimed[n]), fates[n]);
      var after := DoneIds(db, claimed[..n + 1], fates[..n + 1]);
      after == before + (if ends then {claimed[n]} else {}) && |after| == |before| + if ends then 1 else 0
  {
    assert claimed[..n + 1][..n] == claimed[..n] && fates[..n + 1][..n] == fates[..n];
    DoneAreClaimed(db, claimed[..n], fates[..n]);
    assert claimed[n] !in claimed[..n];
  }

  /** A row driven earlier is left as it was by driving another. */
  lemma RowStays(w1: World, wn: World, w': World, id: nat, forward: bool, fate: Fate)
    requires RowLeft(w1, wn, id, forward, fate) && SameRows(wn, w', id) && SameRecords(wn, w', id)
    ensures RowLeft(w1, w', id, forward, fate)
  {
    hide Counts;
    assert forall e :: Closed(wn.store, id, e) ==> Closed(w'.store, id, e);
  }

  /** A row untouched since the claim is driven as it was claimed. */
  lemma RowFollows(w1: World, wn: World, w': World, id: nat, forward: bool, fate: Fate)
    requires SameRows(w1, wn, id) && SameRecords(w1, wn, id) && RowLeft(wn, w', id, forward, fate)
    ensures RowLeft(w1, w', id, forward, fate)
  {
    hide Counts;
  }

  lemma StaysSame(w1: World, wn: World, w': World, id: nat)
    requires SameRows(w1, wn, id) && SameRecords(w1, wn, id) && SameRows(wn, w', id) && SameRecords(wn, w', id)
    ensures SameRows(w1, w', id) && SameRecords(w1, w', id)
  {
  }

  /** Only the tables and the records matter to where a row is left. */
  lemma OnlyTablesMatter(w1: World, w2: World, w': World, id: nat, forward: bool, fate: Fate)
    requires w2.db == w1.db && w2.store == w1.store
    ensures RowLeft(w1, w', id, forward, fate) ==> RowLeft(w2, w', id, forward, fate)
    ensures SameRecords(w1, w', id) ==> SameRecords(w2, w', id)
  {
  }

  lemma RowsAfterNext(w: World, w1: World, claimed: seq<nat>, fates: seq<Fate>, base: nat, n: nat, wn: World, w': World)
    requires n < |claimed| == |fates| && Claimed(w, claimed, base, w1) && CanClaim(w, claimed, base)
    requires Midway(w, w1, claimed, fates, base, n, wn)
    requires RowLeft(wn, w', claimed[n], Forward(w.db, claimed[n]), fates[n])
    requires forall other :: other != claimed[n] ==> SameRows(wn, w', other) && SameRecords(wn, w', other)
    ensures forall i :: 0 <= i < n + 1 ==> RowLeft(w1, w', claimed[i], Forward(w.db, claimed[i]), fates[i])
    ensures forall id :: id !in claimed[..n + 1] ==> SameRows(w1, w', id) && SameRecords(w1, w', id)
  {
    assert claimed[..n + 1] == claimed[..n] + [claimed[n]];
    assert claimed[n] !in claimed[..n];
    hide RowLeft, TablesAfter, Claim, Stuck, NoLiveDriver;
    forall id | id !in claimed[..n + 1] ensures SameRows(w1, w', id) && SameRecords(w1, w', id) {
      StaysSame(w1, wn, w', id);
    }
    hide SameRows, SameRecords;
    forall i | 0 <= i < n + 1 ensures RowLeft(w1, w', claimed[i], Forward(w.db, claimed[i]), fates[i]) {
      if i < n {
        RowStays(w1, wn, w', claimed[i], Forward(w.db, claimed[i]), fates[i]);
      } else {
        RowFollows(w1, wn, w', claimed[n], Forward(w.db, claimed[n]), fates[n]);
      }
    }
  }

  lemma NextDriver(w: World, w1: World, claimed: seq<nat>, fates: seq<Fate>, base: nat, n: nat, wn: World)
    requires n < |claimed| == |fates| && Claimed(w, claimed, base, w1) && Midway(w, w1, claimed, fates, base, n, wn)
    requires w.lease > 0
    ensures var d := base + n;
      && Live(wn, d) && wn.drivers[d] == DriverFor(w.db, claimed[n], w.clock)
      && wn.drivers - {d} == w1.drivers - Slots(base, n + 1)
  {
    hide TablesAfter, RowLeft, Claim;
    assert w1.drivers[base + n] == DriverFor(w.db, claimed[n], w.clock);
    SlotsBetween(base, n, base + n);
  }

  lemma DriveNext(w: World, w1: World, claimed: seq<nat>, fates: seq<Fate>, base: nat, n: nat, wn: World)
    returns (w': World)
    requires n < |claimed| == |fates| && Claimed(w, claimed, base, w1) && Midway(w, w1, claimed, fates, base, n, wn)
    requires Inv(wn) && CanClaim(w, claimed, base)
    ensures Steps(wn, w') && Inv(w') && Midway(w, w1, claimed, fates, base, n + 1, w')
  {
    NextDriver(w, w1, claimed, fates, base, n, wn);
    assert w.lease > 0 && wn.lease == w.lease;
    hide Inv, Steps, Driven, Midway, Claimed, CanClaim, Live;
    w' := DriveOne(wn, base + n, fates[n]);
    MidwayNext(w, w1, claimed, fates, base, n, wn, w');
  }

  lemma MidwayNext(w: World, w1: World, claimed: seq<nat>, fates: seq<Fate>, base: nat, n: nat, wn: World, w': World)
    requires n < |claimed| == |fates| && Claimed(w, claimed, base, w1) && Midway(w, w1, claimed, fates, base, n, wn)
    requires CanClaim(w, claimed, base)
    requires base + n in wn.drivers && wn.drivers[base + n] == DriverFor(w.db, claimed[n], w.clock)
    requires wn.drivers - {base + n} == w1.drivers - Slots(base, n + 1)
    requires Driven(wn, base + n, fates[n], w')
    ensures Midway(w, w1, claimed, fates, base, n + 1, w')
  {
    hide Claim, DriveRow, Unfinished, RowLeft, SameRows, SameRecords, Slots;
    hide Stuck, NoLiveDriver, TablesAfter, BringsToEnd;
    TablesNext(w, w1.db, claimed, fates, n, wn, wn.drivers[base + n], w');
    RowsAfterNext(w, w1, claimed, fates, base, n, wn, w');
    hide CanClaim, Claimed;
  }

  lemma {:induction false} DrivePass(w: World, w1: World, claimed: seq<nat>, fates: seq<Fate>, base: nat, n: nat)
    returns (wn: World)
    requires n <= |claimed| == |fates| && Claimed(w, claimed, base, w1) && Inv(w1) && CanClaim(w, claimed, base)
    ensures Steps(w1, wn) && Inv(wn) && Midway(w, w1, claimed, fates, base, n, wn)
    decreases n
  {
    hide Inv, Steps, RowLeft;
    if n == 0 {
      ClaimFinishesNothing(w.db, claimed, w.clock);
      StepsNone(w1);
      return w1;
    }
    hide Midway, Claimed, CanClaim;
    var before := DrivePass(w, w1, claimed, fates, base, n - 1);
    wn := DriveNext(w, w1, claimed, fates, base, n - 1, before);
    StepsTogether(w1, before, wn);
  }

  /** With the last claimed row driven the pass is over. */
  lemma MidwayDone(w: World, w1: World, claimed: seq<nat>, fates: seq<Fate>, base: nat, w': World)
    requires |fates| == |claimed| && CanClaim(w, claimed, base) && Claimed(w, claimed, base, w1)
    requires Midway(w, w1, claimed, fates, base, |claimed|, w')
    ensures PassEffect(w, claimed, fates, w')
  {
    hide DriveRows, Unfinished, Live, Stuck, NoLiveDriver, RowLeft, DoneIds, SameRecords;
    forall id, forward, fate
      ensures RowLeft(w1, w', id, forward, fate) ==> RowLeft(ClaimedWorld(w, claimed), w', id, forward, fate)
    {
      OnlyTablesMatter(w1, ClaimedWorld(w, claimed), w', id, forward, fate);
    }
    var n := |claimed|;
    assert RowsFor(w.db, claimed)[..n] == RowsFor(w.db, claimed) && fates[..n] == fates && claimed[..n] == claimed;
    forall d: nat ensures d in Slots(base, n) <==> base <= d < base + n { SlotsBetween(base, n, d); }
    assert w'.drivers == w.drivers;
    forall id | id !in claimed ensures SameRows(w, w', id) && SameRecords(w, w', id) {
      ClaimLeavesRow(w.db, claimed, w.clock, id);
      UnclaimedStays(w, w1, w', id);
    }
  }

  lemma UnclaimedStays(w: World, w1: World, w': World, id: nat)
    requires SameRows(w1, w', id) && SameRecords(w1, w', id) && w1.store == w.store && w1.db.txs == w.db.txs
    requires id in w1.db.completions <==> id in w.db.completions
    requires id in w.db.completions ==> w1.db.completions[id] == w.db.completions[id]
    ensures SameRows(w, w', id) && SameRecords(w, w', id)
  {
  }

  lemma ClaimLeavesRow(db: Db, claimed: seq<nat>, now: int, id: nat)
    requires id !in claimed
    ensures Claim(db, claimed, now).txs == db.txs
    ensures id in Claim(db, claimed, now).completions <==> id in db.completions
    ensures id in db.completions ==> Claim(db, claimed, now).completions[id] == db.completions[id]
  {
    CR.ClaimTouchesNoState(db, claimed, now);
    if id in db.completions { ClaimLeavesOthers(db, claimed, now, id); }
  }

  /** One recovery pass is a run of the saga, beside any drivers still alive and whatever becomes of each row: a
      statement raising, Inventory not answering, or the answer lost. It ends exactly the completions it counts. */
  lemma PassIsARun(w: World, claimed: seq<nat>, fates: seq<Fate>, base: nat) returns (w': World)
    requires Inv(w) && CanClaim(w, claimed, base) && |fates| == |claimed|
    ensures Steps(w, w') && Inv(w') && PassEffect(w, claimed, fates, w')
  {
    hide Inv, Steps, Claimed, Midway, PassEffect, CanClaim;
    var w1 := ClaimPass(w, claimed, base);
    w' := DrivePass(w, w1, claimed, fates, base, |claimed|);
    StepsTogether(w, w1, w');
    MidwayDone(w, w1, claimed, fates, base, w');
  }
}
