/** Repeated recovery passes finish every completion: each pass is a run of the saga that settles what it claims. */
module Drain {
  import opened Collections
  import opened Inventory
  import opened Checkout
  import opened Recovery
  import opened Saga
  import opened SagaInvariant
  import opened SagaSteps
  import opened RecoveryPass
  import CR = CheckoutRuns

  // ---- a pass over the services ------------------------------------------------------------

  /** No driver works on a COMPENSATING row that a pass made now would claim. */
  ghost predicate NobodyCompensates(w: World)
  {
    forall id :: Stuck(w.db, id, w.lease, w.clock) && w.db.completions[id].state == Compensating ==> NoLiveDriver(w, id)
  }

  lemma ClaimedAreFree(w: World, claimed: seq<nat>)
    requires Inv(w) && NobodyCompensates(w)
    requires forall i :: 0 <= i < |claimed| ==> Stuck(w.db, claimed[i], w.lease, w.clock)
    ensures forall i :: 0 <= i < |claimed| ==> NoLiveDriver(w, claimed[i])
  {
    hide InvAt, NoLiveDriver, StoreOk;
    forall i | 0 <= i < |claimed| ensures NoLiveDriver(w, claimed[i]) {
      assert InvAt(w, claimed[i]);
      if w.db.completions[claimed[i]].state != Compensating { LapsedMeansNoDriver(w, claimed[i]); }
    }
  }

  /** What became of claimed row `row`, as the tables show it afterwards. */
  ghost predicate RowOutcome(row: ClaimedRow, fate: Fate, db: Db, store: Store)
  {
    && row.id in db.txs && row.id in db.completions && db.completions[row.id].epoch == row.epoch
    && var t, state := db.txs[row.id], db.completions[row.id].state;
      match fate
      case Raised => t.status == Completing && state == row.state
      case Asked(ask) =>
        if row.state == Reserved then t.status == Completed && t.total == Some(row.total) && state == Finished
        else if ask.Heard? then t.status == Open && state == Aborted && Closed(store, row.id, row.epoch)
        else t.status == Completing && state == Compensating && (ask.Unheard? ==> Closed(store, row.id, row.epoch))
  }

  /** The rows a pass has claimed, as the claiming statement returned them. */
  ghost predicate ClaimedRows(rows: seq<ClaimedRow>, db: Db, lease: int, limit: nat, now: int, locked: set<nat>)
  {
    && |rows| <= limit && OldestFirst(db.completions, Claimable(db, lease, now, locked), Ids(rows), limit)
    && forall i :: 0 <= i < |rows| ==> rows[i].id in db.completions && rows[i] == RowOf(db, rows[i].id)
  }

  lemma {:induction false} UnusedIds(drivers: set<nat>) returns (base: nat)
    ensures forall d :: d in drivers ==> d < base
    decreases drivers
  {
    if drivers == {} { return 0; }
    var d :| d in drivers;
    var rest := UnusedIds(drivers - {d});
    base := Max(rest, d + 1);
    assert forall x :: x in drivers ==> x == d || x in drivers - {d};
  }

  lemma ClaimedRowsAre(rows: seq<ClaimedRow>, db: Db, lease: int, limit: nat, now: int, locked: set<nat>)
    requires ClaimedRows(rows, db, lease, limit, now, locked)
    ensures (forall i :: 0 <= i < |rows| ==> Ids(rows)[i] in db.completions) && RowsFor(db, Ids(rows)) == rows
    ensures forall i, j :: 0 <= i < j < |rows| ==> Ids(rows)[i] != Ids(rows)[j]
    ensures forall i :: 0 <= i < |rows| ==> Stuck(db, Ids(rows)[i], lease, now)
  {
    assert forall i :: 0 <= i < |rows| ==> Ids(rows)[i] in Claimable(db, lease, now, locked);
  }

  lemma OutcomeOf(w: World, w': World, id: nat, fate: Fate, claimed: seq<nat>)
    requires Inv(w) && Stuck(w.db, id, w.lease, w.clock)
    requires RowLeft(ClaimedWorld(w, claimed), w', id, Forward(w.db, id), fate)
    ensures RowOutcome(RowOf(w.db, id), fate, w'.db, w'.store)
  {
    assert InvAt(w, id);
    CR.ClaimTouchesNoState(w.db, claimed, w.clock);
    hide Claim, SameRecords, Closed, CompletionOk;
  }

  lemma {:induction false} DoneWereUnfinished(w: World, claimed: seq<nat>, fates: seq<Fate>)
    requires |fates| == |claimed| && forall i :: 0 <= i < |claimed| ==> Stuck(w.db, claimed[i], w.lease, w.clock)
    ensures DoneIds(w.db, claimed, fates) <= Unfinished(w.db)
  {
    DoneAreClaimed(w.db, claimed, fates);
    forall id | id in DoneIds(w.db, claimed, fates) ensures id in Unfinished(w.db) {
      assert id in claimed;
    }
  }

  /** The pass of the machine that the rows and their fates make. */
  lemma PassOver(w: World, rows: seq<ClaimedRow>, limit: nat, locked: set<nat>, fates: seq<Fate>) returns (w': World)
    requires Inv(w) && w.lease > 0 && NobodyCompensates(w) && |fates| == |rows|
    requires ClaimedRows(rows, w.db, w.lease, limit, w.clock, locked)
    ensures Steps(w, w') && Inv(w') && w'.drivers == w.drivers && w'.clock == w.clock && w'.lease == w.lease
    ensures (w'.db, w'.store, |Unfinished(w.db)| - |Unfinished(w'.db)|)
         == DriveRows(Claim(w.db, Ids(rows), w.clock), w.store, rows, fates, w.clock)
    ensures forall i :: 0 <= i < |rows| ==> RowOutcome(rows[i], fates[i], w'.db, w'.store)
    ensures forall id :: id !in Ids(rows) ==> SameRows(w, w', id) && SameRecords(w, w', id)
  {
    var claimed := Ids(rows);
    ClaimedRowsAre(rows, w.db, w.lease, limit, w.clock, locked);
    ClaimedAreFree(w, claimed);
    var base := UnusedIds(w.drivers.Keys);
    hide Inv, Steps, DriveRows, Stuck, NoLiveDriver, RowLeft, NobodyCompensates, Ids, RowOutcome, OldestFirst, RowsFor;
    assert CanClaim(w, claimed, base);
    w' := PassIsARun(w, claimed, fates, base);
    hide CanClaim;
    DoneWereUnfinished(w, claimed, fates);
    SubsetSize(DoneIds(w.db, claimed, fates), Unfinished(w.db));
    hide DoneIds, Unfinished, Claimable;
    forall i | 0 <= i < |rows| ensures RowOutcome(rows[i], fates[i], w'.db, w'.store) {
      OutcomeOf(w, w', claimed[i], fates[i], claimed);
    }
  }

  /** One recovery pass over the services, beside any drivers still alive. Whatever becomes of each row, the pass is a
      run of the saga. A row whose first statement raised is as it was; one found RESERVED completes; any other reopens
      if its release was confirmed and otherwise stays COMPLETING and COMPENSATING; the count is of those it ended. */
  method RecoverOnce(checkout: Checkout.Service, inventory: Inventory.Service, lease: int, limit: nat, now: int,
                     locked: set<nat>, fates: seq<Fate>, ghost w: World)
    returns (done: nat, rows: seq<ClaimedRow>, ghost w': World)
    requires w.db == checkout.Contents() && w.store == inventory.State() && w.clock == now && w.lease == lease > 0
    requires Inv(w) && NobodyCompensates(w) && |fates| >= limit
    modifies checkout, inventory
    ensures Steps(w, w') && Inv(w') && w'.db == checkout.Contents() && w'.store == inventory.State()
    ensures w'.drivers == w.drivers && w'.clock == now && w'.lease == lease
    ensures ClaimedRows(rows, w.db, lease, limit, now, locked)
    ensures forall i :: 0 <= i < |rows| ==> RowOutcome(rows[i], fates[i], checkout.Contents(), inventory.State())
    ensures forall id :: id !in Ids(rows) ==> SameRows(w, w', id) && SameRecords(w, w', id)
    ensures done == |Unfinished(w.db)| - |Unfinished(checkout.Contents())|
  {
    hide Inv, Steps, DriveRows, OldestFirst, Claimable, Claim, Unfinished, RowOutcome, NobodyCompensates;
    done, rows := RunOnce(checkout, inventory, lease, limit, now, locked, fates);
    w' := PassOver(w, rows, limit, locked, fates[..|rows|]);
  }

  // ---- both sides reachable ----------------------------------------------------------------

  /** Every driver is dead or past its lease. */
  ghost predicate Quiet(w: World)
  {
    forall d :: !Live(w, d)
  }

  /** Both sides reachable: no statement raises and every confirmation is heard. */
  function AllAnswered(n: nat): seq<Fate>
  {
    seq(n, i => Asked(Heard))
  }

  /** The records not claimed are as they were. */
  ghost predicate OthersStay(db: Db, claimed: seq<nat>, db': Db)
  {
    forall id :: id in db.completions && id !in claimed ==>
      id in db'.completions && db'.completions[id] == db.completions[id]
  }

  lemma {:induction false} AnsweredAreDone(db: Db, claimed: seq<nat>)
    ensures DoneIds(db, claimed, AllAnswered(|claimed|)) == Elements(claimed)
  {
    if claimed != [] {
      var n := |claimed| - 1;
      assert AllAnswered(|claimed|)[..n] == AllAnswered(n);
      AnsweredAreDone(db, claimed[..n]);
      assert claimed == claimed[..n] + [claimed[n]];
    }
  }

  lemma PassLeavesOthers(w: World, claimed: seq<nat>, fates: seq<Fate>, w': World)
    requires PassEffect(w, claimed, fates, w')
    ensures OthersStay(w.db, claimed, w'.db)
  {
    hide DriveRows, RowLeft, SameRecords, Claim, DoneIds, RowsFor, Unfinished;
  }

  lemma AnsweredCounts(w: World, claimed: seq<nat>, db': Db)
    requires forall i, j :: 0 <= i < j < |claimed| ==> claimed[i] != claimed[j]
    requires forall i :: 0 <= i < |claimed| ==> claimed[i] in Unfinished(w.db)
    requires Unfinished(db') == Unfinished(w.db) - DoneIds(w.db, claimed, AllAnswered(|claimed|))
    ensures Unfinished(db') == Unfinished(w.db) - Elements(claimed)
    ensures |DoneIds(w.db, claimed, AllAnswered(|claimed|))| == |claimed|
    ensures |Unfinished(db')| == |Unfinished(w.db)| - |claimed|
  {
    AnsweredAreDone(w.db, claimed);
    DistinctCount(claimed);
    hide AllAnswered, DoneIds, Unfinished;
    assert Elements(claimed) <= Unfinished(w.db);
    SubsetSize(Elements(claimed), Unfinished(w.db));
  }

  /** One recovery pass with both sides reachable drives to a terminal state exactly what it claimed, so the number of
      unfinished completions falls by the number of rows it claimed. */
  lemma PassFinishesWhatItClaims(w: World, claimed: seq<nat>, base: nat) returns (w': World)
    requires Inv(w) && Quiet(w) && CanClaim(w, claimed, base)
    ensures Steps(w, w') && Inv(w') && Quiet(w') && w'.clock == w.clock && w'.lease == w.lease
    ensures (w'.db, w'.store, |claimed|)
         == DriveRows(Claim(w.db, claimed, w.clock), w.store, RowsFor(w.db, claimed), AllAnswered(|claimed|), w.clock)
    ensures Unfinished(w'.db) == Unfinished(w.db) - Elements(claimed) && OthersStay(w.db, claimed, w'.db)
    ensures |Unfinished(w'.db)| == |Unfinished(w.db)| - |claimed|
  {
    assert forall i :: 0 <= i < |claimed| ==> claimed[i] in Unfinished(w.db);
    hide Inv, Steps, DriveRows, Unfinished, RowLeft, Claim, OthersStay, RowsFor, SameRows, SameRecords, DoneIds;
    w' := PassIsARun(w, claimed, AllAnswered(|claimed|), base);
    PassLeavesOthers(w, claimed, AllAnswered(|claimed|), w');
    AnsweredCounts(w, claimed, w'.db);
    assert Quiet(w') by {
      forall d: nat ensures !Live(w', d) { assert !Live(w, d); }
    }
  }

  // ---- draining ----------------------------------------------------------------------------

  /** One recovery pass: when it is made, and the rows it claims. */
  datatype Pass = Pass(now: int, claimed: seq<nat>)

  /** A pass made no earlier than `clock`: it claims the oldest rows whose leases have lapsed, up to `limit`, as the
      claiming statement does. */
  ghost predicate PassOk(db: Db, clock: int, lease: int, limit: nat, pass: Pass)
  {
    pass.now >= clock && OldestFirst(db.completions, Claimable(db, lease, pass.now, {}), pass.claimed, limit)
  }

  /** What the pass leaves behind with both sides reachable, as `Recovery.RunOnce` states it. */
  ghost function AfterPass(db: Db, store: Store, pass: Pass): (Db, Store)
    requires forall i :: 0 <= i < |pass.claimed| ==> pass.claimed[i] in db.completions
  {
    var claimed := pass.claimed;
    var (db', store', _) :=
      DriveRows(Claim(db, claimed, pass.now), store, RowsFor(db, claimed), AllAnswered(|claimed|), pass.now);
    (db', store')
  }

  ghost predicate Passes(db: Db, store: Store, clock: int, lease: int, limit: nat, passes: seq<Pass>,
                         db': Db, store': Store)
    decreases |passes|
  {
    if passes == [] then db' == db && store' == store else
      && PassOk(db, clock, lease, limit, passes[0])
      && var (db1, store1) := AfterPass(db, store, passes[0]);
        Passes(db1, store1, passes[0].now, lease, limit, passes[1..], db', store')
  }

  /** By `horizon` every lease unfinished now will have lapsed, unless it is renewed. */
  ghost predicate LapsedBy(db: Db, lease: int, horizon: int)
  {
    forall id :: id in Unfinished(db) ==> db.completions[id].updatedAt < horizon - lease
  }

  /** How many of the passes are made at the horizon or later. */
  function MadeBy(passes: seq<Pass>, horizon: int): nat
  {
    if passes == [] then 0 else (if passes[0].now >= horizon then 1 else 0) + MadeBy(passes[1..], horizon)
  }

  /** A pass claims unfinished rows only, and once all leases have lapsed as many as its limit allows. */
  lemma PassClaims(db: Db, clock: int, lease: int, limit: nat, pass: Pass)
    requires PassOk(db, clock, lease, limit, pass)
    ensures Elements(pass.claimed) <= Unfinished(db)
    ensures LapsedBy(db, lease, pass.now) ==> |pass.claimed| == limit || Elements(pass.claimed) == Unfinished(db)
  {
    if LapsedBy(db, lease, pass.now) {
      assert Claimable(db, lease, pass.now, {}) == Unfinished(db);
    }
  }

  /** Any such pass, in the machine: wait until it is made, then let it run. */
  lemma OnePass(w: World, limit: nat, pass: Pass) returns (w': World)
    requires Inv(w) && Quiet(w) && w.lease > 0 && PassOk(w.db, w.clock, w.lease, limit, pass)
    ensures Steps(w, w') && Inv(w') && Quiet(w') && w'.clock == pass.now && w'.lease == w.lease
    ensures (w'.db, w'.store) == AfterPass(w.db, w.store, pass)
    ensures |Unfinished(w'.db)| == |Unfinished(w.db)| - |pass.claimed|
    ensures Unfinished(w'.db) == Unfinished(w.db) - Elements(pass.claimed) && OthersStay(w.db, pass.claimed, w'.db)
  {
    hide Inv, Runs, DriveRows;
    StepsNone(w);
    Advance(w, w, Tick(pass.now - w.clock));
    var late := Apply(w, Tick(pass.now - w.clock));
    assert Quiet(late) by {
      forall d: nat ensures !Live(late, d) { assert !Live(w, d); }
    }
    var base := UnusedIds(late.drivers.Keys);
    PassClaims(w.db, w.clock, w.lease, limit, pass);
    DistinctCount(pass.claimed);
    forall i | 0 <= i < |pass.claimed| ensures Stuck(late.db, pass.claimed[i], late.lease, late.clock) {
      assert pass.claimed[i] in Claimable(w.db, w.lease, pass.now, {});
    }
    w' := PassFinishesWhatItClaims(late, pass.claimed, base);
    StepsTogether(w, late, w');
  }

  /** What is left unfinished keeps its lease, so the horizon stays; and a pass made by then finishes all it may. */
  lemma HorizonStays(w: World, limit: nat, pass: Pass, w': World, horizon: int)
    requires PassOk(w.db, w.clock, w.lease, limit, pass) && LapsedBy(w.db, w.lease, horizon) && w'.lease == w.lease
    requires |Unfinished(w'.db)| == |Unfinished(w.db)| - |pass.claimed|
    requires Unfinished(w'.db) == Unfinished(w.db) - Elements(pass.claimed) && OthersStay(w.db, pass.claimed, w'.db)
    ensures LapsedBy(w'.db, w'.lease, horizon)
    ensures pass.now >= horizon ==> |Unfinished(w'.db)| <= Max(0, |Unfinished(w.db)| - limit)
  {
    forall id | id in Unfinished(w'.db) ensures Stuck(w'.db, id, w'.lease, horizon) {
      assert id in Unfinished(w.db) && id !in pass.claimed;
    }
    if pass.now >= horizon {
      assert LapsedBy(w.db, w.lease, pass.now);
      PassClaims(w.db, w.clock, w.lease, limit, pass);
    }
  }

  lemma StillEnough(passes: seq<Pass>, horizon: int, limit: nat, before: nat, after: nat)
    requires passes != [] && MadeBy(passes, horizon) * limit >= before >= after
    requires passes[0].now >= horizon ==> after <= Max(0, before - limit)
    ensures MadeBy(passes[1..], horizon) * limit >= after
  {
    var later := MadeBy(passes[1..], horizon);
    assert (later + 1) * limit == later * limit + limit;
  }

  /** The drain theorem: from any reachable state whose drivers are all dead, recovery passes, whenever made, however
      many before any lease has lapsed and whatever their limit, leave nothing unfinished once the passes made by a
      horizon at which every lease had lapsed, times the limit, cover what was. */
  lemma {:induction false} DrainTheorem(w: World, limit: nat, passes: seq<Pass>, db': Db, store': Store, horizon: int)
    returns (w': World)
    requires Inv(w) && Quiet(w) && w.lease > 0 && LapsedBy(w.db, w.lease, horizon)
    requires Passes(w.db, w.store, w.clock, w.lease, limit, passes, db', store')
    requires MadeBy(passes, horizon) * limit >= |Unfinished(w.db)|
    ensures Steps(w, w') && Inv(w') && Quiet(w') && w'.db == db' && w'.store == store' && Unfinished(db') == {}
    decreases |passes|
  {
    hide Inv, PassOk, AfterPass, Steps, Unfinished, Quiet, LapsedBy;
    if passes == [] {
      StepsNone(w);
      return w;
    }
    var next := OnePass(w, limit, passes[0]);
    HorizonStays(w, limit, passes[0], next, horizon);
    StillEnough(passes, horizon, limit, |Unfinished(w.db)|, |Unfinished(next.db)|);
    hide MadeBy;
    w' := DrainTheorem(next, limit, passes[1..], db', store', horizon);
    StepsTogether(w, next, w');
  }

  // ---- the loop itself ---------------------------------------------------------------------

  lemma RunIsPass(db: Db, store: Store, rows: seq<ClaimedRow>, limit: nat, now: int)
    requires |rows| <= limit && forall i :: 0 <= i < |rows| ==>
      rows[i].id in db.completions && rows[i] == RowOf(db, rows[i].id)
    ensures forall i :: 0 <= i < |rows| ==> Ids(rows)[i] in db.completions
    ensures var (db', store', _)
        := DriveRows(Claim(db, Ids(rows), now), store, rows, AllAnswered(limit)[..|rows|], now);
      (db', store') == AfterPass(db, store, Pass(now, Ids(rows)))
  {
    hide DriveRows;
    assert AllAnswered(limit)[..|rows|] == AllAnswered(|rows|);
    assert RowsFor(db, Ids(rows)) == rows;
  }

  /** What the claiming statement returned over `db`, and what it was to return. */
  ghost predicate ClaimedBy(rows: seq<ClaimedRow>, db: Db, lease: int, limit: nat, now: int)
  {
    && |rows| <= limit && OldestFirst(db.completions, Claimable(db, lease, now, {}), Ids(rows), limit)
    && forall i :: 0 <= i < |rows| ==> rows[i].id in db.completions && rows[i] == RowOf(db, rows[i].id)
  }

  lemma LoopTurn(w: World, rows: seq<ClaimedRow>, limit: nat, now: int, horizon: int) returns (w': World)
    requires Inv(w) && Quiet(w) && w.lease > 0 && now >= w.clock && LapsedBy(w.db, w.lease, horizon)
    requires ClaimedBy(rows, w.db, w.lease, limit, now)
    ensures Steps(w, w') && Inv(w') && Quiet(w') && w'.lease == w.lease && w'.clock == now
    ensures LapsedBy(w'.db, w'.lease, horizon)
    ensures var fates := AllAnswered(limit)[..|rows|];
      var (db', store', _) := DriveRows(Claim(w.db, Ids(rows), now), w.store, rows, fates, now);
      w'.db == db' && w'.store == store'
    ensures |Unfinished(w'.db)| <= |Unfinished(w.db)|
    ensures now >= horizon ==> |Unfinished(w'.db)| <= Max(0, |Unfinished(w.db)| - limit)
  {
    hide Inv, Runs, AfterPass, Steps, DriveRows, LapsedBy;
    var pass := Pass(now, Ids(rows));
    RunIsPass(w.db, w.store, rows, limit, now);
    w' := OnePass(w, limit, pass);
    HorizonStays(w, limit, pass, w', horizon);
  }

  function TimesBy(times: seq<int>, horizon: int): nat
  {
    if times == [] then 0 else
      TimesBy(times[..|times| - 1], horizon) + (if times[|times| - 1] >= horizon then 1 else 0)
  }

  /** Passes at the given times, each over the services as the one before left them. */
  method RecoverAll(checkout: Checkout.Service, inventory: Inventory.Service, lease: int, limit: nat, times: seq<int>,
                    ghost w: World, ghost horizon: int)
    returns (done: nat, ghost w': World)
    requires w.db == checkout.Contents() && w.store == inventory.State() && w.lease == lease > 0 && Inv(w) && Quiet(w)
    requires forall i, j :: 0 <= i <= j < |times| ==> w.clock <= times[i] <= times[j]
    requires LapsedBy(w.db, lease, horizon)
    modifies checkout, inventory
    ensures Steps(w, w') && Inv(w') && Quiet(w') && w'.db == checkout.Contents() && w'.store == inventory.State()
    ensures TimesBy(times, horizon) * limit >= |Unfinished(w.db)| ==> Unfinished(checkout.Contents()) == {}
  {
    hide Inv, Runs, Steps, Quiet, LapsedBy, Claim, DriveRows, OldestFirst, Claimable, Unfinished;
    w' := w;
    StepsNone(w);
    done := 0;
    for n := 0 to |times|
      invariant w'.db == checkout.Contents() && w'.store == inventory.State() && w'.lease == lease
      invariant Steps(w, w') && Inv(w') && Quiet(w') && LapsedBy(w'.db, lease, horizon)
      invariant w'.clock == if n == 0 then w.clock else times[n - 1]
      invariant |Unfinished(w'.db)| <= Max(0, |Unfinished(w.db)| - TimesBy(times[..n], horizon) * limit)
    {
      var count, rows := RunOnce(checkout, inventory, lease, limit, times[n], {}, AllAnswered(limit));
      ghost var before := w';
      w' := LoopTurn(before, rows, limit, times[n], horizon);
      StepsTogether(w, before, w');
      done := done + count;
      assert times[..n + 1][..n] == times[..n];
      assert (TimesBy(times[..n], horizon) + 1) * limit == TimesBy(times[..n], horizon) * limit + limit;
    }
    assert times[..|times|] == times;
  }
}
