/** The recovery loop: claim stuck completions, roll RESERVED forward and everything else back. */
module Recovery {
  import opened Collections
  import opened Inventory
  import opened Checkout

  /** What becomes of one ask before its wait is over: the request is not handled in time, or handled without the
      reply being heard, or answered. */
  datatype Ask = Lost | Unheard | Heard

  /** What happens to one row: its first statement raises, or it goes on to its ask. (A reopen that raises after the
      release was confirmed leaves what an answer not heard leaves.) */
  datatype Fate = Raised | Asked(ask: Ask)

  /** A claimed row as the claiming statement returned it. */
  datatype ClaimedRow = ClaimedRow(id: nat, epoch: nat, state: SagaState, total: int)

  function RowOf(db: Db, id: nat): ClaimedRow
    requires id in db.completions
  {
    var c := db.completions[id];
    ClaimedRow(id, c.epoch, c.state, c.total)
  }

  function Ids(rows: seq<ClaimedRow>): seq<nat>
  {
    seq(|rows|, i requires 0 <= i < |rows| => rows[i].id)
  }

  /** Drive one claimed row; false when it raised or Inventory's confirmation of the release was not heard. */
  ghost function DriveRow(db: Db, store: Store, row: ClaimedRow, fate: Fate, now: int): (Db, Store, bool)
  {
    if fate.Raised? then (db, store, false)
    else if row.state == Reserved then (Finalize(db, row.id, row.total, now).0, store, true)
    else
      var marked := SetState(db, row.id, Compensating, now);
      var (store', outcome) := Release(store, row.id, row.epoch);
      match fate.ask
      case Lost => (marked, store, false)
      case Unheard => (marked, store', false)
      case Heard => if outcome.Some? then (Reopen(marked, row.id, now), store', true) else (marked, store', false)
  }

  ghost function DriveRows(db: Db, store: Store, rows: seq<ClaimedRow>, fates: seq<Fate>, now: int): (Db, Store, nat)
    requires |fates| == |rows|
  {
    if rows == [] then (db, store, 0) else
      var n := |rows| - 1;
      var (db', store', done) := DriveRows(db, store, rows[..n], fates[..n], now);
      var (db'', store'', ok) := DriveRow(db', store', rows[n], fates[n], now);
      (db'', store'', done + if ok then 1 else 0)
  }

  method Drive(checkout: Checkout.Service, inventory: Inventory.Service, row: ClaimedRow, fate: Fate, now: int)
    returns (ok: bool)
    modifies checkout, inventory
    ensures (checkout.Contents(), inventory.State(), ok)
         == DriveRow(old(checkout.Contents()), old(inventory.State()), row, fate, now)
    ensures fate.Raised? ==>
      !ok && checkout.Contents() == old(checkout.Contents()) && inventory.State() == old(inventory.State())
    ensures fate.Asked? && row.state == Reserved ==> ok && inventory.State() == old(inventory.State())
    ensures fate.Asked? && row.state != Reserved ==>
      var (store, outcome) := Release(old(inventory.State()), row.id, row.epoch);
      && (ok <==> fate.ask.Heard? && outcome.Some?)
      && inventory.State() == if fate.ask.Lost? then old(inventory.State()) else store
    ensures fate.Asked? && InProgress(old(checkout.Contents()), row.id) ==>
      && row.id in checkout.txs && row.id in checkout.completions
      && var t, c := checkout.txs[row.id], checkout.completions[row.id];
        if row.state == Reserved then t.status == Completed && t.total == Some(row.total) && c.state == Finished
        else if ok then t.status == Open && c.state == Aborted
        else t.status == Completing && c.state == Compensating
  {
    hide Release;
    if fate.Raised? { return false; }
    if row.state == Reserved {
      var _ := checkout.FinalizeStep(row.id, row.total, now);
      return true;
    }
    checkout.MarkCompensating(row.id, row.epoch, now);
    if fate.ask.Lost? { return false; }
    var outcome := inventory.HandleRelease(row.id, row.epoch);
    if fate.ask.Unheard? || outcome.None? { return false; }
    checkout.ReopenTx(row.id, now);
    return true;
  }

  method DriveAll(checkout: Checkout.Service, inventory: Inventory.Service, rows: seq<ClaimedRow>, fates: seq<Fate>,
                  now: int)
    returns (done: nat)
    requires |fates| == |rows|
    modifies checkout, inventory
    ensures (checkout.Contents(), inventory.State(), done)
         == DriveRows(old(checkout.Contents()), old(inventory.State()), rows, fates, now)
  {
    hide DriveRow;
    ghost var db, store := checkout.Contents(), inventory.State();
    done := 0;
    for n := 0 to |rows|
      invariant (checkout.Contents(), inventory.State(), done) == DriveRows(db, store, rows[..n], fates[..n], now)
    {
      assert rows[..n + 1][..n] == rows[..n] && fates[..n + 1][..n] == fates[..n];
      var ok := Drive(checkout, inventory, rows[n], fates[n], now);
      if ok { done := done + 1; }
    }
    assert rows[..|rows|] == rows && fates[..|rows|] == fates;
  }

  /** One pass; `fates[i]` is what happens to the i-th claimed row. */
  method RunOnce(checkout: Checkout.Service, inventory: Inventory.Service, lease: int, limit: nat, now: int,
                 locked: set<nat>, fates: seq<Fate>)
    returns (done: nat, rows: seq<ClaimedRow>)
    requires |fates| >= limit
    modifies checkout, inventory
    ensures OldestFirst(old(checkout.completions), Claimable(old(checkout.Contents()), lease, now, locked),
                        Ids(rows), limit)
    ensures |rows| <= limit
    ensures (checkout.Contents(), inventory.State(), done)
         == DriveRows(Claim(old(checkout.Contents()), Ids(rows), now),
                      old(inventory.State()), rows, fates[..|rows|], now)
    ensures forall i :: 0 <= i < |rows| ==>
      rows[i].id in old(checkout.completions) && rows[i] == RowOf(old(checkout.Contents()), rows[i].id)
  {
    hide DriveRow, Claim;
    var table := checkout.completions;
    var claimed := checkout.ClaimStuck(lease, limit, now, locked);
    rows := seq(|claimed|, i requires 0 <= i < |claimed| && claimed[i] in table =>
                  ClaimedRow(claimed[i], table[claimed[i]].epoch, table[claimed[i]].state, table[claimed[i]].total));
    assert Ids(rows) == claimed;
    done := DriveAll(checkout, inventory, rows, fates[..|rows|], now);
  }
}
