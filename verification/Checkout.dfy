/** Checkout's tables and the guarded statements that move a transaction and its completion record. */
module Checkout {
  import opened Collections
  import opened Skus
  import opened Baskets
  import opened Inventory

  datatype Status = Open | Completing | Completed | Cancelled

  datatype SagaState = Reserving | Reserved | Compensating | Finished | Aborted

  /** A transaction row with its items. `total` is the amount recorded when it completes. */
  datatype Tx = Tx(status: Status, itemCount: int, runningTotal: int, total: Option<int>, items: seq<Item>)

  datatype Completion = Completion(epoch: nat, state: SagaState, total: int, attempts: nat, updatedAt: int)

  datatype Db = Db(txs: map<nat, Tx>, completions: map<nat, Completion>)

  predicate Terminal(state: SagaState)
  {
    state == Finished || state == Aborted
  }

  /** The transaction is COMPLETING and its record is not final. */
  predicate InProgress(db: Db, id: nat)
  {
    id in db.txs && db.txs[id].status == Completing && id in db.completions && !Terminal(db.completions[id].state)
  }

  // ---- one function a statement ------------------------------------------------------------

  function Insert(db: Db, id: nat): Db
  {
    if id in db.txs then db else db.(txs := db.txs[id := Tx(Open, 0, 0, None, [])])
  }

  /** Guarded by status OPEN: counters and item move together. */
  function Scan(db: Db, id: nat, item: Item): (Db, bool)
  {
    if id in db.txs && db.txs[id].status == Open then
      var t := db.txs[id];
      (db.(txs := db.txs[id := t.(itemCount := t.itemCount + 1, runningTotal := t.runningTotal + item.price,
                                  items := t.items + [item])]), true)
    else (db, false)
  }

  /** Start an attempt: COMPLETING, and a RESERVING record under the next epoch. */
  function MarkCompleting(db: Db, id: nat, total: int, now: int): Db
    requires id in db.txs
  {
    var epoch := if id in db.completions then db.completions[id].epoch + 1 else 1;
    Db(db.txs[id := db.txs[id].(status := Completing)],
       db.completions[id := Completion(epoch, Reserving, total, 0, now)])
  }

  /** Keyed by the transaction alone, and refused once the record is terminal. */
  function SetState(db: Db, id: nat, state: SagaState, now: int): Db
  {
    if id in db.completions && !Terminal(db.completions[id].state) then
      db.(completions := db.completions[id := db.completions[id].(state := state, updatedAt := now)])
    else db
  }

  /** Guarded by status COMPLETING. */
  function Finalize(db: Db, id: nat, total: int, now: int): (Db, bool)
  {
    if id in db.txs && db.txs[id].status == Completing then
      (Db(db.txs[id := db.txs[id].(status := Completed, total := Some(total))],
          if id in db.completions
          then db.completions[id := db.completions[id].(state := Finished, updatedAt := now)]
          else db.completions), true)
    else (db, false)
  }

  /** Guarded by status COMPLETING; the record stays, so the next attempt gets the next epoch. */
  function Reopen(db: Db, id: nat, now: int): Db
  {
    if id in db.txs && db.txs[id].status == Completing then
      Db(db.txs[id := db.txs[id].(status := Open)],
         if id in db.completions && !Terminal(db.completions[id].state)
         then db.completions[id := db.completions[id].(state := Aborted, updatedAt := now)]
         else db.completions)
    else db
  }

  /** `updated_at > now() - lease`. */
  predicate LeaseHeld(c: Completion, lease: int, now: int)
  {
    c.updatedAt > now - lease
  }

  /** The rows the recovery loop may claim. */
  predicate Stuck(db: Db, id: nat, lease: int, now: int)
  {
    id in db.completions && !Terminal(db.completions[id].state) && db.completions[id].updatedAt < now - lease
  }

  /** SKIP LOCKED: the stuck rows no other worker has locked. */
  ghost function Claimable(db: Db, lease: int, now: int, locked: set<nat>): set<nat>
  {
    set id | id in db.completions && Stuck(db, id, lease, now) && id !in locked
  }

  /** `claimed` are the oldest of the eligible rows, oldest first, fewer than `limit` only if that is all of them. */
  ghost predicate OldestFirst(table: map<nat, Completion>, eligible: set<nat>, claimed: seq<nat>, limit: nat)
    requires eligible <= table.Keys
  {
    && |claimed| <= limit
    && (forall i :: 0 <= i < |claimed| ==> claimed[i] in eligible)
    && (forall i, j :: 0 <= i < j < |claimed| ==>
          claimed[i] != claimed[j] && table[claimed[i]].updatedAt <= table[claimed[j]].updatedAt)
    && (forall id :: id in eligible && id !in claimed ==>
          |claimed| == limit && forall i :: 0 <= i < |claimed| ==> table[claimed[i]].updatedAt <= table[id].updatedAt)
  }

  lemma ClaimedAreLapsed(db: Db, lease: int, now: int, locked: set<nat>, claimed: seq<nat>, limit: nat)
    requires OldestFirst(db.completions, Claimable(db, lease, now, locked), claimed, limit)
    ensures |claimed| <= limit && forall i, j :: 0 <= i < j < |claimed| ==> claimed[i] != claimed[j]
    ensures forall id :: id in claimed ==>
      && id in db.completions && db.completions[id].updatedAt < now - lease && id !in locked
      && db.completions[id].state in {Reserving, Reserved, Compensating}
    ensures forall i, j :: 0 <= i < j < |claimed| ==>
      db.completions[claimed[i]].updatedAt <= db.completions[claimed[j]].updatedAt
    ensures forall id :: id in db.completions && id !in locked && id !in claimed ==>
      var c := db.completions[id];
      || c.updatedAt >= now - lease || c.state == Finished || c.state == Aborted
      || (|claimed| == limit && forall other :: other in claimed ==> db.completions[other].updatedAt <= c.updatedAt)
  {
  }

  function ClaimOne(db: Db, id: nat, now: int): Db
  {
    if id in db.completions then
      var c := db.completions[id];
      db.(completions := db.completions[id := c.(updatedAt := now, attempts := c.attempts + 1)])
    else db
  }

  function Claim(db: Db, ids: seq<nat>, now: int): Db
  {
    if ids == [] then db else ClaimOne(Claim(db, ids[..|ids| - 1], now), ids[|ids| - 1], now)
  }

  /** The row as a worker that claimed it leaves it. */
  function Renewed(c: Completion, now: int): Completion
  {
    c.(updatedAt := now, attempts := c.attempts + 1)
  }

  /** Claiming renews each claimed row's lease and counts the attempt, once, and touches nothing else. */
  lemma {:induction false} ClaimRenews(db: Db, ids: seq<nat>, now: int)
    requires forall i, j :: 0 <= i < j < |ids| ==> ids[i] != ids[j]
    ensures var db' := Claim(db, ids, now);
      && db'.txs == db.txs
      && db'.completions == map id | id in db.completions ::
           if id in ids then Renewed(db.completions[id], now) else db.completions[id]
  {
    if ids != [] {
      var front := ids[..|ids| - 1];
      ClaimRenews(db, front, now);
      assert ids == front + [ids[|ids| - 1]];
    }
  }

  /** Abandoned baskets: of the given transactions, those still OPEN are cancelled. */
  function Sweep(db: Db, ids: set<nat>): Db
  {
    db.(txs := map id | id in db.txs ::
          if id in ids && db.txs[id].status == Open then db.txs[id].(status := Cancelled) else db.txs[id])
  }

  // ---- step 1 ------------------------------------------------------------------------------

  datatype BeginResult =
    | NotFound
    | NotOpen
    | EmptyBasket
    | Started(epoch: nat, lines: Lines, total: int)
    | OwesRelease(epoch: nat)
    | InFlight
    | TookOver(epoch: nat, lines: Lines, total: int)
    | NoRecord

  /** Start, take over, or refuse; what is reserved and charged comes from the scanned items. */
  function Begin(db: Db, id: nat, lease: int, now: int): (Db, BeginResult)
  {
    if id !in db.txs then (db, NotFound) else
      var t := db.txs[id];
      if t.status == Completed || t.status == Cancelled then (db, NotOpen)
      else if t.status == Open then
        if t.items == [] then (db, EmptyBasket) else
          var total := SumPrices(t.items);
          var db' := MarkCompleting(db, id, total, now);
          (db', Started(db'.completions[id].epoch, Counts(t.items), total))
      else if id !in db.completions then (db, NoRecord)
      else
        var c := db.completions[id];
        if c.state == Compensating then (db, OwesRelease(c.epoch))
        else if LeaseHeld(c, lease, now) then (db, InFlight)
        else (SetState(db, id, c.state, now), TookOver(c.epoch, Counts(t.items), c.total))
  }

  /** What step 1 answers and writes, row by row: only an OPEN basket with items starts, under a new epoch; only a
      RESERVING or RESERVED record whose lease has run out is taken over; a COMPENSATING one owes its release. */
  lemma BeginDecides(db: Db, id: nat, lease: int, now: int)
    ensures var (db', r) := Begin(db, id, lease, now);
      && (r.NotFound? <==> id !in db.txs)
      && (id in db.txs && db.txs[id].status == Open ==>
            var items, total := db.txs[id].items, SumPrices(db.txs[id].items);
            var epoch := if id in db.completions then db.completions[id].epoch + 1 else 1;
            if items == [] then r == EmptyBasket else
              && r == Started(epoch, Counts(items), total)
              && db' == Db(db.txs[id := db.txs[id].(status := Completing)],
                           db.completions[id := Completion(epoch, Reserving, total, 0, now)]))
      && (id in db.txs && db.txs[id].status == Completing && id in db.completions ==>
            var c := db.completions[id];
            if c.state == Compensating then r == OwesRelease(c.epoch)
            else if c.updatedAt > now - lease then r == InFlight
            else
              && r == TookOver(c.epoch, Counts(db.txs[id].items), c.total)
              && (c.state == Reserving || c.state == Reserved ==>
                    db' == db.(completions := db.completions[id := c.(updatedAt := now)])))
      && (id in db.txs && (db.txs[id].status == Completed || db.txs[id].status == Cancelled) ==> r == NotOpen)
      && (!r.Started? && !r.TookOver? ==> db' == db)
  {
    hide SumPrices, Counts;
  }

  lemma BasketMeans(items: seq<Item>)
    ensures Basket(items) == [] <==> items == []
    ensures BasketTotal(Basket(items)) == SumPrices(items)
    ensures Merge(Pairs(Basket(items))) == Counts(items)
  {
    BasketAccounts(items, "");
    LinesAreScanCounts(items);
  }

  // ---- the service's local transactions ----------------------------------------------------

  class Service {
    var txs: map<nat, Tx>
    var completions: map<nat, Completion>
    var outbox: seq<Request>

    ghost function Contents(): Db
      reads this
    {
      Db(txs, completions)
    }

    constructor ()
      ensures Contents() == Db(map[], map[]) && outbox == []
    {
      txs, completions, outbox := map[], map[], [];
    }

    /** The new item count and running total, or nothing when the transaction is missing or not OPEN. */
    method ScanItem(id: nat, sku: Sku, price: int) returns (counters: Option<(int, int)>)
      modifies this`txs
      ensures (Contents(), counters.Some?) == Scan(old(Contents()), id, Item(sku, price))
      ensures counters.Some? <==> id in old(txs) && old(txs)[id].status == Open
      ensures counters.Some? ==>
        var t, count, total := old(txs)[id], old(txs)[id].itemCount + 1, old(txs)[id].runningTotal + price;
        && counters.value == (count, total)
        && txs == old(txs)[id := Tx(Open, count, total, t.total, t.items + [Item(sku, price)])]
      ensures counters.None? ==> txs == old(txs)
    {
      if id !in txs || txs[id].status != Open { return None; }
      var t := txs[id];
      txs := txs[id := t.(itemCount := t.itemCount + 1, runningTotal := t.runningTotal + price,
                          items := t.items + [Item(sku, price)])];
      counters := Some((txs[id].itemCount, txs[id].runningTotal));
    }

    /** Decide under the row lock; a fresh attempt queues its reservation request in the same transaction. */
    method BeginCompletion(id: nat, lease: int, now: int) returns (r: BeginResult)
      modifies this
      ensures (Contents(), r) == Begin(old(Contents()), id, lease, now)
      ensures outbox == if r.Started? then old(outbox) + [ReserveReq(id, r.epoch, r.lines)] else old(outbox)
    {
      hide Basket, BasketTotal, SumPrices, Counts, Merge, Pairs, SetState, ListsInOrder;
      if id !in txs { return NotFound; }
      var t := txs[id];
      if t.status != Open && t.status != Completing { return NotOpen; }
      var basket := Basket(t.items);
      BasketMeans(t.items);
      if t.status == Open {
        if |basket| == 0 { return EmptyBasket; }
        var total := TotalOf(basket);
        var lines, inOrder := Baskets.Lines(basket);
        var epoch := if id in completions then completions[id].epoch + 1 else 1;
        txs := txs[id := t.(status := Completing)];
        completions := completions[id := Completion(epoch, Reserving, total, 0, now)];
        outbox := outbox + [ReserveReq(id, epoch, lines)];
        return Started(epoch, lines, total);
      }
      if id !in completions { return NoRecord; }
      var c := completions[id];
      if c.state == Compensating { return OwesRelease(c.epoch); }
      if LeaseHeld(c, lease, now) { return InFlight; }
      SetCompletionState(id, c.state, now);
      var lines, inOrder := Baskets.Lines(basket);
      return TookOver(c.epoch, lines, c.total);
    }

    method SetCompletionState(id: nat, state: SagaState, now: int)
      modifies this`completions
      ensures Contents() == SetState(old(Contents()), id, state, now)
      ensures completions ==
        if id in old(completions) && old(completions)[id].state != Finished && old(completions)[id].state != Aborted
        then old(completions)[id := old(completions)[id].(state := state, updatedAt := now)]
        else old(completions)
    {
      if id in completions && completions[id].state != Finished && completions[id].state != Aborted {
        completions := completions[id := completions[id].(state := state, updatedAt := now)];
      }
    }

    /** COMPENSATING and the release it owes, in one transaction. */
    method MarkCompensating(id: nat, epoch: nat, now: int)
      modifies this`completions, this`outbox
      ensures Contents() == SetState(old(Contents()), id, Compensating, now)
      ensures id in old(completions) && old(completions)[id].state != Finished && old(completions)[id].state != Aborted
        ==> completions == old(completions)[id := old(completions)[id].(state := Compensating, updatedAt := now)]
      ensures outbox == old(outbox) + [ReleaseReq(id, epoch)]
    {
      SetCompletionState(id, Compensating, now);
      outbox := outbox + [ReleaseReq(id, epoch)];
    }

    method ReopenTx(id: nat, now: int)
      modifies this`txs, this`completions
      ensures Contents() == Reopen(old(Contents()), id, now)
      ensures id in old(txs) && old(txs)[id].status == Completing ==>
        && txs == old(txs)[id := old(txs)[id].(status := Open)]
        && (id in old(completions) && old(completions)[id].state != Finished && old(completions)[id].state != Aborted
            ==> completions == old(completions)[id := old(completions)[id].(state := Aborted, updatedAt := now)])
      ensures !(id in old(txs) && old(txs)[id].status == Completing) ==> Contents() == old(Contents())
    {
      if id in txs && txs[id].status == Completing {
        txs := txs[id := txs[id].(status := Open)];
        if id in completions && !Terminal(completions[id].state) {
          completions := completions[id := completions[id].(state := Aborted, updatedAt := now)];
        }
      }
    }

    method FinalizeStep(id: nat, total: int, now: int) returns (done: bool)
      modifies this`txs, this`completions
      ensures (Contents(), done) == Finalize(old(Contents()), id, total, now)
      ensures done <==> id in old(txs) && old(txs)[id].status == Completing
      ensures done ==>
        && txs == old(txs)[id := old(txs)[id].(status := Completed, total := Some(total))]
        && (id in old(completions) ==>
              completions == old(completions)[id := old(completions)[id].(state := Finished, updatedAt := now)])
      ensures !done ==> Contents() == old(Contents())
    {
      done := id in txs && txs[id].status == Completing;
      if done {
        txs := txs[id := txs[id].(status := Completed, total := Some(total))];
        if id in completions {
          completions := completions[id := completions[id].(state := Finished, updatedAt := now)];
        }
      }
    }

    /** Claim up to `limit` stuck rows, oldest first, skipping rows another worker has locked. */
    method ClaimStuck(lease: int, limit: nat, now: int, locked: set<nat>) returns (claimed: seq<nat>)
      modifies this`completions
      ensures Contents() == Claim(old(Contents()), claimed, now)
      ensures OldestFirst(old(completions), Claimable(old(Contents()), lease, now, locked), claimed, limit)
      ensures forall id :: id in claimed ==>
        && id in old(completions) && old(completions)[id].updatedAt < now - lease && id !in locked
        && old(completions)[id].state in {Reserving, Reserved, Compensating}
      ensures |claimed| <= limit && forall i, j :: 0 <= i < j < |claimed| ==>
        claimed[i] != claimed[j] && old(completions)[claimed[i]].updatedAt <= old(completions)[claimed[j]].updatedAt
      ensures forall id :: id in old(completions) && id !in locked && id !in claimed ==>
        var c := old(completions)[id];
        || c.updatedAt >= now - lease || c.state == Finished || c.state == Aborted
        || (|claimed| == limit && forall other :: other in claimed ==> old(completions)[other].updatedAt <= c.updatedAt)
      ensures completions == map id | id in old(completions) ::
        if id in claimed then Renewed(old(completions)[id], now) else old(completions)[id]
    {
      ghost var db := Contents();
      hide OldestFirst, Claim, Renewed;
      var table := completions;
      var eligible := set id |
        id in table && !Terminal(table[id].state) && table[id].updatedAt < now - lease && id !in locked;
      claimed := TakeOldest(table, eligible, limit);
      assert eligible == Claimable(db, lease, now, locked);
      hide Claimable, Stuck;
      Renew(claimed, now);
      ClaimedAreLapsed(db, lease, now, locked, claimed, limit);
      ClaimRenews(db, claimed, now);
    }

    /** `SET updated_at = now(), attempts = attempts + 1` for each of the ids. */
    method Renew(ids: seq<nat>, now: int)
      modifies this`completions
      ensures Contents() == Claim(old(Contents()), ids, now)
    {
      ghost var db := Contents();
      for n := 0 to |ids|
        invariant Contents() == Claim(db, ids[..n], now)
      {
        var id := ids[n];
        assert ids[..n + 1][..n] == ids[..n];
        if id in completions {
          var c := completions[id];
          completions := completions[id := c.(updatedAt := now, attempts := c.attempts + 1)];
        }
      }
      assert ids[..|ids|] == ids;
    }

    static method TakeOldest(table: map<nat, Completion>, eligible: set<nat>, limit: nat) returns (claimed: seq<nat>)
      requires eligible <= table.Keys
      ensures OldestFirst(table, eligible, claimed, limit)
    {
      var left := eligible;
      claimed := [];
      while left != {} && |claimed| < limit
        invariant left <= eligible && |claimed| <= limit
        invariant forall i :: 0 <= i < |claimed| ==> claimed[i] in eligible && claimed[i] !in left
        invariant forall id :: id in eligible ==> id in left || id in claimed
        invariant forall i, id :: 0 <= i < |claimed| && id in left ==>
          table[claimed[i]].updatedAt <= table[id].updatedAt
        invariant forall i, j :: 0 <= i < j < |claimed| ==>
          claimed[i] != claimed[j] && table[claimed[i]].updatedAt <= table[claimed[j]].updatedAt
        decreases left
      {
        var id := OldestOf(table, left);
        claimed := claimed + [id];
        left := left - {id};
      }
    }

    static method OldestOf(table: map<nat, Completion>, ids: set<nat>) returns (oldest: nat)
      requires ids != {} && forall id :: id in ids ==> id in table
      ensures oldest in ids && forall id :: id in ids ==> table[oldest].updatedAt <= table[id].updatedAt
    {
      oldest :| oldest in ids;
      var left := ids - {oldest};
      while left != {}
        invariant oldest in ids && left <= ids
        invariant forall id :: id in ids - left ==> table[oldest].updatedAt <= table[id].updatedAt
        decreases left
      {
        var id :| id in left;
        if table[id].updatedAt < table[oldest].updatedAt { oldest := id; }
        left := left - {id};
      }
    }

    method SweepAbandoned(abandoned: set<nat>)
      modifies this`txs
      ensures Contents() == Sweep(old(Contents()), abandoned)
      ensures txs.Keys == old(txs).Keys && forall id :: id in txs ==>
        var t := old(txs)[id];
        txs[id] == if id in abandoned && t.status == Open then t.(status := Cancelled) else t
    {
      txs := map id | id in txs ::
        if id in abandoned && txs[id].status == Open then txs[id].(status := Cancelled) else txs[id];
    }
  }
}
