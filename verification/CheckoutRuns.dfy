/** What Checkout's guarded statements keep, in any order, from any number of concurrent drivers. */
module CheckoutRuns {
  import opened Baskets
  import opened Checkout

  /** Every statement any driver, worker or shopper can issue. The saga only ever writes the states
      RESERVED and COMPENSATING; a takeover rewrites the state it read under the row lock. */
  datatype Stmt =
    | InsertStmt(id: nat)
    | ScanStmt(id: nat, item: Item)
    | BeginStmt(id: nat, lease: int, now: int)
    | ReservedStmt(id: nat, now: int)
    | CompensatingStmt(id: nat, now: int)
    | FinalizeStmt(id: nat, total: int, now: int)
    | ReopenStmt(id: nat, now: int)
    | ClaimStmt(ids: seq<nat>, now: int)
    | SweepStmt(abandoned: set<nat>)

  function Exec(db: Db, stmt: Stmt): Db
  {
    match stmt
    case InsertStmt(id) => Insert(db, id)
    case ScanStmt(id, item) => Scan(db, id, item).0
    case BeginStmt(id, lease, now) => Begin(db, id, lease, now).0
    case ReservedStmt(id, now) => SetState(db, id, Reserved, now)
    case CompensatingStmt(id, now) => SetState(db, id, Compensating, now)
    case FinalizeStmt(id, total, now) => Finalize(db, id, total, now).0
    case ReopenStmt(id, now) => Reopen(db, id, now)
    case ClaimStmt(ids, now) => Claim(db, ids, now)
    case SweepStmt(abandoned) => Sweep(db, abandoned)
  }

  function Run(db: Db, stmts: seq<Stmt>): Db
  {
    if stmts == [] then db else Exec(Run(db, stmts[..|stmts| - 1]), stmts[|stmts| - 1])
  }

  // ---- status and record agree -------------------------------------------------------------

  ghost predicate AgreesAt(db: Db, id: nat)
  {
    if id !in db.completions then
      id in db.txs ==> db.txs[id].status == Open || db.txs[id].status == Cancelled
    else
      && id in db.txs
      && db.completions[id].epoch >= 1
      && (match db.txs[id].status
          case Completing => !Terminal(db.completions[id].state)
          case Completed => db.completions[id].state == Finished
          case Open => db.completions[id].state == Aborted
          case Cancelled => db.completions[id].state == Aborted)
  }

  ghost predicate Agrees(db: Db)
  {
    forall id :: id in db.txs || id in db.completions ==> AgreesAt(db, id)
  }

  function EpochOf(db: Db, id: nat): nat
  {
    if id in db.completions then db.completions[id].epoch else 0
  }

  /** Counters are the items', and a completed or completing transaction has items. */
  ghost predicate Counted(t: Tx)
  {
    && t.itemCount == |t.items|
    && t.runningTotal == SumPrices(t.items)
    && (t.status == Completing || t.status == Completed ==> t.items != [])
  }

  ghost predicate AllCounted(db: Db)
  {
    forall id :: id in db.txs ==> Counted(db.txs[id])
  }

  /** What one statement may do to one transaction: items move only while OPEN, a basket leaves OPEN
      only into COMPLETING or CANCELLED, COMPLETED and CANCELLED are final, and epochs never go back. */
  ghost predicate MayBecome(db: Db, db': Db, id: nat)
    requires id in db.txs
  {
    && id in db'.txs
    && (var t, t' := db.txs[id], db'.txs[id];
        && (t.status != Open ==>
              t'.items == t.items && t'.itemCount == t.itemCount && t'.runningTotal == t.runningTotal)
        && t.items <= t'.items
        && (t.status == Open ==> t'.status != Completed)
        && (t.status == Completing ==> t'.status != Cancelled)
        && (t.status == Completed || t.status == Cancelled ==> t' == t))
    && EpochOf(db', id) >= EpochOf(db, id)
    && (id in db.completions ==> id in db'.completions)
  }

  lemma {:induction false} ClaimTouchesNoState(db: Db, ids: seq<nat>, now: int)
    ensures Claim(db, ids, now).txs == db.txs && Claim(db, ids, now).completions.Keys == db.completions.Keys
    ensures forall id :: id in db.completions ==>
      Claim(db, ids, now).completions[id].state == db.completions[id].state
      && Claim(db, ids, now).completions[id].epoch == db.completions[id].epoch
      && Claim(db, ids, now).completions[id].total == db.completions[id].total
  {
    if ids != [] { ClaimTouchesNoState(db, ids[..|ids| - 1], now); }
  }

  lemma ExecKeepsAgreement(db: Db, stmt: Stmt)
    requires Agrees(db)
    ensures Agrees(Exec(db, stmt))
  {
    if stmt.ClaimStmt? { ClaimTouchesNoState(db, stmt.ids, stmt.now); }
    var db' := Exec(db, stmt);
    forall id | id in db'.txs || id in db'.completions ensures AgreesAt(db', id) {
      assert id in db.txs || id in db.completions ==> AgreesAt(db, id);
    }
  }

  lemma ExecMoves(db: Db, stmt: Stmt, id: nat)
    requires id in db.txs
    ensures MayBecome(db, Exec(db, stmt), id)
  {
    if stmt.ClaimStmt? { ClaimTouchesNoState(db, stmt.ids, stmt.now); }
  }

  lemma ScanKeepsCounts(db: Db, id: nat, item: Item)
    requires id in db.txs ==> Counted(db.txs[id])
    ensures id in db.txs ==> Counted(Scan(db, id, item).0.txs[id])
  {
    if id in db.txs {
      var items := db.txs[id].items;
      assert (items + [item])[..|items|] == items;
    }
  }

  lemma ExecKeepsCounts(db: Db, stmt: Stmt)
    requires AllCounted(db)
    ensures AllCounted(Exec(db, stmt))
  {
    if stmt.ClaimStmt? { ClaimTouchesNoState(db, stmt.ids, stmt.now); }
    if stmt.ScanStmt? { ScanKeepsCounts(db, stmt.id, stmt.item); }
  }

  /** COMPLETING exactly while the record is RESERVING, RESERVED or COMPENSATING; COMPLETED exactly when
      it is; OPEN or CANCELLED exactly when there is no record or it is ABORTED. Any statements, any drivers. */
  lemma {:induction false} StatusAndRecordAgree(db: Db, stmts: seq<Stmt>)
    requires Agrees(db)
    ensures Agrees(Run(db, stmts))
  {
    if stmts != [] {
      StatusAndRecordAgree(db, stmts[..|stmts| - 1]);
      ExecKeepsAgreement(Run(db, stmts[..|stmts| - 1]), stmts[|stmts| - 1]);
    }
  }

  lemma {:induction false} CountersAreTheItems(db: Db, stmts: seq<Stmt>)
    requires AllCounted(db)
    ensures AllCounted(Run(db, stmts))
  {
    if stmts != [] {
      CountersAreTheItems(db, stmts[..|stmts| - 1]);
      ExecKeepsCounts(Run(db, stmts[..|stmts| - 1]), stmts[|stmts| - 1]);
    }
  }

  /** The scans of `id` accepted in a run, in order: those issued while it was OPEN. */
  function Accepted(db: Db, stmts: seq<Stmt>, id: nat): seq<Item>
  {
    if stmts == [] then [] else
      var front, last := stmts[..|stmts| - 1], stmts[|stmts| - 1];
      var before := Run(db, front);
      Accepted(db, front, id) +
        if last.ScanStmt? && last.id == id && id in before.txs && before.txs[id].status == Open then [last.item] else []
  }

  lemma ExecAppends(db: Db, stmt: Stmt, id: nat)
    requires id in db.txs
    ensures id in Exec(db, stmt).txs
    ensures Exec(db, stmt).txs[id].items == db.txs[id].items +
      if stmt.ScanStmt? && stmt.id == id && db.txs[id].status == Open then [stmt.item] else []
  {
    if stmt.ClaimStmt? { ClaimTouchesNoState(db, stmt.ids, stmt.now); }
    hide Claim, SumPrices, Counts;
  }

  /** No accepted scan is lost, repeated or invented: whatever runs, a transaction's items are those it had and then
      the scans of it accepted since, one by one, in order. */
  lemma {:induction false} ItemsAreTheScans(db: Db, stmts: seq<Stmt>, id: nat)
    requires id in db.txs
    ensures id in Run(db, stmts).txs && Run(db, stmts).txs[id].items == db.txs[id].items + Accepted(db, stmts, id)
  {
    if stmts != [] {
      var front, last := stmts[..|stmts| - 1], stmts[|stmts| - 1];
      ItemsAreTheScans(db, front, id);
      ExecAppends(Run(db, front), last, id);
      hide Exec;
    }
  }

  /** Whatever runs, a COMPLETED or CANCELLED transaction stays exactly as it is, baskets only grow, and
      an epoch once given is never given again. */
  lemma {:induction false} FinalStaysFinal(db: Db, stmts: seq<Stmt>, id: nat)
    requires id in db.txs
    ensures var db' := Run(db, stmts);
      && id in db'.txs && db.txs[id].items <= db'.txs[id].items
      && EpochOf(db', id) >= EpochOf(db, id)
      && (db.txs[id].status == Completed || db.txs[id].status == Cancelled ==> db'.txs[id] == db.txs[id])
  {
    if stmts != [] {
      FinalStaysFinal(db, stmts[..|stmts| - 1], id);
      ExecMoves(Run(db, stmts[..|stmts| - 1]), stmts[|stmts| - 1], id);
    }
  }

  /** Still the attempt it was: COMPLETING or COMPLETED, under the same epoch. */
  ghost predicate SameAttempt(db: Db, id: nat, epoch: nat)
  {
    id in db.txs && (db.txs[id].status == Completing || db.txs[id].status == Completed) && EpochOf(db, id) == epoch
  }

  ghost predicate SameBasket(db: Db, db': Db, id: nat)
    requires id in db.txs && id in db'.txs
  {
    && db'.txs[id].items == db.txs[id].items && db'.txs[id].itemCount == db.txs[id].itemCount
    && db'.txs[id].runningTotal == db.txs[id].runningTotal
    && (id in db.completions ==> id in db'.completions && db'.completions[id].total == db.completions[id].total)
  }

  /** A statement after which the attempt is still that attempt found it so: a reopened transaction completes under a
      new epoch only. And it left the basket and the recorded total alone. */
  lemma AttemptCameFrom(db: Db, stmt: Stmt, id: nat, epoch: nat)
    requires Agrees(db) && id in db.txs && 1 <= epoch <= EpochOf(db, id) && SameAttempt(Exec(db, stmt), id, epoch)
    ensures SameAttempt(db, id, epoch) && SameBasket(db, Exec(db, stmt), id)
  {
    assert AgreesAt(db, id);
    hide SumPrices, Counts, Agrees;
    if stmt.ClaimStmt? { ClaimTouchesNoState(db, stmt.ids, stmt.now); }
    ExecMoves(db, stmt, id);
    hide Claim;
  }

  /** The basket is frozen from begin to COMPLETED: from a COMPLETING transaction, whatever statements any drivers and
      shoppers issue, if it is later COMPLETING or COMPLETED under the same epoch then no scan has landed, and its
      items, count, running total and recorded total are as they were. */
  lemma {:induction false} BasketFrozen(db: Db, stmts: seq<Stmt>, id: nat)
    requires Agrees(db) && id in db.txs && db.txs[id].status == Completing
    ensures id in Run(db, stmts).txs
    ensures SameAttempt(Run(db, stmts), id, EpochOf(db, id)) ==> SameBasket(db, Run(db, stmts), id)
    decreases |stmts|
  {
    FinalStaysFinal(db, stmts, id);
    assert AgreesAt(db, id);
    if stmts != [] && SameAttempt(Run(db, stmts), id, EpochOf(db, id)) {
      var front := stmts[..|stmts| - 1];
      BasketFrozen(db, front, id);
      StatusAndRecordAgree(db, front);
      FinalStaysFinal(db, front, id);
      hide AgreesAt;
      AttemptCameFrom(Run(db, front), stmts[|stmts| - 1], id, EpochOf(db, id));
      hide Exec, Agrees;
    }
  }

  /** What an attempt finishes with is what it began with: the lines it asked for and the total it recorded are those
      of the basket it ends on. */
  lemma AttemptEndsAsBegun(db: Db, id: nat, lease: int, now: int, stmts: seq<Stmt>)
    requires Agrees(db) && Begin(db, id, lease, now).1.Started?
    ensures var (begun, r) := Begin(db, id, lease, now);
      var db' := Run(begun, stmts);
      SameAttempt(db', id, r.epoch) ==>
        && db'.txs[id].items == db.txs[id].items && Counts(db'.txs[id].items) == r.lines
        && id in db'.completions && db'.completions[id].total == r.total == SumPrices(db'.txs[id].items)
  {
    hide Counts, SumPrices;
    var begun := Begin(db, id, lease, now).0;
    assert begun == Exec(db, BeginStmt(id, lease, now));
    ExecKeepsAgreement(db, BeginStmt(id, lease, now));
    hide Agrees, Exec;
    BasketFrozen(begun, stmts, id);
  }
}
