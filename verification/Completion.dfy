/** `complete` and `rollback`, statement by statement over the two services: each call is a run of the saga. */
module Completion {
  import opened Collections
  import opened Skus
  import opened Baskets
  import opened Inventory
  import opened Checkout
  import opened Saga
  import opened SagaInvariant
  import opened SagaTheorems
  import opened Recovery
  import opened RecoveryPass
  import opened Drain
  import CR = CheckoutRuns

  datatype Outcome =
    | Receipt(total: int)
    | NotFound
    | NotOpen
    | EmptyBasket
    | Insufficient(short: set<Sku>)
    | RolledBack
    | Unavailable

  /** The services hold what the world holds. */
  ghost predicate Shows(w: World, checkout: Checkout.Service, inventory: Inventory.Service, now: int)
    reads checkout, inventory
  {
    w.db == checkout.Contents() && w.store == inventory.State() && w.clock == now && w.lease > 0
  }

  /** Driver `d` works on the attempt, within its lease, and stands at `pc`. */
  ghost predicate Standing(w: World, d: nat, id: nat, epoch: nat, pc: Pc)
  {
    && d in w.drivers && w.drivers[d].tx == id && w.drivers[d].epoch == epoch && w.drivers[d].pc == pc
    && w.drivers[d].touched == w.clock && w.lease > 0 && !w.drivers[d].recovering
  }

  /** The driver is done, and no other was touched. */
  ghost predicate DoneWith(w: World, d: nat, w': World)
  {
    w'.drivers == w.drivers - {d} && w'.clock == w.clock && w'.lease == w.lease
  }

  // ---- rollback ----------------------------------------------------------------------------

  lemma ReleaseAnswers(store: Store, tx: nat, epoch: nat)
    ensures var reply := Release(store, tx, epoch).1;
      reply.Some? ==> reply.value.ReleasedReply? && reply.value.Key() == (tx, epoch)
  {
  }

  lemma CompensateStep(w: World, d: nat)
    requires Live(w, d) && w.drivers[d].pc == MustCompensate
    ensures var dr, l := w.drivers[d], Compensate(d);
      && Enabled(w, l) && Premised(w, l)
      && Apply(w, l) == w.(db := SetState(w.db, dr.tx, Compensating, w.clock),
                           sent := w.sent + {Req(ReleaseReq(dr.tx, dr.epoch))},
                           drivers := w.drivers[d := dr.(pc := AskRelease, touched := w.clock)])
  {
    hide SetState;
  }

  lemma ReleaseStep(w: World, tx: nat, epoch: nat)
    requires Req(ReleaseReq(tx, epoch)) in w.sent
    ensures var l, (store, reply) := HandleRequest(ReleaseReq(tx, epoch)), Release(w.store, tx, epoch);
      && Enabled(w, l) && Premised(w, l)
      && Apply(w, l) == w.(store := store, sent := if reply.Some? then w.sent + {Rep(reply.value)} else w.sent)
  {
    hide Release;
  }

  lemma ReopenStep(w: World, d: nat, rep: Reply)
    requires Live(w, d) && w.drivers[d].pc == AskRelease && Rep(rep) in w.sent
    requires rep.ReleasedReply? && rep.Key() == (w.drivers[d].tx, w.drivers[d].epoch)
    ensures Enabled(w, Hear(d, rep)) && Premised(w, Hear(d, rep))
    ensures var told, l := Apply(w, Hear(d, rep)), Saga.ReopenTx(d);
      && Enabled(told, l) && Premised(told, l)
      && Apply(told, l) == w.(db := Reopen(w.db, w.drivers[d].tx, w.clock), drivers := w.drivers - {d})
  {
    hide Reopen;
    assert w.drivers[d := w.drivers[d].(pc := MustReopen)] - {d} == w.drivers - {d};
  }

  lemma GiveUpStep(w: World, d: nat)
    requires d in w.drivers && w.drivers[d].pc == AskRelease
    ensures Enabled(w, GiveUp(d)) && Premised(w, GiveUp(d))
    ensures Apply(w, GiveUp(d)) == w.(drivers := w.drivers - {d})
  {
  }

  /** Record COMPENSATING with the release it owes, ask for the release, reopen once it is confirmed. */
  method Rollback(checkout: Checkout.Service, inventory: Inventory.Service, id: nat, epoch: nat, ask: Ask, now: int,
                  ghost w: World, ghost d: nat)
    returns (ok: bool, ghost w': World)
    requires Shows(w, checkout, inventory, now) && Standing(w, d, id, epoch, MustCompensate)
    modifies checkout, inventory
    ensures Steps(w, w') && Shows(w', checkout, inventory, now) && DoneWith(w, d, w')
    ensures var marked := SetState(w.db, id, Compensating, now);
      w'.db == if ok then Reopen(marked, id, now) else marked
    ensures w'.store == if ask.Lost? then w.store else Release(w.store, id, epoch).0
    ensures ok <==> ask.Heard? && Release(w.store, id, epoch).1.Some?
  {
    hide Runs, Release, SetState, Reopen, Steps, Apply, Enabled, Premised;
    StepsNone(w);
    CompensateStep(w, d);
    checkout.MarkCompensating(id, epoch, now);
    StepsThen(w, w, Compensate(d));
    w' := Apply(w, Compensate(d));
    var outcome: Option<Reply> := None;
    if !ask.Lost? {
      ReleaseStep(w', id, epoch);
      outcome := inventory.HandleRelease(id, epoch);
      StepsThen(w, w', HandleRequest(ReleaseReq(id, epoch)));
      w' := Apply(w', HandleRequest(ReleaseReq(id, epoch)));
    }
    if !ask.Heard? || outcome.None? {
      GiveUpStep(w', d);
      StepsThen(w, w', GiveUp(d));
      w' := Apply(w', GiveUp(d));
      assert w'.drivers == w.drivers - {d};
      return false, w';
    }
    ReleaseAnswers(w.store, id, epoch);
    ReopenStep(w', d, outcome.value);
    StepsThen(w, w', Hear(d, outcome.value));
    ghost var told := Apply(w', Hear(d, outcome.value));
    checkout.ReopenTx(id, now);
    StepsThen(w, told, Saga.ReopenTx(d));
    w' := Apply(told, Saga.ReopenTx(d));
    assert w'.drivers == w.drivers - {d};
    ok := true;
  }

  // ---- step 2 ------------------------------------------------------------------------------

  lemma ReserveAnswers(store: Store, tx: nat, epoch: nat, lines: Lines)
    ensures var reply := Reserve(store, tx, epoch, lines).1;
      !reply.ReleasedReply? && reply.Key() == (tx, epoch)
  {
  }

  /** Ask Inventory for the stock and wait for the reply that belongs to this attempt. */
  method AskForStock(inventory: Inventory.Service, id: nat, epoch: nat, lines: Lines, ask: Ask, ghost w: World,
                     ghost d: nat)
    returns (reply: Option<Reply>, ghost w': World)
    requires w.store == inventory.State() && Standing(w, d, id, epoch, AskReserve) && w.drivers[d].lines == lines
    modifies inventory
    ensures Steps(w, w') && w'.store == inventory.State() && w'.db == w.db && w'.clock == w.clock && w'.lease == w.lease
    ensures d in w'.drivers && w'.drivers == w.drivers[d := w'.drivers[d]] && w'.drivers[d].total == w.drivers[d].total
    ensures w'.store == if ask.Lost? then w.store else Reserve(w.store, id, epoch, lines).0
    ensures reply == if ask.Heard? then Some(Reserve(w.store, id, epoch, lines).1) else None
    ensures Standing(w', d, id, epoch,
      if reply.None? then MustCompensate else if reply.value.ReservedReply? then GotReserved else MustReopen)
  {
    hide Runs, Reserve;
    StepsNone(w);
    StepsThen(w, w, Publish(d));
    w' := Apply(w, Publish(d));
    if !ask.Lost? {
      var listed := SortedItems(lines);
      MergeOfListing(listed, lines);
      var answer := inventory.HandleReservation(id, epoch, listed);
      ReserveAnswers(w.store, id, epoch, lines);
      StepsThen(w, w', HandleRequest(ReserveReq(id, epoch, lines)));
      w' := Apply(w', HandleRequest(ReserveReq(id, epoch, lines)));
      if ask.Heard? {
        StepsThen(w, w', Hear(d, answer));
        w' := Apply(w', Hear(d, answer));
        return Some(answer), w';
      }
    }
    StepsThen(w, w', GiveUp(d));
    w' := Apply(w', GiveUp(d));
    reply := None;
  }

  // ---- step 3 ------------------------------------------------------------------------------

  /** Record RESERVED, then finalize; a finalize that raises is rolled back. */
  method Finish(checkout: Checkout.Service, inventory: Inventory.Service, id: nat, epoch: nat, total: int,
                raises: bool, ask: Ask, now: int, ghost w: World, ghost d: nat)
    returns (outcome: Outcome, ghost w': World)
    requires Shows(w, checkout, inventory, now) && Standing(w, d, id, epoch, GotReserved) && w.drivers[d].total == total
    requires id in w.db.txs
    modifies checkout, inventory
    ensures Steps(w, w') && Shows(w', checkout, inventory, now) && DoneWith(w, d, w')
    ensures outcome.Receipt? || outcome.RolledBack? || outcome.Unavailable?
    ensures InProgress(w.db, id) ==> Concluded(outcome, w', id)
    ensures outcome.Receipt? ==> outcome.total == total && id in w'.db.txs && w'.db.txs[id].status == Completed
    ensures !raises ==>
      && w'.store == w.store
      && (w.db.txs[id].status == Completing || w.db.txs[id].status == Completed ==> outcome == Receipt(total))
      && (w.db.txs[id].status == Open || w.db.txs[id].status == Cancelled ==> outcome == RolledBack)
    ensures raises ==>
      var (store, reply) := Release(w.store, id, epoch);
      && w'.store == (if ask.Lost? then w.store else store)
      && outcome == if ask.Heard? && reply.Some? then RolledBack else Unavailable
  {
    hide Release;
    hide Runs;
    StepsNone(w);
    checkout.SetCompletionState(id, Reserved, now);
    StepsThen(w, w, SetReserved(d));
    w' := Apply(w, SetReserved(d));
    if raises {
      StepsThen(w, w', FinalizeFails(d));
      w' := Apply(w', FinalizeFails(d));
      ghost var before := w';
      var ok;
      ok, w' := Rollback(checkout, inventory, id, epoch, ask, now, w', d);
      StepsTogether(w, before, w');
      return if ok then RolledBack else Unavailable, w';
    }
    var done := checkout.FinalizeStep(id, total, now);
    StepsThen(w, w', FinalizeTx(d));
    w' := Apply(w', FinalizeTx(d));
    outcome := if done || checkout.txs[id].status == Completed then Receipt(total) else RolledBack;
  }

  /** What each answer to the caller says about the transaction. */
  ghost predicate Concluded(outcome: Outcome, w: World, id: nat)
  {
    match outcome
    case Receipt(total) => id in w.db.txs && w.db.txs[id].status == Completed && w.db.txs[id].total == Some(total)
    case Insufficient(short) => id in w.db.txs && w.db.txs[id].status == Open
    case RolledBack => id in w.db.txs && w.db.txs[id].status == Open
    case NotFound => id !in w.db.txs
    case EmptyBasket => id in w.db.txs && w.db.txs[id].status == Open && w.db.txs[id].items == []
    case NotOpen => id in w.db.txs && w.db.txs[id].status != Open
    case Unavailable =>
      id in w.db.txs && (w.db.txs[id].status == Open
        || (w.db.txs[id].status == Completing && id in w.db.completions && w.db.completions[id].state == Compensating))
  }

  /** How an attempt ends, by what becomes of its two asks and its finalize. No reply heard: 503, whatever was taken.
      A rejection names the short SKUs; a tombstone met first means the attempt was rolled back. Told "reserved", the
      caller gets its receipt, the stock still taken, unless the finalize raised. */
  ghost predicate Ends(outcome: Outcome, store: Store, store': Store, id: nat, epoch: nat, lines: Lines, total: int,
                       reserve: Ask, raises: bool, release: Ask)
  {
    var (taken, reply) := Reserve(store, id, epoch, lines);
    && (!reserve.Heard? ==> outcome == Unavailable)
    && (reserve.Heard? && reply.RejectedReply? ==> outcome == Insufficient(reply.short) && store' == taken)
    && (reserve.Heard? && reply.RefusedReply? ==> outcome == RolledBack && store' == taken)
    && (reserve.Heard? && reply.ReservedReply? && !raises ==> outcome == Receipt(total) && store' == taken)
    && (reserve.Heard? && reply.ReservedReply? && raises ==>
          outcome == if release.Heard? && Release(taken, id, epoch).1.Some? then RolledBack else Unavailable)
  }

  /** A first attempt, its reply heard and its finalize not raising: sold exactly when every line has stock enough,
      and then the stock is taken and held; otherwise refused naming exactly the lines that lack it, nothing taken. */
  lemma SoldIffInStock(outcome: Outcome, store: Store, store': Store, id: nat, epoch: nat, lines: Lines, total: int,
                       release: Ask)
    requires Ends(outcome, store, store', id, epoch, lines, total, Heard, false, release)
    requires (id, epoch) !in store.adj && lines != map[]
    ensures if forall k :: k in lines ==> k in store.stock && store.stock[k] >= lines[k] then
        && outcome == Receipt(total) && Holds(store', id, epoch, lines)
        && store'.stock.Keys == store.stock.Keys
        && forall k :: k in store.stock ==> store'.stock[k] == store.stock[k] - if k in lines then lines[k] else 0
      else
        && outcome.Insufficient? && store'.stock == store.stock
        && forall k :: k in outcome.short <==> k in lines && (k !in store.stock || store.stock[k] < lines[k])
  {
    ReserveDecides(store, id, epoch, lines);
    hide Reserve;
  }

  /** Steps 2 and 3 of an attempt begun. */
  method Attempt(checkout: Checkout.Service, inventory: Inventory.Service, id: nat, epoch: nat, lines: Lines,
                 total: int, reserve: Ask, raises: bool, release: Ask, now: int, ghost w: World, ghost d: nat)
    returns (outcome: Outcome, ghost w': World)
    requires Shows(w, checkout, inventory, now) && Standing(w, d, id, epoch, AskReserve)
    requires w.drivers[d].lines == lines && w.drivers[d].total == total
    requires InProgress(w.db, id)
    modifies checkout, inventory
    ensures Steps(w, w') && Shows(w', checkout, inventory, now) && DoneWith(w, d, w')
    ensures Concluded(outcome, w', id)
    ensures Ends(outcome, w.store, w'.store, id, epoch, lines, total, reserve, raises, release)
  {
    hide Runs, Reserve, Release;
    var reply;
    reply, w' := AskForStock(inventory, id, epoch, lines, reserve, w, d);
    ghost var asked := w';
    if reply.None? {
      var ok;
      ok, w' := Rollback(checkout, inventory, id, epoch, release, now, asked, d);
      StepsTogether(w, asked, w');
      assert w'.drivers == w.drivers - {d};
      return Unavailable, w';
    }
    if reply.value.RejectedReply? || reply.value.RefusedReply? {
      checkout.ReopenTx(id, now);
      StepsThen(w, w', Saga.ReopenTx(d));
      w' := Apply(w', Saga.ReopenTx(d));
      assert w'.drivers == w.drivers - {d};
      return if reply.value.RejectedReply? then Insufficient(reply.value.short) else RolledBack, w';
    }
    ReserveAnswers(w.store, id, epoch, lines);
    outcome, w' := Finish(checkout, inventory, id, epoch, total, raises, release, now, asked, d);
    StepsTogether(w, asked, w');
    assert w'.drivers == w.drivers - {d};
  }

  // ---- the whole of it ---------------------------------------------------------------------

  /** Where step 1 leaves the driver. */
  ghost predicate Begun(begun: BeginResult, w: World, d: nat, id: nat, w': World)
  {
    && w'.store == w.store && w'.clock == w.clock && w'.lease == w.lease && w'.drivers - {d} == w.drivers
    && match begun
      case Started(epoch, lines, total) =>
        && InProgress(w'.db, id) && Standing(w', d, id, epoch, AskReserve)
        && w'.drivers[d].lines == lines && w'.drivers[d].total == total
      case TookOver(epoch, lines, total) =>
        && InProgress(w'.db, id) && Standing(w', d, id, epoch, AskReserve)
        && w'.drivers[d].lines == lines && w'.drivers[d].total == total
      case OwesRelease(epoch) =>
        && InProgress(w'.db, id) && Standing(w', d, id, epoch, MustCompensate)
        && w'.db == w.db && w.db.completions[id].state == Compensating && w.db.completions[id].epoch == epoch
      case NotFound => w' == w && Concluded(Outcome.NotFound, w, id)
      case NotOpen => w' == w && Concluded(Outcome.NotOpen, w, id)
      case InFlight => w' == w && Concluded(Outcome.NotOpen, w, id)
      case EmptyBasket => w' == w && Concluded(Outcome.EmptyBasket, w, id)
      case NoRecord => false
  }

  /** What the status and the record agree on is all step 1 needs. */
  lemma BeginStands(w: World, d: nat, id: nat)
    requires id in w.db.txs ==> CR.AgreesAt(w.db, id)
    requires w.lease > 0 && d !in w.drivers
    ensures Begun(Begin(w.db, id, w.lease, w.clock).1, w, d, id, Apply(w, BeginDriver(d, id)))
  {
    hide SumPrices, Counts;
  }

  method BeginAttempt(checkout: Checkout.Service, inventory: Inventory.Service, id: nat, lease: int, now: int,
                      ghost w: World, ghost d: nat)
    returns (begun: BeginResult, ghost w': World)
    requires Shows(w, checkout, inventory, now) && w.lease == lease && d !in w.drivers
    requires Premised(w, BeginDriver(d, id))
    requires id in w.db.txs ==> CR.AgreesAt(w.db, id)
    modifies checkout
    ensures Steps(w, w') && Shows(w', checkout, inventory, now) && Begun(begun, w, d, id, w')
    ensures (w'.db, begun) == Begin(w.db, id, lease, now)
  {
    hide Runs, SumPrices, Counts;
    StepsNone(w);
    begun := checkout.BeginCompletion(id, lease, now);
    BeginStands(w, d, id);
    hide Begun;
    StepsThen(w, w, BeginDriver(d, id));
    w' := Apply(w, BeginDriver(d, id));
  }

  /** Once its owed rollback is done a transaction is OPEN, so the next attempt starts afresh or finds no basket. */
  lemma ReopenedBegins(db: Db, id: nat, lease: int, now: int)
    requires InProgress(db, id) && CR.AgreesAt(db, id)
    ensures var db' := Reopen(SetState(db, id, Compensating, now), id, now);
      CR.AgreesAt(db', id) && !Begin(db', id, lease, now).1.OwesRelease?
  {
    hide SumPrices, Counts;
  }

  /** What the call answers, by what it finds. */
  ghost predicate Completes(outcome: Outcome, w: World, store': Store, id: nat, owed: Ask, reserve: Ask, raises: bool,
                            release: Ask)
  {
    if id !in w.db.txs then outcome == Outcome.NotFound
    else match w.db.txs[id].status
      case Completed => outcome == Outcome.NotOpen
      case Cancelled => outcome == Outcome.NotOpen
      case Open => StartsAfresh(outcome, w.db, w.store, store', id, reserve, raises, release)
      case Completing =>
        id in w.db.completions ==>
          var c := w.db.completions[id];
          if c.state == Compensating then
            var (freed, reply) := Release(w.store, id, c.epoch);
            if owed.Heard? && reply.Some? then StartsAfresh(outcome, w.db, freed, store', id, reserve, raises, release)
            else outcome == Unavailable
          else if c.updatedAt > w.clock - w.lease then outcome == Outcome.NotOpen
          else
            var lines := Counts(w.db.txs[id].items);
            Ends(outcome, w.store, store', id, c.epoch, lines, c.total, reserve, raises, release)
  }

  /** An OPEN basket is attempted under the next epoch, for what was scanned and at the price it was scanned. */
  ghost predicate StartsAfresh(outcome: Outcome, db: Db, store: Store, store': Store, id: nat, reserve: Ask,
                               raises: bool, release: Ask)
    requires id in db.txs
  {
    var items, epoch := db.txs[id].items, CR.EpochOf(db, id) + 1;
    if items == [] then outcome == Outcome.EmptyBasket
    else Ends(outcome, store, store', id, epoch, Counts(items), SumPrices(items), reserve, raises, release)
  }

  /** The answer when step 1 refuses. */
  function Refusal(begun: BeginResult): Outcome
  {
    match begun
    case NotFound => Outcome.NotFound
    case NotOpen => Outcome.NotOpen
    case InFlight => Outcome.NotOpen
    case EmptyBasket => Outcome.EmptyBasket
    case _ => Unavailable
  }

  /** What comes of the result of step 1. */
  ghost predicate Follows(begun: BeginResult, outcome: Outcome, store: Store, store': Store, id: nat, reserve: Ask,
                          raises: bool, release: Ask)
  {
    match begun
    case Started(epoch, lines, total) =>
      Ends(outcome, store, store', id, epoch, lines, total, reserve, raises, release)
    case TookOver(epoch, lines, total) =>
      Ends(outcome, store, store', id, epoch, lines, total, reserve, raises, release)
    case OwesRelease(_) => false
    case _ => outcome == Refusal(begun)
  }

  lemma FirstBegin(outcome: Outcome, w: World, store': Store, id: nat, owed: Ask, reserve: Ask, raises: bool,
                   release: Ask)
    requires Follows(Begin(w.db, id, w.lease, w.clock).1, outcome, w.store, store', id, reserve, raises, release)
    ensures Completes(outcome, w, store', id, owed, reserve, raises, release)
  {
    BeginDecides(w.db, id, w.lease, w.clock);
    hide Begin, Counts, SumPrices, Ends, Release;
  }

  lemma SecondBegin(outcome: Outcome, w: World, store': Store, id: nat, owed: Ask, reserve: Ask, raises: bool,
                    release: Ask)
    requires InProgress(w.db, id) && w.db.completions[id].state == Compensating
    requires var db, freed := Reopen(SetState(w.db, id, Compensating, w.clock), id, w.clock),
                              Release(w.store, id, w.db.completions[id].epoch);
      owed.Heard? && freed.1.Some? ==>
        Follows(Begin(db, id, w.lease, w.clock).1, outcome, freed.0, store', id, reserve, raises, release)
    requires !(owed.Heard? && Release(w.store, id, w.db.completions[id].epoch).1.Some?) ==> outcome == Unavailable
    ensures Completes(outcome, w, store', id, owed, reserve, raises, release)
  {
    var db := Reopen(SetState(w.db, id, Compensating, w.clock), id, w.clock);
    BeginDecides(db, id, w.lease, w.clock);
    hide Begin, Counts, SumPrices, Ends, Release;
  }

  /** Begin; finish an owed rollback first, then begin again; then reserve and finalize. Whatever Inventory's replies
      and the database do in between, the call is a run of the saga that leaves no driver behind. */
  method Complete(checkout: Checkout.Service, inventory: Inventory.Service, id: nat, lease: int, owed: Ask,
                  reserve: Ask, raises: bool, release: Ask, now: int, ghost w: World, ghost d: nat)
    returns (outcome: Outcome, ghost w': World)
    requires Shows(w, checkout, inventory, now) && w.lease == lease && d !in w.drivers
    requires Premised(w, BeginDriver(d, id))
    requires id in w.db.txs ==> CR.AgreesAt(w.db, id)
    modifies checkout, inventory
    ensures Steps(w, w') && Shows(w', checkout, inventory, now) && w'.drivers == w.drivers
    ensures Concluded(outcome, w', id)
    ensures Completes(outcome, w, w'.store, id, owed, reserve, raises, release)
  {
    hide Runs, Release, SumPrices, Counts, Steps, Begin, Reopen, SetState, Apply, Ends, Completes;
    var begun;
    begun, w' := BeginAttempt(checkout, inventory, id, lease, now, w, d);
    ghost var owes := begun.OwesRelease?;
    if begun.OwesRelease? {
      ghost var joined := w';
      var ok;
      ok, w' := Rollback(checkout, inventory, id, begun.epoch, owed, now, joined, d);
      StepsTogether(w, joined, w');
      assert w'.drivers == w.drivers;
      if !ok {
        StillCompensating(w.db, id, now);
        SecondBegin(Unavailable, w, w'.store, id, owed, reserve, raises, release);
        return Unavailable, w';
      }
      ReopenedBegins(w.db, id, lease, now);
      ghost var reopened := w';
      begun, w' := BeginAttempt(checkout, inventory, id, lease, now, reopened, d);
      StepsTogether(w, reopened, w');
      if begun.OwesRelease? { return Unavailable, w'; }
    }
    ghost var begunAt := w';
    if begun.Started? || begun.TookOver? {
      outcome, w' := Attempt(checkout, inventory, id, begun.epoch, begun.lines, begun.total, reserve, raises, release,
                             now, begunAt, d);
      StepsTogether(w, begunAt, w');
      assert w'.drivers == w.drivers;
    } else {
      outcome := Refusal(begun);
    }
    if owes {
      SecondBegin(outcome, w, w'.store, id, owed, reserve, raises, release);
    } else {
      FirstBegin(outcome, w, w'.store, id, owed, reserve, raises, release);
    }
  }

  lemma NextEpochIsFresh(w: World, id: nat)
    requires Inv(w)
    ensures (id, CR.EpochOf(w.db, id) + 1) !in w.store.adj
  {
    assert InvAt(w, id);
    hide MessagesOk, DriversOk, OneDriver, CompletionOk, CR.Counted, CR.AgreesAt;
  }

  /** From a system the invariant holds of, an OPEN basket whose request is answered and whose finalize does not raise
      is sold if and only if Inventory has every SKU as often as it was scanned: the receipt is for the sum of the
      scanned prices, and the attempt holds the scan counts. Otherwise the refusal names exactly the short SKUs. */
  lemma OpenBasketSells(outcome: Outcome, w: World, store': Store, id: nat, owed: Ask, release: Ask)
    requires Inv(w) && id in w.db.txs && w.db.txs[id].status == Open && w.db.txs[id].items != []
    requires Completes(outcome, w, store', id, owed, Heard, false, release)
    ensures var items, stock := w.db.txs[id].items, w.store.stock;
      if forall k :: k in Counts(items) ==> k in stock && stock[k] >= Units(items, k)
      then outcome == Receipt(SumPrices(items)) && Holds(store', id, CR.EpochOf(w.db, id) + 1, Counts(items))
      else
        && outcome.Insufficient? && store'.stock == stock
        && forall k :: k in outcome.short <==> k in Counts(items) && (k !in stock || stock[k] < Units(items, k))
  {
    var items, epoch := w.db.txs[id].items, CR.EpochOf(w.db, id) + 1;
    NextEpochIsFresh(w, id);
    assert items[0].sku in Counts(items) && forall k :: k in Counts(items) ==> Counts(items)[k] == Units(items, k);
    hide Inv, Ends, Counts, Units, SumPrices;
    SoldIffInStock(outcome, w.store, store', id, epoch, Counts(items), SumPrices(items), release);
  }

  lemma StillCompensating(db: Db, id: nat, now: int)
    requires InProgress(db, id)
    ensures var db' := SetState(db, id, Compensating, now);
      InProgress(db', id) && db'.completions[id].state == Compensating
  {
  }

  /** From a reachable system: a receipt means the basket's stock is held by this attempt alone and the charge is what
      was scanned; a refusal means nothing is held. */
  lemma ConcludedMeans(w: World, w': World, id: nat, outcome: Outcome)
    requires Reachable(w) && Steps(w, w') && Concluded(outcome, w', id)
    ensures outcome.Receipt? ==>
      && outcome.total == w'.db.txs[id].runningTotal == SumPrices(w'.db.txs[id].items)
      && Holds(w'.store, id, CR.EpochOf(w'.db, id), Counts(w'.db.txs[id].items))
    ensures outcome.Insufficient? || outcome.RolledBack? || outcome.EmptyBasket? ==>
      forall e :: !AppliedAt(w'.store, id, e)
  {
    hide Initial, Runs, Counts, SumPrices, Holds;
    var w0, a :| Initial(w0) && Runs(w0, a, w);
    var b :| Runs(w, b, w');
    RunsConcat(w0, a, w, b, w');
    assert Reachable(w');
    if id in w'.db.txs {
      CrossStoreSafety(w', id);
      if w'.db.txs[id].status == Completed { ChargedWhatWasScanned(w', id); }
    }
  }
}
