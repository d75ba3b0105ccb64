/** The completion saga as a state machine: Checkout's and Inventory's local transactions are its atomic
    steps, drivers may crash between any two of them, and any message ever sent may be delivered any
    number of times, in any order, or never. */
module Saga {
  import opened Baskets
  import opened Inventory
  import opened Checkout

  datatype Msg = Req(req: Request) | Rep(rep: Reply)

  /** Where a driver stands between two of its local transactions. */
  datatype Pc =
    | AskReserve      // waiting for the reply to its reservation request
    | GotReserved     // told "reserved", about to record it
    | MustFinalize    // RESERVED recorded, about to finalize
    | MustCompensate  // outcome unknown or finalize failed, about to record COMPENSATING
    | AskRelease      // waiting for the release to be confirmed
    | MustReopen      // told that nothing is held, about to reopen

  /** A request or recovery task working on one completion. `touched` is when it last joined or wrote. */
  datatype Driver = Driver(tx: nat, epoch: nat, lines: Lines, total: int, pc: Pc, recovering: bool, touched: int)

  datatype World = World(db: Db, store: Store, sent: set<Msg>, drivers: map<nat, Driver>, clock: int, lease: int)

  datatype Label =
    | Tick(dt: nat)
    | NewTx(id: nat)
    | ScanItem(id: nat, item: Item)
    | SweepOpen(ids: set<nat>)
    | BeginDriver(d: nat, id: nat)
    | ClaimDriver(d: nat, id: nat)
    | Publish(d: nat)
    | Hear(d: nat, rep: Reply)
    | GiveUp(d: nat)
    | SetReserved(d: nat)
    | FinalizeTx(d: nat)
    | FinalizeFails(d: nat)
    | Compensate(d: nat)
    | ReopenTx(d: nat)
    | Crash(d: nat)
    | HandleRequest(req: Request)

  ghost predicate Live(w: World, d: nat)
  {
    d in w.drivers && w.clock < w.drivers[d].touched + w.lease
  }

  function Ask(dr: Driver): Request
  {
    if dr.pc == AskRelease then ReleaseReq(dr.tx, dr.epoch) else ReserveReq(dr.tx, dr.epoch, dr.lines)
  }

  /** Replies are matched to a waiter by transaction, epoch and type. */
  predicate Accepts(dr: Driver, rep: Reply)
  {
    rep.Key() == (dr.tx, dr.epoch) &&
      if dr.pc == AskReserve then !rep.ReleasedReply? else dr.pc == AskRelease && rep.ReleasedReply?
  }

  /** The pc from which the code takes a driver's step. */
  predicate PcFits(dr: Driver, l: Label)
  {
    match l
    case Publish(_) => dr.pc == AskReserve || dr.pc == AskRelease
    case Hear(_, rep) => Accepts(dr, rep)
    case GiveUp(_) => dr.pc == AskReserve || dr.pc == AskRelease
    case SetReserved(_) => dr.pc == GotReserved
    case FinalizeTx(_) => dr.pc == MustFinalize
    case FinalizeFails(_) => dr.pc == MustFinalize
    case Compensate(_) => dr.pc == MustCompensate
    case ReopenTx(_) => dr.pc == MustReopen
    case _ => true
  }

  /** The code's own guards. */
  ghost predicate Enabled(w: World, l: Label)
  {
    match l
    case Tick(_) => true
    case NewTx(id) => id !in w.db.txs
    case ScanItem(_, _) => true
    case SweepOpen(_) => true
    case BeginDriver(d, _) => d !in w.drivers
    case ClaimDriver(d, id) => d !in w.drivers && Stuck(w.db, id, w.lease, w.clock)
    case HandleRequest(req) => Req(req) in w.sent
    case _ => l.d in w.drivers && PcFits(w.drivers[l.d], l) && (l.Hear? ==> Rep(l.rep) in w.sent)
  }

  ghost predicate NoLiveDriver(w: World, id: nat)
  {
    forall d :: Live(w, d) ==> w.drivers[d].tx != id
  }

  /** What the code relies on and does not enforce: a driver writes inside its lease, and a COMPENSATING
      row is joined only once no driver is working on it. Leases do the rest. */
  ghost predicate Premised(w: World, l: Label)
  {
    match l
    case SetReserved(d) => Live(w, d)
    case FinalizeTx(d) => Live(w, d)
    case Compensate(d) => Live(w, d)
    case ReopenTx(d) => Live(w, d)
    case BeginDriver(_, id) => Begin(w.db, id, w.lease, w.clock).1.OwesRelease? ==> NoLiveDriver(w, id)
    case ClaimDriver(_, id) =>
      id in w.db.completions && w.db.completions[id].state == Compensating ==> NoLiveDriver(w, id)
    case _ => true
  }

  ghost function Apply(w: World, l: Label): World
    requires Enabled(w, l)
  {
    match l
    case Tick(dt) => w.(clock := w.clock + dt)
    case NewTx(id) => w.(db := Insert(w.db, id))
    case ScanItem(id, item) => w.(db := Scan(w.db, id, item).0)
    case SweepOpen(ids) => w.(db := Sweep(w.db, ids))
    case BeginDriver(d, id) =>
      var (db', r) := Begin(w.db, id, w.lease, w.clock);
      (match r
       case Started(epoch, lines, total) =>
         w.(db := db', drivers := w.drivers[d := Driver(id, epoch, lines, total, AskReserve, false, w.clock)],
            sent := w.sent + {Req(ReserveReq(id, epoch, lines))})
       case TookOver(epoch, lines, total) =>
         w.(db := db', drivers := w.drivers[d := Driver(id, epoch, lines, total, AskReserve, false, w.clock)])
       case OwesRelease(epoch) =>
         w.(drivers := w.drivers[d := Driver(id, epoch, map[], 0, MustCompensate, false, w.clock)])
       case _ => w)
    case ClaimDriver(d, id) =>
      var c := w.db.completions[id];
      w.(db := ClaimOne(w.db, id, w.clock),
         drivers := w.drivers[d := Driver(id, c.epoch, map[], c.total,
                                          if c.state == Reserved then MustFinalize else MustCompensate, true, w.clock)])
    case Publish(d) => w.(sent := w.sent + {Req(Ask(w.drivers[d]))})
    case Hear(d, rep) =>
      GoTo(w, d, if rep.ReservedReply? then GotReserved else MustReopen)
    case GiveUp(d) =>
      if w.drivers[d].pc == AskReserve then GoTo(w, d, MustCompensate) else Drop(w, d)
    case SetReserved(d) =>
      Touch(GoTo(w.(db := SetState(w.db, w.drivers[d].tx, Reserved, w.clock)), d, MustFinalize), d)
    case FinalizeTx(d) =>
      Drop(w.(db := Finalize(w.db, w.drivers[d].tx, w.drivers[d].total, w.clock).0), d)
    case FinalizeFails(d) =>
      if w.drivers[d].recovering then Drop(w, d) else GoTo(w, d, MustCompensate)
    case Compensate(d) =>
      var dr := w.drivers[d];
      Touch(GoTo(w.(db := SetState(w.db, dr.tx, Compensating, w.clock),
                    sent := w.sent + {Req(ReleaseReq(dr.tx, dr.epoch))}), d, AskRelease), d)
    case ReopenTx(d) =>
      Drop(w.(db := Reopen(w.db, w.drivers[d].tx, w.clock)), d)
    case Crash(d) => Drop(w, d)
    case HandleRequest(req) =>
      var (store', reply) := Handle(w.store, req);
      w.(store := store', sent := if reply.Some? then w.sent + {Rep(reply.value)} else w.sent)
  }

  function GoTo(w: World, d: nat, pc: Pc): World
    requires d in w.drivers
  {
    w.(drivers := w.drivers[d := w.drivers[d].(pc := pc)])
  }

  function Touch(w: World, d: nat): World
    requires d in w.drivers
  {
    w.(drivers := w.drivers[d := w.drivers[d].(touched := w.clock)])
  }

  function Drop(w: World, d: nat): World
  {
    w.(drivers := w.drivers - {d})
  }

  // ---- runs --------------------------------------------------------------------------------

  /** `labels` is a run from `w` to `w'` that respects the code's guards and the premises. */
  ghost predicate Runs(w: World, labels: seq<Label>, w': World)
    decreases |labels|
  {
    if labels == [] then w' == w else
      Enabled(w, labels[0]) && Premised(w, labels[0]) && Runs(Apply(w, labels[0]), labels[1..], w')
  }

  ghost predicate Initial(w: World)
  {
    && w.db == Db(map[], map[]) && w.sent == {} && w.drivers == map[]
    && w.store.stock == w.store.initial && w.store.adj == map[]
    && w.store.alerts == multiset{} && NonNegative(w.store.stock)
  }

  ghost predicate Reachable(w: World)
  {
    exists w0, labels :: Initial(w0) && Runs(w0, labels, w)
  }

  lemma {:induction false} RunsConcat(w0: World, a: seq<Label>, w1: World, b: seq<Label>, w2: World)
    requires Runs(w0, a, w1) && Runs(w1, b, w2)
    ensures Runs(w0, a + b, w2)
    decreases |a|
  {
    if a == [] {
      assert a + b == b;
    } else {
      assert (a + b)[1..] == a[1..] + b;
      RunsConcat(Apply(w0, a[0]), a[1..], w1, b, w2);
    }
  }
}
