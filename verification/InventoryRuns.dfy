/** What holds over every sequence of request events Inventory can be given: duplicated, reordered,
    late, or for any basket at all. */
module InventoryRuns {
  import opened Collections
  import opened Skus
  import opened Baskets
  import opened Inventory

  ghost predicate Seeded(s: Store)
  {
    s.stock == s.initial && s.adj == map[] && s.alerts == multiset{} && NonNegative(s.stock)
  }

  ghost function Run(s: Store, reqs: seq<Request>): Store
  {
    if reqs == [] then s else Handle(Run(s, reqs[..|reqs| - 1]), reqs[|reqs| - 1]).0
  }

  /** The state in which request `i` is handled. */
  ghost function Before(s: Store, reqs: seq<Request>, i: nat): Store
    requires i <= |reqs|
  {
    Run(s, reqs[..i])
  }

  ghost function ReplyTo(s: Store, reqs: seq<Request>, i: nat): Option<Reply>
    requires i < |reqs|
  {
    Handle(Before(s, reqs, i), reqs[i]).1
  }

  lemma StepAt(s: Store, reqs: seq<Request>, i: nat)
    requires i < |reqs|
    ensures Before(s, reqs, i + 1) == Handle(Before(s, reqs, i), reqs[i]).0
  {
    assert reqs[..i + 1][..i] == reqs[..i];
  }

  // ---- conservation ------------------------------------------------------------------------

  ghost function AppliedQty(s: Store, k: Sku): Key -> int
  {
    (key: Key) => if key in s.adj && s.adj[key].Applied? then At(s.adj[key].lines, k) else 0
  }

  /** Units of `k` held by APPLIED adjustments. */
  ghost function HeldUnits(s: Store, k: Sku): int
  {
    SumOver(s.adj.Keys, AppliedQty(s, k))
  }

  ghost predicate Balanced(s: Store)
  {
    && s.stock.Keys == s.initial.Keys
    && NonNegative(s.stock)
    && (forall key, k :: key in s.adj && s.adj[key].Applied? && k in s.adj[key].lines ==> k in s.stock)
    && (forall k :: k in s.stock ==> s.initial[k] - s.stock[k] == HeldUnits(s, k))
  }

  lemma RecordChanges(s: Store, s': Store, key: Key, k: Sku)
    requires s'.adj.Keys == s.adj.Keys + {key}
    requires forall other :: other in s.adj && other != key ==> s'.adj[other] == s.adj[other]
    ensures HeldUnits(s', k) == HeldUnits(s, k) - AppliedQty(s, k)(key) + AppliedQty(s', k)(key)
  {
    var f, g := AppliedQty(s, k), AppliedQty(s', k);
    SumChange(s.adj.Keys, f, s'.adj.Keys, g, key);
  }

  lemma HandleKeepsStock(s: Store, req: Request)
    requires Balanced(s)
    ensures var s' := Handle(s, req).0;
      && s'.initial == s.initial && s'.stock.Keys == s.stock.Keys && NonNegative(s'.stock)
      && s'.adj.Keys <= s.adj.Keys + {req.Key()}
      && (forall other :: other in s.adj && other != req.Key() ==> other in s'.adj && s'.adj[other] == s.adj[other])
      && (s' == s || (req.Key() in s'.adj && s'.adj.Keys == s.adj.Keys + {req.Key()}))
      && (req.Key() in s'.adj && s'.adj[req.Key()].Applied? ==> s'.adj[req.Key()].lines.Keys <= s.stock.Keys)
  {
    hide Crossing, UnitsOf, ShortSkus;
    var s' := Handle(s, req).0;
    if s' != s {
      if req.ReserveReq? {
        assert s'.adj == s.adj[req.Key() := s'.adj[req.Key()]];
        assert s'.stock.Keys == s.stock.Keys;
      } else {
        assert s'.adj == s.adj[req.Key() := Released];
        assert s'.stock.Keys == s.stock.Keys;
      }
    }
  }

  /** What a request takes from the stock row of `k` is what it adds to the attempt's APPLIED quantity. */
  lemma HandleMovesUnits(s: Store, req: Request, k: Sku)
    requires Balanced(s) && k in s.stock && Handle(s, req).0 != s
    ensures var s' := Handle(s, req).0;
      s.stock[k] - s'.stock[k] == AppliedQty(s', k)(req.Key()) - AppliedQty(s, k)(req.Key())
  {
    HandleKeepsStock(s, req);
  }

  lemma HandleKeepsBalance(s: Store, req: Request)
    requires Balanced(s)
    ensures Balanced(Handle(s, req).0)
  {
    hide Handle, HeldUnits, AppliedQty;
    var s' := Handle(s, req).0;
    HandleKeepsStock(s, req);
    if s' != s {
      forall k | k in s'.stock ensures s'.initial[k] - s'.stock[k] == HeldUnits(s', k) {
        RecordChanges(s, s', req.Key(), k);
        HandleMovesUnits(s, req, k);
      }
    }
  }

  /** Stock conservation: whatever is asked, for any basket, each SKU has lost exactly the units the
      APPLIED adjustments hold, and no stock is negative. */
  lemma {:induction false} StockIsConserved(s: Store, reqs: seq<Request>)
    requires Seeded(s)
    ensures Balanced(Run(s, reqs))
  {
    if reqs == [] {
      forall k | k in s.stock ensures HeldUnits(s, k) == 0 {
        SumZero(s.adj.Keys, AppliedQty(s, k));
      }
    } else {
      StockIsConserved(s, reqs[..|reqs| - 1]);
      HandleKeepsBalance(Run(s, reqs[..|reqs| - 1]), reqs[|reqs| - 1]);
    }
  }

  // ---- outcome finality --------------------------------------------------------------------

  ghost function RecordOf(s: Store, key: Key): Option<Adjustment>
  {
    if key in s.adj then Some(s.adj[key]) else None
  }

  /** The life of a record: none, then at most one of APPLIED and REJECTED, then RELEASED for good. */
  ghost predicate Advances(a: Option<Adjustment>, b: Option<Adjustment>)
  {
    a == b || a == None || b == Some(Released)
  }

  /** A request touches the record of its own attempt only, and its outcome names that attempt. */
  lemma HandleIsLocal(s: Store, req: Request)
    ensures var (s', reply) := Handle(s, req);
      && (forall key :: key != req.Key() ==> RecordOf(s', key) == RecordOf(s, key))
      && (reply.Some? ==> reply.value.Key() == req.Key())
  {
  }

  lemma HandleAdvances(s: Store, req: Request, key: Key)
    ensures Advances(RecordOf(s, key), RecordOf(Handle(s, req).0, key))
  {
  }

  lemma {:induction false} RecordsOnlyAdvance(s: Store, reqs: seq<Request>, i: nat, j: nat, key: Key)
    requires i <= j <= |reqs|
    ensures Advances(RecordOf(Before(s, reqs, i), key), RecordOf(Before(s, reqs, j), key))
    decreases j
  {
    hide Handle, Run;
    if i < j {
      RecordsOnlyAdvance(s, reqs, i, j - 1, key);
      StepAt(s, reqs, j - 1);
      HandleAdvances(Before(s, reqs, j - 1), reqs[j - 1], key);
    }
  }

  /** Every outcome states the record it leaves behind. */
  lemma ReplyStatesRecord(s: Store, req: Request)
    requires Handle(s, req).1.Some?
    ensures var (s', reply) := Handle(s, req);
      && reply.value.Key() == req.Key() && req.Key() in s'.adj
      && (reply.value.ReservedReply? <==> s'.adj[req.Key()].Applied?)
      && (reply.value.RejectedReply? <==> s'.adj[req.Key()].Rejected?)
      && (reply.value.RefusedReply? || reply.value.ReleasedReply? <==> s'.adj[req.Key()].Released?)
  {
  }

  /** One attempt is never answered both "reserved" and "rejected". */
  lemma RepliesAgree(s: Store, reqs: seq<Request>, i: nat, j: nat)
    requires i < |reqs| && j < |reqs|
    requires ReplyTo(s, reqs, i).Some? && ReplyTo(s, reqs, j).Some?
    requires ReplyTo(s, reqs, i).value.ReservedReply? && ReplyTo(s, reqs, j).value.RejectedReply?
    ensures ReplyTo(s, reqs, i).value.Key() != ReplyTo(s, reqs, j).value.Key()
  {
    hide Handle, Run;
    var key := ReplyTo(s, reqs, i).value.Key();
    ReplyStatesRecord(Before(s, reqs, i), reqs[i]);
    ReplyStatesRecord(Before(s, reqs, j), reqs[j]);
    StepAt(s, reqs, i);
    StepAt(s, reqs, j);
    RecordsOnlyAdvance(s, reqs, Min(i, j) + 1, Max(i, j) + 1, key);
  }

  ghost predicate MovesStock(s: Store, reqs: seq<Request>, i: nat)
    requires i < |reqs|
  {
    Before(s, reqs, i + 1).stock != Before(s, reqs, i).stock
  }

  /** Units are taken at most once and given back at most once per attempt: of two requests of one
      attempt that move stock, the earlier is its reserve and the later its release. */
  lemma TakenOnceRestoredOnce(s: Store, reqs: seq<Request>, i: nat, j: nat)
    requires i < j < |reqs| && reqs[i].Key() == reqs[j].Key()
    requires MovesStock(s, reqs, i) && MovesStock(s, reqs, j)
    ensures reqs[i].ReserveReq? && reqs[j].ReleaseReq?
  {
    hide Run;
    StepAt(s, reqs, i);
    StepAt(s, reqs, j);
    RecordsOnlyAdvance(s, reqs, i + 1, j, reqs[i].Key());
  }

  // ---- redelivery --------------------------------------------------------------------------

  /** The request has left its mark: handling it again can only repeat an answer. */
  ghost predicate Settled(s: Store, req: Request)
  {
    match req
    case ReserveReq(_, _, _) => req.Key() in s.adj
    case ReleaseReq(_, _) => RecordOf(s, req.Key()) == Some(Released)
  }

  lemma SettledIsFinal(s: Store, req: Request, other: Request)
    requires Settled(s, req)
    ensures Settled(Handle(s, other).0, req)
    ensures Handle(s, req).0 == s
  {
  }

  /** No line takes a negative quantity. The published schema asks for at least 1. */
  predicate QuantitiesOk(req: Request)
  {
    req.ReserveReq? ==> forall k :: k in req.lines ==> req.lines[k] >= 0
  }

  /** Each request where it is first delivered, and nowhere else. */
  function FirstDeliveries(reqs: seq<Request>): seq<Request>
  {
    if reqs == [] then [] else
      var front, last := reqs[..|reqs| - 1], reqs[|reqs| - 1];
      if last in front then FirstDeliveries(front) else FirstDeliveries(front) + [last]
  }

  ghost predicate HoldsNothingNegative(s: Store)
  {
    forall key, k :: key in s.adj && s.adj[key].Applied? && k in s.adj[key].lines ==> s.adj[key].lines[k] >= 0
  }

  lemma HandleSettles(s: Store, req: Request)
    requires NonNegative(s.stock) && HoldsNothingNegative(s) && QuantitiesOk(req)
    ensures var (s', reply) := Handle(s, req);
            NonNegative(s'.stock) && HoldsNothingNegative(s') && Settled(s', req) && reply.Some?
  {
  }

  lemma {:induction false} EveryDeliverySettles(s: Store, reqs: seq<Request>)
    requires Seeded(s) && forall r :: r in reqs ==> QuantitiesOk(r)
    ensures var s' := Run(s, reqs);
            NonNegative(s'.stock) && HoldsNothingNegative(s') && forall r :: r in reqs ==> Settled(s', r)
  {
    if reqs != [] {
      var front, last := reqs[..|reqs| - 1], reqs[|reqs| - 1];
      assert reqs == front + [last];
      EveryDeliverySettles(s, front);
      HandleSettles(Run(s, front), last);
      forall r | r in front ensures Settled(Run(s, reqs), r) {
        SettledIsFinal(Run(s, front), r, last);
      }
    }
  }

  /** A delivery settles its request exactly when it is answered. */
  lemma SettledIffAnswered(s: Store, req: Request)
    ensures Settled(Handle(s, req).0, req) <==> Handle(s, req).1.Some?
  {
  }

  /** No delivery was refused by the table's constraint. */
  ghost predicate AllAnswered(s: Store, reqs: seq<Request>)
  {
    forall i :: 0 <= i < |reqs| ==> ReplyTo(s, reqs, i).Some?
  }

  lemma AllAnsweredFront(s: Store, reqs: seq<Request>)
    requires AllAnswered(s, reqs) && reqs != []
    ensures AllAnswered(s, reqs[..|reqs| - 1]) && Handle(Run(s, reqs[..|reqs| - 1]), reqs[|reqs| - 1]).1.Some?
  {
    var front := reqs[..|reqs| - 1];
    forall i | 0 <= i < |front| ensures ReplyTo(s, front, i).Some? {
      assert front[..i] == reqs[..i] && ReplyTo(s, reqs, i).Some?;
    }
    assert ReplyTo(s, reqs, |reqs| - 1).Some?;
  }

  lemma {:induction false} AnsweredMeansSettled(s: Store, reqs: seq<Request>)
    requires AllAnswered(s, reqs)
    ensures forall r :: r in reqs ==> Settled(Run(s, reqs), r)
  {
    if reqs != [] {
      var front, last := reqs[..|reqs| - 1], reqs[|reqs| - 1];
      assert reqs == front + [last];
      AllAnsweredFront(s, reqs);
      AnsweredMeansSettled(s, front);
      SettledIffAnswered(Run(s, front), last);
      forall r | r in front ensures Settled(Run(s, reqs), r) {
        SettledIsFinal(Run(s, front), r, last);
      }
    }
  }

  /** Delivering requests any number of extra times, anywhere, ends in the same state as delivering each once, from any
      state and for any baskets, as long as every delivery is answered. */
  lemma {:induction false} RedeliveryChangesNothing(s: Store, reqs: seq<Request>)
    requires AllAnswered(s, reqs)
    ensures Run(s, FirstDeliveries(reqs)) == Run(s, reqs)
  {
    if reqs != [] {
      var front, last := reqs[..|reqs| - 1], reqs[|reqs| - 1];
      assert reqs == front + [last];
      AllAnsweredFront(s, reqs);
      RedeliveryChangesNothing(s, front);
      if last in front {
        AnsweredMeansSettled(s, front);
        SettledIsFinal(Run(s, front), last, last);
      } else {
        assert FirstDeliveries(reqs)[..|FirstDeliveries(reqs)| - 1] == FirstDeliveries(front);
      }
    }
  }

  lemma {:induction false} SchemaMeansAnswered(s: Store, reqs: seq<Request>)
    requires Seeded(s) && forall r :: r in reqs ==> QuantitiesOk(r)
    ensures AllAnswered(s, reqs)
  {
    forall i | 0 <= i < |reqs| ensures ReplyTo(s, reqs, i).Some? {
      EveryDeliverySettles(s, reqs[..i]);
      HandleSettles(Run(s, reqs[..i]), reqs[i]);
    }
  }

  // ---- the check constraint ----------------------------------------------------------------

  /** The requests that trap `lines`: take them, then let another transaction empty the row of `k`. */
  ghost function TrapFor(tx: nat, epoch: nat, lines: Lines, k: Sku): seq<Request>
    requires k in lines
  {
    [ReserveReq(tx, epoch, lines), ReserveReq(tx + 1, epoch, map[k := -lines[k]])]
  }

  /** Enough stock to cover `lines` and no more. */
  ghost function JustEnough(lines: Lines): Store
  {
    var stock := map k | k in lines :: Max(lines[k], 0);
    Store(stock, stock, map[], multiset{}, 0)
  }

  /** Requests in which attempt (tx, epoch) asks for `lines` and everyone else asks for nothing negative. */
  ghost predicate Asks(reqs: seq<Request>, tx: nat, epoch: nat, lines: Lines)
  {
    forall i :: 0 <= i < |reqs| ==>
      if reqs[i].Key() == (tx, epoch) && reqs[i].ReserveReq? then reqs[i].lines == lines else QuantitiesOk(reqs[i])
  }

  /** Where the trap leaves the store. */
  lemma TrapSprung(tx: nat, epoch: nat, lines: Lines, k: Sku)
    requires k in lines && lines[k] < 0
    ensures var s0 := JustEnough(lines);
      var s2 := Run(s0, TrapFor(tx, epoch, lines, k));
      var taken := map[k := -lines[k]];
      && s2.adj == map[(tx, epoch) := Applied(lines), (tx + 1, epoch) := Applied(taken)]
      && s2.stock == Take(Take(s0.stock, lines), taken)
  {
    var s0, reqs := JustEnough(lines), TrapFor(tx, epoch, lines, k);
    StepAt(s0, reqs, 0);
    StepAt(s0, reqs, 1);
    assert reqs[..0] == [] && reqs[..2] == reqs;
    var s1 := Before(s0, reqs, 1);
    assert s1.adj[(tx, epoch)] == Applied(lines) && s1.stock[k] == -lines[k];
    assert k in reqs[1].lines && Covers(s1.stock, reqs[1].lines);
  }

  /** One negative line is enough for a release to be refused by the check constraint. */
  lemma NegativeLineTrapsItsRelease(tx: nat, epoch: nat, lines: Lines, k: Sku)
    requires k in lines && lines[k] < 0
    ensures Seeded(JustEnough(lines)) && Asks(TrapFor(tx, epoch, lines, k), tx, epoch, lines)
    ensures Release(Run(JustEnough(lines), TrapFor(tx, epoch, lines, k)), tx, epoch).1 == None
  {
    TrapSprung(tx, epoch, lines, k);
    hide Run;
    var s2 := Run(JustEnough(lines), TrapFor(tx, epoch, lines, k));
    assert s2.stock[k] == 0;
    assert k in Restore(s2.stock, lines) && Restore(s2.stock, lines)[k] < 0;
  }

  ghost predicate AlwaysReleasable(tx: nat, epoch: nat, lines: Lines)
  {
    forall s, reqs :: Seeded(s) && Asks(reqs, tx, epoch, lines) ==> Release(Run(s, reqs), tx, epoch).1.Some?
  }

  /** A reservation can always be compensated exactly when none of its quantities is negative. */
  lemma ReleasableIffNotNegative(tx: nat, epoch: nat, lines: Lines)
    ensures AlwaysReleasable(tx, epoch, lines) <==> forall k :: k in lines ==> lines[k] >= 0
  {
    if k :| k in lines && lines[k] < 0 {
      NegativeLineTrapsItsRelease(tx, epoch, lines, k);
      assert Release(Run(JustEnough(lines), TrapFor(tx, epoch, lines, k)), tx, epoch).1 == None;
    } else {
      forall s, reqs | Seeded(s) && Asks(reqs, tx, epoch, lines)
        ensures Release(Run(s, reqs), tx, epoch).1.Some?
      {
        EveryDeliverySettles(s, reqs);
      }
    }
  }

  /** The trap, the refused release, the other attempt's release, and the release again. */
  ghost function Redelivered(tx: nat, epoch: nat, lines: Lines, k: Sku): seq<Request>
    requires k in lines
  {
    TrapFor(tx, epoch, lines, k) + [ReleaseReq(tx, epoch), ReleaseReq(tx + 1, epoch), ReleaseReq(tx, epoch)]
  }

  lemma {:induction false} DistinctAreFirst(reqs: seq<Request>)
    requires forall i, j :: 0 <= i < j < |reqs| ==> reqs[i] != reqs[j]
    ensures FirstDeliveries(reqs) == reqs
  {
    if reqs != [] {
      var front, last := reqs[..|reqs| - 1], reqs[|reqs| - 1];
      DistinctAreFirst(front);
      assert last !in front;
      assert reqs == front + [last];
    }
  }

  /** One negative line is enough for a redelivery to matter: the release that was refused succeeds the second time. */
  lemma NegativeLineMakesRedeliveryMatter(tx: nat, epoch: nat, lines: Lines, k: Sku)
    requires k in lines && lines[k] < 0
    ensures var s, reqs := JustEnough(lines), Redelivered(tx, epoch, lines, k);
      Seeded(s) && Asks(reqs, tx, epoch, lines) && Run(s, FirstDeliveries(reqs)) != Run(s, reqs)
  {
    var s, reqs := JustEnough(lines), Redelivered(tx, epoch, lines, k);
    TrapIsSprung(tx, epoch, lines, k);
    FirstOfRedelivered(tx, epoch, lines, k);
    assert Seeded(s) && Asks(reqs, tx, epoch, lines);
    hide FirstDeliveries, Run, Handle, Sprung, Releasable, JustEnough, Seeded;
    StillHeldThenReleased(s, reqs, tx, epoch, lines, k);
    StepAt(s, reqs, 4);
    assert reqs[..5] == reqs;
    ReleasableMoves(Run(s, reqs[..4]), tx, epoch);
  }

  lemma TrapIsSprung(tx: nat, epoch: nat, lines: Lines, k: Sku)
    requires k in lines && lines[k] < 0
    ensures Sprung(Before(JustEnough(lines), Redelivered(tx, epoch, lines, k), 2), tx, epoch, lines, k)
  {
    NegativeLineTrapsItsRelease(tx, epoch, lines, k);
    TrapSprung(tx, epoch, lines, k);
    assert Redelivered(tx, epoch, lines, k)[..2] == TrapFor(tx, epoch, lines, k);
    hide Run, Release, Take;
  }

  lemma FirstOfRedelivered(tx: nat, epoch: nat, lines: Lines, k: Sku)
    requires k in lines
    ensures FirstDeliveries(Redelivered(tx, epoch, lines, k)) == Redelivered(tx, epoch, lines, k)[..4]
  {
    var reqs := Redelivered(tx, epoch, lines, k);
    var front := reqs[..|reqs| - 1];
    DistinctAreFirst(front);
    assert front[2] == reqs[4];
  }

  lemma ReleasableMoves(s: Store, tx: nat, epoch: nat)
    requires Releasable(s, tx, epoch)
    ensures Handle(s, ReleaseReq(tx, epoch)).0 != s
  {
  }

  ghost predicate Sprung(s: Store, tx: nat, epoch: nat, lines: Lines, k: Sku)
    requires k in lines
  {
    && s.adj == map[(tx, epoch) := Applied(lines), (tx + 1, epoch) := Applied(map[k := -lines[k]])]
    && s.stock == Take(Take(JustEnough(lines).stock, lines), map[k := -lines[k]])
    && Release(s, tx, epoch).1 == None
  }

  /** The attempt still holds its lines, and its release would now go through. */
  ghost predicate Releasable(s: Store, tx: nat, epoch: nat)
  {
    && (tx, epoch) in s.adj && s.adj[(tx, epoch)].Applied?
    && RecordOf(Handle(s, ReleaseReq(tx, epoch)).0, (tx, epoch)) == Some(Released)
  }

  lemma OtherReleaseFreesIt(s2: Store, tx: nat, epoch: nat, lines: Lines, k: Sku)
    requires k in lines && lines[k] < 0 && Sprung(s2, tx, epoch, lines, k)
    ensures Releasable(Handle(s2, ReleaseReq(tx + 1, epoch)).0, tx, epoch)
  {
    var stock := JustEnough(lines).stock;
    assert Restore(s2.stock, map[k := -lines[k]]) == Take(stock, lines);
    assert Restore(Take(stock, lines), lines) == stock;
    hide UnitsOf;
  }

  lemma StillHeldThenReleased(s0: Store, reqs: seq<Request>, tx: nat, epoch: nat, lines: Lines, k: Sku)
    requires k in lines && lines[k] < 0 && |reqs| >= 4 && Sprung(Before(s0, reqs, 2), tx, epoch, lines, k)
    requires reqs[2] == ReleaseReq(tx, epoch) && reqs[3] == ReleaseReq(tx + 1, epoch)
    ensures Releasable(Before(s0, reqs, 4), tx, epoch)
  {
    var s2 := Before(s0, reqs, 2);
    OtherReleaseFreesIt(s2, tx, epoch, lines, k);
    hide *;
    StepAt(s0, reqs, 2);
    StepAt(s0, reqs, 3);
    SprungRefuses(s2, tx, epoch, lines, k);
  }

  lemma SprungRefuses(s: Store, tx: nat, epoch: nat, lines: Lines, k: Sku)
    requires k in lines && Sprung(s, tx, epoch, lines, k)
    ensures Handle(s, ReleaseReq(tx, epoch)).0 == s
  {
    RefusedChangesNothing(s, tx, epoch);
  }

  lemma RefusedChangesNothing(s: Store, tx: nat, epoch: nat)
    requires Release(s, tx, epoch).1 == None
    ensures Handle(s, ReleaseReq(tx, epoch)).0 == s
  {
  }

  ghost predicate RedeliveryHarmless(tx: nat, epoch: nat, lines: Lines)
  {
    forall s, reqs :: Seeded(s) && Asks(reqs, tx, epoch, lines) ==> Run(s, FirstDeliveries(reqs)) == Run(s, reqs)
  }

  /** Redelivery is harmless in every schedule exactly when no quantity is negative. */
  lemma RedeliveryHarmlessIffNotNegative(tx: nat, epoch: nat, lines: Lines)
    ensures RedeliveryHarmless(tx, epoch, lines) <==> forall k :: k in lines ==> lines[k] >= 0
  {
    if k :| k in lines && lines[k] < 0 {
      NegativeLineMakesRedeliveryMatter(tx, epoch, lines, k);
    } else {
      forall s, reqs | Seeded(s) && Asks(reqs, tx, epoch, lines) ensures Run(s, FirstDeliveries(reqs)) == Run(s, reqs) {
        SchemaMeansAnswered(s, reqs);
        RedeliveryChangesNothing(s, reqs);
      }
    }
  }

  // ---- low-stock alerts --------------------------------------------------------------------

  ghost predicate Low(s: Store, k: Sku)
  {
    k in s.stock && s.stock[k] < s.threshold
  }

  /** The SKUs that went from at or above the threshold to below it, each with the stock it went to. */
  ghost function Descents(s: Store, s': Store): set<Alert>
  {
    set k | k in s'.stock && !Low(s, k) && Low(s', k) :: Alert(k, s'.stock[k], s'.threshold)
  }

  lemma CrossingsAreDescents(s: Store, s': Store, lines: Lines)
    requires s'.stock == Take(s.stock, lines) && s'.threshold == s.threshold
    requires forall k :: k in lines ==> k in s.stock
    ensures Crossing(s.stock, lines, s.threshold) == Descents(s, s')
  {
    var raised, fell := Crossing(s.stock, lines, s.threshold), Descents(s, s');
    forall a | a in raised ensures a in fell {
      var k :| k in lines && k in s.stock && s.stock[k] - lines[k] < s.threshold <= s.stock[k]
        && a == Alert(k, s.stock[k] - lines[k], s.threshold);
      assert k in s'.stock && a == Alert(k, s'.stock[k], s'.threshold);
    }
    forall a | a in fell ensures a in raised {
      var k :| k in s'.stock && !Low(s, k) && Low(s', k) && a == Alert(k, s'.stock[k], s'.threshold);
      assert k in lines;
    }
  }

  lemma NoDescents(s: Store, s': Store)
    requires forall k :: k in s'.stock ==> k in s.stock && s'.stock[k] >= s.stock[k]
    requires s'.threshold == s.threshold
    ensures Descents(s, s') == {}
  {
  }

  /** Alerts are raised exactly for the SKUs that a request takes from at or above the threshold to below it: one per
      SKU and descent, stating the stock left and the threshold, and none by a release. */
  lemma OneAlertPerDescent(s: Store, req: Request)
    requires HoldsNothingNegative(s)
    ensures var s' := Handle(s, req).0;
      s'.alerts == s.alerts + multiset(Descents(s, s'))
  {
    var s' := Handle(s, req).0;
    hide Crossing, Descents, UnitsOf, ShortSkus, Low;
    if req.ReserveReq? && req.Key() !in s.adj && Covers(s.stock, req.lines) {
      CrossingsAreDescents(s, s', req.lines);
    } else {
      forall k | k in s'.stock ensures k in s.stock && s'.stock[k] >= s.stock[k] {
        if req.ReleaseReq? && req.Key() in s.adj && s.adj[req.Key()].Applied? {
          assert At(s.adj[req.Key()].lines, k) >= 0;
        }
      }
      NoDescents(s, s');
    }
  }
}
