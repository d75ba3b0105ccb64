/** Inventory's side of a completion: idempotent all-or-nothing reservation, its compensation,
    and the handler that turns a request event into one local transaction and one outcome. */
module Inventory {
  import opened Collections
  import opened Skus
  import opened Baskets

  /** The idempotency record of one attempt: its primary key is (transaction, epoch). */
  type Key = (nat, nat)

  type Lines = map<Sku, int>

  datatype Adjustment = Applied(lines: Lines) | Rejected(short: set<Sku>) | Released

  /** A row of the low-stock alert table. */
  datatype Alert = Alert(sku: Sku, stock: int, threshold: int)

  /** Inventory's tables. */
  datatype Store = Store(
    initial: map<Sku, int>, stock: map<Sku, int>, adj: map<Key, Adjustment>, alerts: multiset<Alert>, threshold: int)

  datatype Request =
    | ReserveReq(tx: nat, epoch: nat, lines: Lines)
    | ReleaseReq(tx: nat, epoch: nat)
  {
    function Key(): Key { (tx, epoch) }
  }

  datatype Reply =
    | ReservedReply(tx: nat, epoch: nat, replayed: bool)
    | RejectedReply(tx: nat, epoch: nat, short: set<Sku>)
    | RefusedReply(tx: nat, epoch: nat)
    | ReleasedReply(tx: nat, epoch: nat, units: int, already: bool)
  {
    function Key(): Key { (tx, epoch) }
  }

  // ---- what one statement does -------------------------------------------------------------

  /** The `ok` CTE: every basket row exists and covers its quantity, and the basket is not empty. */
  predicate Covers(stock: map<Sku, int>, lines: Lines)
  {
    lines != map[] && forall k :: k in lines ==> k in stock && stock[k] >= lines[k]
  }

  function ShortSkus(stock: map<Sku, int>, lines: Lines): set<Sku>
  {
    set k | k in lines && (k !in stock || stock[k] < lines[k])
  }

  function Take(stock: map<Sku, int>, lines: Lines): map<Sku, int>
  {
    map k | k in stock :: stock[k] - At(lines, k)
  }

  function Restore(stock: map<Sku, int>, lines: Lines): map<Sku, int>
  {
    map k | k in stock :: stock[k] + At(lines, k)
  }

  /** The alerts a reservation raises: SKUs whose stock it takes from at or above the threshold to below it. */
  function Crossing(stock: map<Sku, int>, lines: Lines, threshold: int): set<Alert>
  {
    set k | k in lines && k in stock && stock[k] - lines[k] < threshold && threshold <= stock[k] ::
      Alert(k, stock[k] - lines[k], threshold)
  }

  /** The table's check constraint `current_stock >= 0`. */
  predicate NonNegative(stock: map<Sku, int>)
  {
    forall k :: k in stock ==> stock[k] >= 0
  }

  ghost function UnitsOf(lines: Lines): int
  {
    SumOver(lines.Keys, AtEach(lines))
  }

  ghost function Reserve(s: Store, tx: nat, epoch: nat, lines: Lines): (Store, Reply)
  {
    var key := (tx, epoch);
    if key in s.adj then
      match s.adj[key]
      case Applied(_) => (s, ReservedReply(tx, epoch, true))
      case Rejected(short) => (s, RejectedReply(tx, epoch, short))
      case Released => (s, RefusedReply(tx, epoch))
    else if Covers(s.stock, lines) then
      (s.(stock := Take(s.stock, lines),
          adj := s.adj[key := Applied(lines)],
          alerts := s.alerts + multiset(Crossing(s.stock, lines, s.threshold))),
       ReservedReply(tx, epoch, false))
    else
      var short := ShortSkus(s.stock, lines);
      (s.(adj := s.adj[key := Rejected(short)]), RejectedReply(tx, epoch, short))
  }

  /** `None` when the table's check constraint aborts the transaction: nothing changes, no outcome. */
  ghost function Release(s: Store, tx: nat, epoch: nat): (Store, Option<Reply>)
  {
    var key := (tx, epoch);
    if key !in s.adj then
      (s.(adj := s.adj[key := Released]), Some(ReleasedReply(tx, epoch, 0, false)))
    else
      match s.adj[key]
      case Released => (s, Some(ReleasedReply(tx, epoch, 0, true)))
      case Rejected(_) => (s.(adj := s.adj[key := Released]), Some(ReleasedReply(tx, epoch, 0, false)))
      case Applied(lines) =>
        if NonNegative(Restore(s.stock, lines)) then
          (s.(stock := Restore(s.stock, lines), adj := s.adj[key := Released]),
           Some(ReleasedReply(tx, epoch, UnitsOf(lines), false)))
        else
          (s, None)
  }

  /** What a reservation decides, from the stock there is: an attempt without a record is reserved if and only if it
      asks for something and every line has a row with that much, and is otherwise refused naming exactly the lines
      that do not; an attempt with a record changes nothing and is told what the record says. */
  lemma ReserveDecides(s: Store, tx: nat, epoch: nat, lines: Lines)
    ensures var (s', reply) := Reserve(s, tx, epoch, lines);
      && (reply == ReservedReply(tx, epoch, false) <==>
            && (tx, epoch) !in s.adj && lines != map[]
            && forall k :: k in lines ==> k in s.stock && s.stock[k] >= lines[k])
      && (reply == ReservedReply(tx, epoch, false) ==>
            && s'.adj == s.adj[(tx, epoch) := Applied(lines)] && s'.stock.Keys == s.stock.Keys
            && forall k :: k in s.stock ==> s'.stock[k] == s.stock[k] - if k in lines then lines[k] else 0)
      && ((tx, epoch) !in s.adj && reply != ReservedReply(tx, epoch, false) ==>
            && reply.RejectedReply? && reply.Key() == (tx, epoch)
            && s' == s.(adj := s.adj[(tx, epoch) := Rejected(reply.short)])
            && forall k :: k in reply.short <==> k in lines && (k !in s.stock || s.stock[k] < lines[k]))
      && ((tx, epoch) in s.adj ==>
            && s' == s
            && (match s.adj[(tx, epoch)]
                case Applied(_) => reply == ReservedReply(tx, epoch, true)
                case Rejected(short) => reply == RejectedReply(tx, epoch, short)
                case Released => reply == RefusedReply(tx, epoch)))
  {
    hide Crossing;
  }

  /** What a release decides: an APPLIED attempt gives every line back, unless that would leave some row below zero; any
      other is closed without a move of stock. Either way the record ends RELEASED. */
  lemma ReleaseDecides(s: Store, tx: nat, epoch: nat)
    ensures var (s', reply), key := Release(s, tx, epoch), (tx, epoch);
      if key in s.adj && s.adj[key].Applied? then
        var lines := s.adj[key].lines;
        if exists k :: k in s.stock && s.stock[k] + (if k in lines then lines[k] else 0) < 0
        then reply == None && s' == s else
          && reply == Some(ReleasedReply(tx, epoch, UnitsOf(lines), false))
          && s' == s.(stock := s'.stock, adj := s.adj[key := Released]) && s'.stock.Keys == s.stock.Keys
          && forall k :: k in s.stock ==> s'.stock[k] == s.stock[k] + if k in lines then lines[k] else 0
      else
        && reply == Some(ReleasedReply(tx, epoch, 0, key in s.adj && s.adj[key].Released?))
        && s' == s.(adj := s.adj[key := Released])
  {
    hide UnitsOf;
    if (tx, epoch) in s.adj && s.adj[(tx, epoch)].Applied? {
      var lines := s.adj[(tx, epoch)].lines;
      var restored := Restore(s.stock, lines);
      assert forall k :: k in s.stock ==> restored[k] == s.stock[k] + if k in lines then lines[k] else 0;
    }
  }

  ghost function Handle(s: Store, req: Request): (Store, Option<Reply>)
  {
    match req
    case ReserveReq(tx, epoch, lines) => var (s', reply) := Reserve(s, tx, epoch, lines); (s', Some(reply))
    case ReleaseReq(tx, epoch) => Release(s, tx, epoch)
  }

  // ---- the service -------------------------------------------------------------------------

  class Service {
    const initial: map<Sku, int>
    const threshold: int
    var stock: map<Sku, int>
    var adj: map<Key, Adjustment>
    var alerts: multiset<Alert>
    var outbox: seq<Reply>

    ghost function State(): Store
      reads this
    {
      Store(initial, stock, adj, alerts, threshold)
    }

    constructor (initial: map<Sku, int>, threshold: int)
      ensures State() == Store(initial, initial, map[], multiset{}, threshold)
      ensures outbox == []
    {
      this.initial, this.threshold := initial, threshold;
      stock, adj, alerts, outbox := initial, map[], multiset{}, [];
    }

    /** Merge repeated SKUs and put the lines in SKU order, the order their rows are locked in. */
    static method Normalize(lines: seq<(Sku, int)>) returns (merged: map<Sku, int>, sorted: seq<(Sku, int)>)
      ensures merged == Merge(lines)
      ensures ListsInOrder(sorted, merged)
    {
      merged := map[];
      for n := 0 to |lines|
        invariant merged == Merge(lines[..n])
      {
        assert lines[..n + 1][..n] == lines[..n];
        merged := merged[lines[n].0 := At(merged, lines[n].0) + lines[n].1];
      }
      assert lines[..|lines|] == lines;
      sorted := SortedItems(merged);
    }

    /** One statement: look up the record, lock, check every row, decrement, raise alerts, record. */
    method ReserveLines(tx: nat, epoch: nat, lines: seq<(Sku, int)>) returns (reply: Reply)
      modifies this`stock, this`adj, this`alerts
      ensures (State(), reply) == Reserve(old(State()), tx, epoch, Merge(lines))
    {
      var basket, inOrder := Normalize(lines);
      var key := (tx, epoch);
      if key in adj {
        match adj[key] {
          case Applied(_) => return ReservedReply(tx, epoch, true);
          case Rejected(short) => return RejectedReply(tx, epoch, short);
          case Released => return RefusedReply(tx, epoch);
        }
      }
      var ok := |inOrder| > 0;
      var short: set<Sku> := {};
      for n := 0 to |inOrder|
        invariant short == set i | 0 <= i < n &&
          (inOrder[i].0 !in stock || stock[inOrder[i].0] < inOrder[i].1) :: inOrder[i].0
      {
        if inOrder[n].0 !in stock || stock[inOrder[n].0] < inOrder[n].1 {
          short := short + {inOrder[n].0};
        }
      }
      ListingCovers(stock, basket, inOrder, short);
      if ok && short == {} {
        alerts := alerts + multiset(Crossing(stock, basket, threshold));
        stock := Take(stock, basket);
        adj := adj[key := Applied(basket)];
        reply := ReservedReply(tx, epoch, false);
      } else {
        adj := adj[key := Rejected(short)];
        reply := RejectedReply(tx, epoch, short);
      }
    }

    /** Undo the attempt once, or leave a record that no reserve of it may follow. */
    method ReleaseAttempt(tx: nat, epoch: nat) returns (reply: Option<Reply>)
      modifies this`stock, this`adj
      ensures (State(), reply) == Release(old(State()), tx, epoch)
    {
      var key := (tx, epoch);
      if key !in adj {
        adj := adj[key := Released];
        return Some(ReleasedReply(tx, epoch, 0, false));
      }
      match adj[key] {
        case Released => return Some(ReleasedReply(tx, epoch, 0, true));
        case Rejected(_) =>
          adj := adj[key := Released];
          return Some(ReleasedReply(tx, epoch, 0, false));
        case Applied(lines) =>
          var restored := Restore(stock, lines);
          if exists k :: k in restored && restored[k] < 0 {
            return None;
          }
          var units := TotalUnits(lines);
          stock := restored;
          adj := adj[key := Released];
          return Some(ReleasedReply(tx, epoch, units, false));
      }
    }

    static method TotalUnits(lines: Lines) returns (units: int)
      ensures units == UnitsOf(lines)
    {
      var left := lines.Keys;
      units := 0;
      while left != {}
        invariant left <= lines.Keys
        invariant units + SumOver(left, AtEach(lines)) == UnitsOf(lines)
        decreases left
      {
        var k :| k in left;
        SumRemove(left, AtEach(lines), k);
        units := units + lines[k];
        left := left - {k};
      }
    }

    /** A reservation request: one local transaction, its outcome queued in the same transaction. */
    method HandleReservation(tx: nat, epoch: nat, lines: seq<(Sku, int)>) returns (outcome: Reply)
      modifies this
      ensures (State(), Some(outcome)) == Handle(old(State()), ReserveReq(tx, epoch, Merge(lines)))
      ensures outbox == old(outbox) + [outcome]
    {
      outcome := ReserveLines(tx, epoch, lines);
      outbox := outbox + [outcome];
    }

    /** A release request, likewise. An aborted transaction queues nothing. */
    method HandleRelease(tx: nat, epoch: nat) returns (outcome: Option<Reply>)
      modifies this
      ensures (State(), outcome) == Handle(old(State()), ReleaseReq(tx, epoch))
      ensures outbox == if outcome.Some? then old(outbox) + [outcome.value] else old(outbox)
    {
      outcome := ReleaseAttempt(tx, epoch);
      if outcome.Some? {
        outbox := outbox + [outcome.value];
      }
    }
  }

  lemma ListingCovers(stock: map<Sku, int>, lines: Lines, inOrder: seq<(Sku, int)>, short: set<Sku>)
    requires ListsInOrder(inOrder, lines)
    requires short == set i | 0 <= i < |inOrder| &&
      (inOrder[i].0 !in stock || stock[inOrder[i].0] < inOrder[i].1) :: inOrder[i].0
    ensures short == ShortSkus(stock, lines)
    ensures (|inOrder| > 0 && short == {}) <==> Covers(stock, lines)
  {
    EmptyListing(inOrder, lines);
    assert forall k :: k in lines ==> Lists(inOrder, k);
    assert short == ShortSkus(stock, lines);
    if short == {} {
      forall k | k in lines ensures k in stock && stock[k] >= lines[k] {
        assert k !in ShortSkus(stock, lines);
      }
    }
  }

  /** Merging lines that already come one per SKU gives the same dict back, so the lines Checkout
      sends are the lines Inventory records. */
  lemma {:induction false} MergeOfListing(pairs: seq<(Sku, int)>, m: map<Sku, int>)
    requires ListsInOrder(pairs, m)
    ensures Merge(pairs) == m
  {
    forall k ensures (k in Merge(pairs) <==> k in m) && At(Merge(pairs), k) == At(m, k) {
      MergeSums(pairs, k);
      ListingQty(pairs, m, k);
    }
  }

  lemma {:induction false} ListingQty(pairs: seq<(Sku, int)>, m: map<Sku, int>, k: Sku)
    requires ListsInOrder(pairs, m)
    ensures Mentions(pairs, k) <==> k in m
    ensures QtyIn(pairs, k) == At(m, k)
    decreases |pairs|
  {
    EmptyListing(pairs, m);
    if pairs != [] {
      DropFirst(pairs, m);
      ListingQty(pairs[1..], m - {pairs[0].0}, k);
    }
    if k in m { assert Lists(pairs, k); }
  }
}
