/** The items of a transaction, the grouped basket a completion reads, and the lines it reserves. */
module Baskets {
  import opened Collections
  import opened Skus

  /** One row of `transaction_item`, with the price captured at scan time. */
  datatype Item = Item(sku: Sku, price: int)

  /** One row of the grouped basket. */
  datatype Row = Row(sku: Sku, price: int, qty: nat)

  // ---- merging (sku, qty) pairs into a dict ------------------------------------------------

  /** `merged[sku] = merged.get(sku, 0) + qty` for each pair in turn. */
  function Merge(pairs: seq<(Sku, int)>): map<Sku, int>
  {
    if pairs == [] then map[] else
      var m := Merge(pairs[..|pairs| - 1]);
      var (k, q) := pairs[|pairs| - 1];
      m[k := At(m, k) + q]
  }

  function Pairs(rows: seq<Row>): seq<(Sku, int)>
  {
    seq(|rows|, i requires 0 <= i < |rows| => (rows[i].sku, rows[i].qty))
  }

  /** The lines of a reservation request: the basket merged by SKU, in SKU order. */
  method Lines(basket: seq<Row>) returns (merged: map<Sku, int>, lines: seq<(Sku, int)>)
    ensures merged == Merge(Pairs(basket))
    ensures ListsInOrder(lines, merged)
  {
    merged := map[];
    for n := 0 to |basket|
      invariant merged == Merge(Pairs(basket[..n]))
    {
      assert Pairs(basket[..n + 1])[..n] == Pairs(basket[..n]);
      merged := merged[basket[n].sku := At(merged, basket[n].sku) + basket[n].qty];
    }
    assert basket[..|basket|] == basket;
    lines := SortedItems(merged);
  }

  ghost function QtyIn(pairs: seq<(Sku, int)>, k: Sku): int
  {
    if pairs == [] then 0 else QtyIn(pairs[1..], k) + if pairs[0].0 == k then pairs[0].1 else 0
  }

  ghost predicate Mentions(pairs: seq<(Sku, int)>, k: Sku)
  {
    exists i :: 0 <= i < |pairs| && pairs[i].0 == k
  }

  lemma {:induction false} QtyInSnoc(pairs: seq<(Sku, int)>, p: (Sku, int), k: Sku)
    ensures QtyIn(pairs + [p], k) == QtyIn(pairs, k) + if p.0 == k then p.1 else 0
  {
    if pairs == [] {
      assert ([p])[1..] == [];
    } else {
      assert (pairs + [p])[1..] == pairs[1..] + [p];
      QtyInSnoc(pairs[1..], p, k);
    }
  }

  /** The merged dict holds, for each SKU mentioned and no other, the sum of its quantities. */
  lemma {:induction false} MergeSums(pairs: seq<(Sku, int)>, k: Sku)
    ensures k in Merge(pairs) <==> Mentions(pairs, k)
    ensures At(Merge(pairs), k) == QtyIn(pairs, k)
  {
    if pairs != [] {
      var front, last := pairs[..|pairs| - 1], pairs[|pairs| - 1];
      assert pairs == front + [last];
      MergeSums(front, k);
      QtyInSnoc(front, last, k);
      assert Mentions(pairs, k) <==> Mentions(front, k) || last.0 == k by {
        if Mentions(front, k) {
          var i :| 0 <= i < |front| && front[i].0 == k;
          assert pairs[i].0 == k;
        }
      }
    }
  }

  // ---- the grouped basket ------------------------------------------------------------------

  predicate RowLess(a: Row, b: Row)
  {
    Less(a.sku, b.sku) || (a.sku == b.sku && a.price < b.price)
  }

  function AddItem(rows: seq<Row>, it: Item): seq<Row>
  {
    if rows == [] then [Row(it.sku, it.price, 1)]
    else if rows[0].sku == it.sku && rows[0].price == it.price then [rows[0].(qty := rows[0].qty + 1)] + rows[1..]
    else if RowLess(Row(it.sku, it.price, 1), rows[0]) then [Row(it.sku, it.price, 1)] + rows
    else [rows[0]] + AddItem(rows[1..], it)
  }

  /** `GROUP BY sku, unit_price_cents ORDER BY sku, unit_price_cents`, counting the items of each group. */
  function Basket(items: seq<Item>): seq<Row>
  {
    if items == [] then [] else AddItem(Basket(items[..|items| - 1]), items[|items| - 1])
  }

  function BasketTotal(rows: seq<Row>): int
  {
    if rows == [] then 0 else rows[0].price * rows[0].qty + BasketTotal(rows[1..])
  }

  method TotalOf(rows: seq<Row>) returns (total: int)
    ensures total == BasketTotal(rows)
  {
    total := 0;
    for n := |rows| downto 0
      invariant total == BasketTotal(rows[n..])
    {
      total := total + rows[n].price * rows[n].qty;
    }
  }

  function BasketUnits(rows: seq<Row>): nat
  {
    if rows == [] then 0 else rows[0].qty + BasketUnits(rows[1..])
  }

  // ---- reference counts over the items themselves ------------------------------------------

  function SumPrices(items: seq<Item>): int
  {
    if items == [] then 0 else SumPrices(items[..|items| - 1]) + items[|items| - 1].price
  }

  function Units(items: seq<Item>, k: Sku): nat
  {
    if items == [] then 0 else Units(items[..|items| - 1], k) + if items[|items| - 1].sku == k then 1 else 0
  }

  /** How many times each SKU was scanned. */
  function Counts(items: seq<Item>): map<Sku, int>
  {
    map i | 0 <= i < |items| :: items[i].sku := Units(items, items[i].sku)
  }

  lemma PairsTail(rows: seq<Row>)
    requires rows != []
    ensures Pairs(rows)[1..] == Pairs(rows[1..])
  {
    var a, b := Pairs(rows)[1..], Pairs(rows[1..]);
    assert |a| == |b|;
    forall i | 0 <= i < |a| ensures a[i] == b[i] {
      assert a[i] == Pairs(rows)[i + 1];
      assert rows[1..][i] == rows[i + 1];
    }
  }

  lemma {:induction false} AddItemEffect(rows: seq<Row>, it: Item, k: Sku)
    ensures BasketTotal(AddItem(rows, it)) == BasketTotal(rows) + it.price
    ensures BasketUnits(AddItem(rows, it)) == BasketUnits(rows) + 1
    ensures QtyIn(Pairs(AddItem(rows, it)), k) == QtyIn(Pairs(rows), k) + if it.sku == k then 1 else 0
  {
    var rows' := AddItem(rows, it);
    PairsTail(rows');
    if rows != [] {
      PairsTail(rows);
      if rows[0].sku == it.sku && rows[0].price == it.price {
      } else if RowLess(Row(it.sku, it.price, 1), rows[0]) {
        assert rows'[1..] == rows;
      } else {
        AddItemEffect(rows[1..], it, k);
      }
    }
  }

  /** Grouping loses no money and no unit, and per SKU it counts exactly the scans. */
  lemma {:induction false} BasketAccounts(items: seq<Item>, k: Sku)
    ensures BasketTotal(Basket(items)) == SumPrices(items)
    ensures BasketUnits(Basket(items)) == |items|
    ensures QtyIn(Pairs(Basket(items)), k) == Units(items, k)
  {
    if items != [] {
      BasketAccounts(items[..|items| - 1], k);
      AddItemEffect(Basket(items[..|items| - 1]), items[|items| - 1], k);
    }
  }

  /** Rows come out strictly ascending by (sku, price), so no group is listed twice. */
  ghost predicate RowsAscending(rows: seq<Row>)
  {
    forall i, j :: 0 <= i < j < |rows| ==> RowLess(rows[i], rows[j])
  }

  ghost predicate BelowAll(r: Row, rows: seq<Row>)
  {
    forall i :: 0 <= i < |rows| ==> RowLess(r, rows[i])
  }

  lemma RowLessTransitive(a: Row, b: Row, c: Row)
    requires RowLess(a, b) && RowLess(b, c)
    ensures RowLess(a, c)
  {
    if Less(a.sku, b.sku) && Less(b.sku, c.sku) { LessTransitive(a.sku, b.sku, c.sku); }
  }

  lemma {:induction false} AddItemAscending(rows: seq<Row>, it: Item)
    requires RowsAscending(rows)
    ensures RowsAscending(AddItem(rows, it))
    ensures forall low :: BelowAll(low, rows) && RowLess(low, Row(it.sku, it.price, 1)) ==>
      BelowAll(low, AddItem(rows, it))
  {
    if rows != [] {
      var first, added := rows[0], Row(it.sku, it.price, 1);
      if first.sku == it.sku && first.price == it.price {
      } else if RowLess(added, first) {
        forall i | 0 <= i < |rows| ensures RowLess(added, rows[i]) {
          if i > 0 { RowLessTransitive(added, first, rows[i]); }
        }
      } else {
        if first.sku != it.sku { LessTotal(first.sku, it.sku); }
        AddItemAscending(rows[1..], it);
        assert BelowAll(first, rows[1..]);
      }
    }
  }

  /** The rows come back in key order, each (sku, price) group once. */
  lemma {:induction false} BasketAscending(items: seq<Item>)
    ensures RowsAscending(Basket(items))
  {
    if items != [] {
      BasketAscending(items[..|items| - 1]);
      AddItemAscending(Basket(items[..|items| - 1]), items[|items| - 1]);
    }
  }

  // ---- the lines that are reserved ---------------------------------------------------------

  lemma {:induction false} UnitsPositive(items: seq<Item>, k: Sku)
    ensures Units(items, k) > 0 <==> k in Counts(items)
  {
    if items != [] {
      var front, last := items[..|items| - 1], items[|items| - 1];
      UnitsPositive(front, k);
      assert k in Counts(items) <==> k in Counts(front) || last.sku == k by {
        if k in Counts(front) {
          var i :| 0 <= i < |front| && front[i].sku == k;
          assert items[i].sku == k;
        }
      }
    }
  }

  lemma {:induction false} NoEmptyGroup(items: seq<Item>)
    ensures forall i :: 0 <= i < |Basket(items)| ==> Basket(items)[i].qty > 0
  {
    if items != [] {
      NoEmptyGroup(items[..|items| - 1]);
      AddItemKeepsGroups(Basket(items[..|items| - 1]), items[|items| - 1]);
    }
  }

  lemma {:induction false} AddItemKeepsGroups(rows: seq<Row>, it: Item)
    requires forall i :: 0 <= i < |rows| ==> rows[i].qty > 0
    ensures forall i :: 0 <= i < |AddItem(rows, it)| ==> AddItem(rows, it)[i].qty > 0
  {
    if rows != [] {
      AddItemKeepsGroups(rows[1..], it);
    }
  }

  lemma {:induction false} PositiveSum(pairs: seq<(Sku, int)>, k: Sku)
    requires forall i :: 0 <= i < |pairs| ==> pairs[i].1 > 0
    ensures QtyIn(pairs, k) >= 0
    ensures QtyIn(pairs, k) > 0 <==> Mentions(pairs, k)
  {
    if pairs != [] {
      PositiveSum(pairs[1..], k);
      assert Mentions(pairs, k) <==> Mentions(pairs[1..], k) || pairs[0].0 == k by {
        if Mentions(pairs[1..], k) {
          var i :| 0 <= i < |pairs[1..]| && pairs[1..][i].0 == k;
          assert pairs[i + 1].0 == k;
        }
        if Mentions(pairs, k) && pairs[0].0 != k {
          var i :| 0 <= i < |pairs| && pairs[i].0 == k;
          assert pairs[1..][i - 1].0 == k;
        }
      }
    }
  }

  /** The merged lines of the grouped basket are the scan counts, whatever prices split the groups. */
  lemma LinesAreScanCounts(items: seq<Item>)
    ensures Merge(Pairs(Basket(items))) == Counts(items)
  {
    var m := Merge(Pairs(Basket(items)));
    NoEmptyGroup(items);
    forall k ensures (k in m <==> k in Counts(items)) && At(m, k) == Units(items, k) {
      MergeSums(Pairs(Basket(items)), k);
      BasketAccounts(items, k);
      PositiveSum(Pairs(Basket(items)), k);
      UnitsPositive(items, k);
    }
  }

  lemma CountsKeys(front: seq<Item>, last: Item)
    ensures Counts(front + [last]).Keys == Counts(front).Keys + {last.sku}
  {
    var items := front + [last];
    assert items[..|front|] == front;
    forall k ensures k in Counts(items) <==> k in Counts(front).Keys + {last.sku} {
      UnitsPositive(front, k);
      UnitsPositive(items, k);
    }
  }

  ghost function UnitsEach(items: seq<Item>): Sku -> int { k => Units(items, k) }

  ghost function AtEach(m: map<Sku, int>): Sku -> int { k => At(m, k) }

  lemma {:induction false} CountsAddUp(items: seq<Item>)
    ensures SumOver(Counts(items).Keys, UnitsEach(items)) == |items|
  {
    if items != [] {
      var front, last := items[..|items| - 1], items[|items| - 1];
      assert items == front + [last];
      CountsAddUp(front);
      OneMoreItem(front, last);
    }
  }

  lemma OneMoreItem(front: seq<Item>, last: Item)
    ensures var items := front + [last];
      SumOver(Counts(items).Keys, UnitsEach(items)) == SumOver(Counts(front).Keys, UnitsEach(front)) + 1
  {
    var items := front + [last];
    assert items[..|front|] == front;
    CountsKeys(front, last);
    UnitsPositive(front, last.sku);
    assert forall k :: Units(items, k) == Units(front, k) + if last.sku == k then 1 else 0;
    hide Units, Counts;
    SumChange(Counts(front).Keys, UnitsEach(front), Counts(items).Keys, UnitsEach(items), last.sku);
  }

  /** The reserved lines carry exactly the transaction's item count. */
  lemma LinesCarryEveryItem(items: seq<Item>)
    ensures SumOver(Counts(items).Keys, AtEach(Counts(items))) == |items|
  {
    CountsAddUp(items);
    SumCongruent(Counts(items).Keys, AtEach(Counts(items)), UnitsEach(items));
  }
}
