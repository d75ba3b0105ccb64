/** SKUs are strings compared code point by code point; `sorted(d.items())` lists a dict in that order. */
module Skus {

  type Sku = string

  /** `m.get(k, 0)`. */
  function At(m: map<Sku, int>, k: Sku): int
  {
    if k in m then m[k] else 0
  }

  predicate Less(a: Sku, b: Sku)
  {
    |b| > 0 && (|a| == 0 || a[0] < b[0] || (a[0] == b[0] && Less(a[1..], b[1..])))
  }

  lemma {:induction false} LessIrreflexive(a: Sku)
    ensures !Less(a, a)
  {
    if |a| > 0 { LessIrreflexive(a[1..]); }
  }

  lemma {:induction false} LessTransitive(a: Sku, b: Sku, c: Sku)
    requires Less(a, b) && Less(b, c)
    ensures Less(a, c)
  {
    if |a| > 0 && a[0] == b[0] == c[0] {
      LessTransitive(a[1..], b[1..], c[1..]);
    }
  }

  lemma {:induction false} LessTotal(a: Sku, b: Sku)
    requires a != b
    ensures Less(a, b) || Less(b, a)
  {
    if |a| > 0 && |b| > 0 && a[0] == b[0] {
      assert a == [a[0]] + a[1..] && b == [b[0]] + b[1..];
      LessTotal(a[1..], b[1..]);
    }
  }

  /** Equal before `i`, and there either `a` ends or has the smaller code point. */
  ghost predicate FirstDiffersAt(a: Sku, b: Sku, i: nat)
  {
    && i <= |a| && i < |b| && a[..i] == b[..i]
    && (i < |a| ==> a[i] < b[i])
  }

  /** The order is that of code points: where the two first differ the smaller comes first, and a prefix before what it
      is a prefix of. */
  lemma {:induction false} LessIsCodePointOrder(a: Sku, b: Sku)
    ensures Less(a, b) <==> exists i: nat :: FirstDiffersAt(a, b, i)
  {
    if Less(a, b) {
      var i := DiffersSomewhere(a, b);
    }
    if i: nat :| FirstDiffersAt(a, b, i) {
      DifferenceDecides(a, b, i);
    }
  }

  lemma {:induction false} DiffersSomewhere(a: Sku, b: Sku) returns (i: nat)
    requires Less(a, b)
    ensures FirstDiffersAt(a, b, i)
  {
    i := 0;
    if |a| > 0 && a[0] == b[0] {
      var j := DiffersSomewhere(a[1..], b[1..]);
      i := j + 1;
      assert a[..i] == [a[0]] + a[1..][..j] && b[..i] == [b[0]] + b[1..][..j];
    }
  }

  lemma {:induction false} DifferenceDecides(a: Sku, b: Sku, i: nat)
    requires FirstDiffersAt(a, b, i)
    ensures Less(a, b)
  {
    if i > 0 {
      assert a[0] == a[..i][0] == b[..i][0] == b[0];
      assert a[1..][..i - 1] == a[..i][1..] && b[1..][..i - 1] == b[..i][1..];
      DifferenceDecides(a[1..], b[1..], i - 1);
    }
  }

  ghost predicate SkuAscending<V>(s: seq<(Sku, V)>)
  {
    forall i, j :: 0 <= i < j < |s| ==> Less(s[i].0, s[j].0)
  }

  ghost predicate Lists<V>(s: seq<(Sku, V)>, k: Sku)
  {
    exists i :: 0 <= i < |s| && s[i].0 == k
  }

  /** `s` lists the items of `m`, each once, in ascending SKU order. */
  ghost predicate ListsInOrder<V>(s: seq<(Sku, V)>, m: map<Sku, V>)
  {
    SkuAscending(s) && ListsItems(s, m)
  }

  ghost predicate ListsItems<V>(s: seq<(Sku, V)>, m: map<Sku, V>)
  {
    && (forall i :: 0 <= i < |s| ==> s[i].0 in m && s[i].1 == m[s[i].0])
    && (forall k :: k in m ==> Lists(s, k))
  }

  /** The listing is determined by the dict: insertion order leaves no trace in it. */
  lemma {:induction false} ListingUnique<V>(s: seq<(Sku, V)>, t: seq<(Sku, V)>, m: map<Sku, V>)
    requires ListsInOrder(s, m) && ListsInOrder(t, m)
    ensures s == t
    decreases |s|
  {
    EmptyListing(s, m);
    EmptyListing(t, m);
    if m != map[] {
      FirstIsLeast(s, m, t[0].0);
      FirstIsLeast(t, m, s[0].0);
      if s[0].0 != t[0].0 {
        LessTransitive(s[0].0, t[0].0, s[0].0);
        LessIrreflexive(s[0].0);
      }
      DropFirst(s, m);
      DropFirst(t, m);
      ListingUnique(s[1..], t[1..], m - {s[0].0});
    }
  }

  lemma EmptyListing<V>(s: seq<(Sku, V)>, m: map<Sku, V>)
    requires ListsInOrder(s, m)
    ensures s == [] <==> m == map[]
  {
    if m != map[] {
      var k :| k in m;
      assert Lists(s, k);
    }
    if s != [] { assert s[0].0 in m; }
  }

  lemma FirstIsLeast<V>(s: seq<(Sku, V)>, m: map<Sku, V>, k: Sku)
    requires |s| > 0 && ListsInOrder(s, m) && k in m
    ensures k == s[0].0 || Less(s[0].0, k)
  {
    assert Lists(s, k);
  }

  lemma DropFirst<V>(s: seq<(Sku, V)>, m: map<Sku, V>)
    requires |s| > 0 && ListsInOrder(s, m)
    ensures ListsInOrder(s[1..], m - {s[0].0})
  {
    var k0, rest := s[0].0, m - {s[0].0};
    LessIrreflexive(k0);
    forall k | k in rest ensures Lists(s[1..], k) {
      assert Lists(s, k);
      var i :| 0 <= i < |s| && s[i].0 == k;
      assert s[1..][i - 1].0 == k;
    }
  }

  /** `sorted(m.items())`. */
  method SortedItems<V>(m: map<Sku, V>) returns (s: seq<(Sku, V)>)
    ensures ListsInOrder(s, m)
  {
    s := [];
    var left := m.Keys;
    while left != {}
      invariant left <= m.Keys
      invariant ListsInOrder(s, m - left)
      decreases left
    {
      var k :| k in left;
      s := Place(s, k, m[k], m - left);
      assert (m - left)[k := m[k]] == m - (left - {k});
      left := left - {k};
    }
    assert m - left == m;
  }

  /** Insert the new key `k` where it belongs. */
  method Place<V>(s: seq<(Sku, V)>, k: Sku, v: V, ghost m: map<Sku, V>) returns (r: seq<(Sku, V)>)
    requires ListsInOrder(s, m) && k !in m
    ensures ListsInOrder(r, m[k := v])
  {
    var n := 0;
    while n < |s| && Less(s[n].0, k)
      invariant 0 <= n <= |s|
      invariant forall i :: 0 <= i < n ==> Less(s[i].0, k)
    {
      n := n + 1;
    }
    r := s[..n] + [(k, v)] + s[n..];
    forall i | n <= i < |s| ensures Less(k, s[i].0) {
      LessTotal(s[n].0, k);
      if n < i { LessTransitive(k, s[n].0, s[i].0); }
    }
    PlacedAscending(s, n, k, v);
    PlacedItems(s, n, k, v, m);
  }

  lemma PlacedItems<V>(s: seq<(Sku, V)>, n: nat, k: Sku, v: V, m: map<Sku, V>)
    requires ListsItems(s, m) && k !in m && n <= |s|
    ensures ListsItems(s[..n] + [(k, v)] + s[n..], m[k := v])
  {
    var r, m' := s[..n] + [(k, v)] + s[n..], m[k := v];
    forall i | 0 <= i < |r| ensures r[i].0 in m' && r[i].1 == m'[r[i].0] {
      if i != n { assert r[i] == s[if i < n then i else i - 1]; }
    }
    forall key | key in m' ensures Lists(r, key) {
      if key == k {
        assert r[n].0 == k;
      } else {
        assert Lists(s, key);
        var i :| 0 <= i < |s| && s[i].0 == key;
        assert r[if i < n then i else i + 1].0 == key;
      }
    }
  }

  lemma PlacedAscending<V>(s: seq<(Sku, V)>, n: nat, k: Sku, v: V)
    requires SkuAscending(s) && n <= |s|
    requires forall i :: 0 <= i < n ==> Less(s[i].0, k)
    requires forall i :: n <= i < |s| ==> Less(k, s[i].0)
    ensures SkuAscending(s[..n] + [(k, v)] + s[n..])
  {
    var r := s[..n] + [(k, v)] + s[n..];
    forall i, j | 0 <= i < j < |r| ensures Less(r[i].0, r[j].0) {
      if i == n {
        assert r[j] == s[j - 1];
      } else if j == n {
        assert r[i] == s[i];
      } else {
        assert r[i] == s[if i < n then i else i - 1];
        assert r[j] == s[if j < n then j else j - 1];
      }
    }
  }
}
