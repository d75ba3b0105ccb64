/** Small pieces every other module uses: Option, sums over finite sets, ascending integer sequences. */
module Collections {

  datatype Option<+T> = None | Some(value: T)

  function Max(a: int, b: int): int { if a < b then b else a }

  function Min(a: int, b: int): int { if a < b then a else b }

  lemma SomeElement<T>(s: set<T>) returns (x: T)
    requires s != {}
    ensures x in s
  {
    x :| x in s;
  }

  // ---- sizes -------------------------------------------------------------------------------

  ghost function Elements<T(!new)>(s: seq<T>): set<T>
  {
    set x | x in s
  }

  lemma {:induction false} DistinctCount<T(!new)>(s: seq<T>)
    requires forall i, j :: 0 <= i < j < |s| ==> s[i] != s[j]
    ensures |Elements(s)| == |s|
  {
    if s != [] {
      var front, last := s[..|s| - 1], s[|s| - 1];
      DistinctCount(front);
      assert s == front + [last];
      assert Elements(s) == Elements(front) + {last};
      assert last !in front;
    }
  }

  lemma SubsetSize<T>(a: set<T>, b: set<T>)
    requires a <= b
    ensures |b - a| == |b| - |a| && |a| <= |b| && (|a| == |b| ==> a == b)
  {
    assert b == a + (b - a);
  }

  // ---- sums over a finite set --------------------------------------------------------------

  ghost function SumOver<K(!new)>(s: set<K>, f: K -> int): int
  {
    if s == {} then 0 else
      var x :| x in s;
      f(x) + SumOver(s - {x}, f)
  }

  /** The sum does not depend on which element is taken first. */
  lemma {:induction false} SumRemove<K(!new)>(s: set<K>, f: K -> int, y: K)
    requires y in s
    ensures SumOver(s, f) == f(y) + SumOver(s - {y}, f)
    decreases s
  {
    var x :| x in s && SumOver(s, f) == f(x) + SumOver(s - {x}, f);
    if x != y {
      SumRemove(s - {x}, f, y);
      SumRemove(s - {y}, f, x);
      assert s - {x} - {y} == s - {y} - {x};
    }
  }

  lemma {:induction false} SumCongruent<K(!new)>(s: set<K>, f: K -> int, g: K -> int)
    requires forall x | x in s :: f(x) == g(x)
    ensures SumOver(s, f) == SumOver(s, g)
    decreases s
  {
    if s != {} {
      var x :| x in s;
      SumRemove(s, f, x);
      SumRemove(s, g, x);
      SumCongruent(s - {x}, f, g);
    }
  }

  /** Changing the summand at `y`, or adding `y` where the summand was zero, changes the sum by the difference there. */
  lemma SumChange<K(!new)>(a: set<K>, f: K -> int, b: set<K>, g: K -> int, y: K)
    requires b == a + {y}
    requires forall x | x in b && x != y :: f(x) == g(x)
    requires y !in a ==> f(y) == 0
    ensures SumOver(b, g) == SumOver(a, f) - f(y) + g(y)
  {
    SumRemove(b, g, y);
    if y in a { SumRemove(a, f, y); }
    assert b - {y} == a - {y};
    SumCongruent(b - {y}, f, g);
    assert y !in a ==> a - {y} == a;
  }

  lemma {:induction false} SumZero<K(!new)>(s: set<K>, f: K -> int)
    requires forall x | x in s :: f(x) == 0
    ensures SumOver(s, f) == 0
    decreases s
  {
    if s != {} {
      var x :| x in s;
      SumRemove(s, f, x);
      SumZero(s - {x}, f);
    }
  }

  /** A sum over `A` that is zero off the image of an injection `h` is the sum over the injection's source. */
  lemma {:induction false} SumReindex<A(!new), B(!new)>(a: set<A>, f: A -> int, b: set<B>, g: B -> int, h: B -> A)
    requires forall y | y in b :: h(y) in a && f(h(y)) == g(y)
    requires forall y, z | y in b && z in b && h(y) == h(z) :: y == z
    requires forall x | x in a && (forall y | y in b :: h(y) != x) :: f(x) == 0
    ensures SumOver(a, f) == SumOver(b, g)
    decreases b
  {
    if b == {} {
      SumZero(a, f);
    } else {
      var y :| y in b;
      SumRemove(b, g, y);
      SumRemove(a, f, h(y));
      SumReindex(a - {h(y)}, f, b - {y}, g, h);
    }
  }

  // ---- ascending integers ------------------------------------------------------------------

  ghost predicate Ascending(s: seq<int>)
  {
    forall i, j :: 0 <= i < j < |s| ==> s[i] < s[j]
  }

  /** Strictly ascending integers in `(lo, hi]` number at most `hi - lo`. */
  lemma {:induction false} AscendingFits(s: seq<int>, lo: int, hi: int)
    requires Ascending(s) && lo <= hi
    requires forall i | 0 <= i < |s| :: lo < s[i] <= hi
    ensures |s| <= hi - lo
    decreases |s|
  {
    if s != [] {
      var last := s[|s| - 1];
      AscendingFits(s[..|s| - 1], lo, last - 1);
    }
  }
}
