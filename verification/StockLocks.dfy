/** Row locks on the stock table. Every reserve and restore locks its rows in ascending SKU order, so no set of
    concurrent transactions can ever wait in a circle. */
module StockLocks {
  import opened Skus

  /** A transaction that locks `rows` in order and holds the first `got` of them. */
  datatype Locker = Locker(rows: seq<Sku>, got: nat)

  type Table = map<nat, Locker>

  datatype Step =
    | Start(p: nat, rows: seq<Sku>)
    | Acquire(p: nat)
    | Finish(p: nat)   // commit, or abort at any point: every lock is given back

  ghost predicate InOrder(rows: seq<Sku>)
  {
    forall i, j :: 0 <= i < j < |rows| ==> Less(rows[i], rows[j])
  }

  ghost predicate HoldsRow(t: Table, p: nat, k: Sku)
  {
    p in t && exists i :: 0 <= i < t[p].got && i < |t[p].rows| && t[p].rows[i] == k
  }

  ghost predicate Wants(t: Table, p: nat, k: Sku)
  {
    p in t && t[p].got < |t[p].rows| && t[p].rows[t[p].got] == k
  }

  ghost predicate Free(t: Table, p: nat, k: Sku)
  {
    forall q :: HoldsRow(t, q, k) ==> q == p
  }

  ghost predicate CanStep(t: Table, s: Step)
  {
    match s
    case Start(p, rows) => p !in t && InOrder(rows)
    case Acquire(p) => p in t && t[p].got < |t[p].rows| && Free(t, p, t[p].rows[t[p].got])
    case Finish(p) => p in t
  }

  ghost function Do(t: Table, s: Step): Table
    requires CanStep(t, s)
  {
    match s
    case Start(p, rows) => t[p := Locker(rows, 0)]
    case Acquire(p) => t[p := t[p].(got := t[p].got + 1)]
    case Finish(p) => t - {p}
  }

  ghost predicate LockRun(t: Table, steps: seq<Step>, t': Table)
    decreases |steps|
  {
    if steps == [] then t' == t else CanStep(t, steps[0]) && LockRun(Do(t, steps[0]), steps[1..], t')
  }

  /** Rows are asked for in order, and no row has two holders. */
  ghost predicate Orderly(t: Table)
  {
    && (forall p :: p in t ==> InOrder(t[p].rows) && t[p].got <= |t[p].rows|)
    && (forall p, q, k :: HoldsRow(t, p, k) && HoldsRow(t, q, k) ==> p == q)
  }

  lemma StepKeepsOrder(t: Table, s: Step)
    requires Orderly(t) && CanStep(t, s)
    ensures Orderly(Do(t, s))
  {
    hide Less;
    var t' := Do(t, s);
    forall p: nat, k | HoldsRow(t', p, k)
      ensures HoldsRow(t, p, k) || (s == Acquire(p) && Wants(t, p, k)) {
      var i :| 0 <= i < t'[p].got && i < |t'[p].rows| && t'[p].rows[i] == k;
    }
  }

  lemma {:induction false} ReachableOrderly(steps: seq<Step>, t0: Table, t: Table)
    requires Orderly(t0) && LockRun(t0, steps, t)
    ensures Orderly(t)
    decreases |steps|
  {
    if steps != [] {
      StepKeepsOrder(t0, steps[0]);
      ReachableOrderly(steps[1..], Do(t0, steps[0]), t);
    }
  }

  /** `p` waits for a row that `q` holds. */
  ghost predicate WaitsFor(t: Table, p: nat, q: nat)
  {
    p != q && p in t && t[p].got < |t[p].rows| && HoldsRow(t, q, t[p].rows[t[p].got])
  }

  ghost predicate WaitPath(t: Table, path: seq<nat>)
  {
    |path| >= 2 && forall i :: 0 <= i < |path| - 1 ==> WaitsFor(t, path[i], path[i + 1])
  }

  /** Whoever holds what another waits for is past that row: what it waits for itself comes later. */
  lemma WantsRise(t: Table, p: nat, q: nat, k: Sku)
    requires Orderly(t) && WaitsFor(t, p, q) && Wants(t, q, k)
    ensures Less(t[p].rows[t[p].got], k)
  {
  }

  lemma HoldersWantLater(t: Table, p: nat)
    requires Orderly(t) && p in t && t[p].got < |t[p].rows|
    ensures forall q :: WaitsFor(t, p, q) && t[q].got < |t[q].rows| ==> Less(t[p].rows[t[p].got], t[q].rows[t[q].got])
  {
    forall q: nat | WaitsFor(t, p, q) && t[q].got < |t[q].rows|
      ensures Less(t[p].rows[t[p].got], t[q].rows[t[q].got])
    {
      WantsRise(t, p, q, t[q].rows[t[q].got]);
    }
  }

  lemma {:induction false} WantsRiseAlong(t: Table, path: seq<nat>, k: Sku)
    requires Orderly(t) && WaitPath(t, path) && Wants(t, path[|path| - 1], k)
    ensures WaitsFor(t, path[0], path[1])
    ensures Less(t[path[0]].rows[t[path[0]].got], k)
    decreases |path|
  {
    assert WaitsFor(t, path[0], path[1]);
    if |path| == 2 {
      WantsRise(t, path[0], path[1], k);
    } else {
      var rest := path[1..];
      assert forall i :: 0 <= i < |rest| - 1 ==> WaitsFor(t, rest[i], rest[i + 1]) by {
        forall i | 0 <= i < |rest| - 1 ensures WaitsFor(t, rest[i], rest[i + 1]) {
          assert WaitsFor(t, path[i + 1], path[i + 2]);
        }
      }
      WantsRiseAlong(t, rest, k);
      assert WaitsFor(t, path[1], path[2]);
      var next := t[path[1]].rows[t[path[1]].got];
      WantsRise(t, path[0], path[1], next);
      LessTransitive(t[path[0]].rows[t[path[0]].got], next, k);
    }
  }

  /** No deadlock: in no reachable lock table does a chain of waits lead back to where it started. */
  lemma NoWaitCycle(steps: seq<Step>, t: Table, path: seq<nat>)
    requires LockRun(map[], steps, t) && WaitPath(t, path)
    ensures path[0] != path[|path| - 1]
  {
    ReachableOrderly(steps, map[], t);
    assert WaitsFor(t, path[0], path[1]);
    var k := t[path[0]].rows[t[path[0]].got];
    LessIrreflexive(k);
    if path[0] == path[|path| - 1] {
      WantsRiseAlong(t, path, k);
    }
  }

  /** Among transactions that all want a row, one wants a row no other wants a later one than. */
  lemma {:induction false} LastWanted(t: Table, ps: set<nat>) returns (p: nat)
    requires ps != {} && forall q :: q in ps ==> q in t && t[q].got < |t[q].rows|
    ensures p in ps && forall q :: q in ps ==> !Less(t[p].rows[t[p].got], t[q].rows[t[q].got])
    decreases ps
  {
    p :| p in ps;
    LessIrreflexive(t[p].rows[t[p].got]);
    if ps != {p} {
      var r := LastWanted(t, ps - {p});
      if Less(t[p].rows[t[p].got], t[r].rows[t[r].got]) {
        forall q | q in ps ensures !Less(t[r].rows[t[r].got], t[q].rows[t[q].got]) {
          if q == p && Less(t[r].rows[t[r].got], t[p].rows[t[p].got]) {
            LessTransitive(t[p].rows[t[p].got], t[r].rows[t[r].got], t[p].rows[t[p].got]);
          }
        }
        p := r;
      } else {
        forall q | q in ps ensures !Less(t[p].rows[t[p].got], t[q].rows[t[q].got]) {
          if q != p && Less(t[p].rows[t[p].got], t[q].rows[t[q].got]) {
            if q != r && t[q].rows[t[q].got] != t[r].rows[t[r].got] {
              LessTotal(t[q].rows[t[q].got], t[r].rows[t[r].got]);
              LessTransitive(t[p].rows[t[p].got], t[q].rows[t[q].got], t[r].rows[t[r].got]);
            }
          }
        }
      }
    }
  }

  /** Someone can always go on: as long as any transaction is active, one of them has all its locks or can
      take its next one. */
  lemma SomeoneProceeds(steps: seq<Step>, t: Table)
    requires LockRun(map[], steps, t) && t != map[]
    ensures exists p :: p in t && (t[p].got == |t[p].rows| || CanStep(t, Acquire(p)))
  {
    ReachableOrderly(steps, map[], t);
    if forall p :: p in t ==> t[p].got < |t[p].rows| {
      var p := LastWanted(t, t.Keys);
      var k := t[p].rows[t[p].got];
      HoldersWantLater(t, p);
      assert CanStep(t, Acquire(p));
    } else {
      var p :| p in t && t[p].got >= |t[p].rows|;
      assert t[p].got == |t[p].rows|;
    }
  }
}
