/** Matching Inventory's replies to the completions waiting for them in this process. */
module ReplyWaiters {
  import opened Collections

  datatype Kind = StockReserved | StockRejected | ReservationRefused | StockReleased

  /** A transaction number and an epoch. */
  type AskKey = (int, int)

  /** A reply as read: the parsed record key and the parsed (transaction, epoch) of its data, absent when they do
      not parse; `id` tells replies apart. */
  datatype Reply = Reply(recordTx: Option<int>, about: Option<AskKey>, kind: Kind, id: nat)

  /** One ask waiting: the kinds that answer it, and its future. */
  datatype Waiter = Waiter(accepts: set<Kind>, future: nat)

  type Waiting = map<AskKey, seq<Waiter>>

  // ---- how many wait for a transaction -----------------------------------------------------

  function Listed(w: Waiting, k: AskKey): int
  {
    if k in w then |w[k]| else 0
  }

  function CountAt(w: Waiting, n: int, k: AskKey): int
  {
    if k.0 == n then Listed(w, k) else 0
  }

  /** The waiters of transaction `n`, over all its epochs. */
  ghost function WaitersOf(w: Waiting, n: int): int
  {
    SumOver(w.Keys, k => CountAt(w, n, k))
  }

  lemma {:induction false} SumNonNegative(s: set<AskKey>, w: Waiting, n: int)
    ensures SumOver(s, k => CountAt(w, n, k)) >= 0
    decreases s
  {
    if s != {} {
      var k := SomeElement(s);
      SumRemove(s, k => CountAt(w, n, k), k);
      SumNonNegative(s - {k}, w, n);
    }
  }

  /** A key's waiters are among its transaction's. */
  lemma ListedAtMost(w: Waiting, k: AskKey)
    requires k in w
    ensures |w[k]| <= WaitersOf(w, k.0)
  {
    SumRemove(w.Keys, k' => CountAt(w, k.0, k'), k);
    SumNonNegative(w.Keys - {k}, w, k.0);
  }

  lemma SumWithout(w: Waiting, n: int, k: AskKey, keys: set<AskKey>)
    requires w.Keys <= keys && keys <= w.Keys + {k}
    ensures SumOver(keys, k' => CountAt(w, n, k')) == WaitersOf(w, n)
  {
    if keys != w.Keys {
      assert k in keys && k !in w.Keys;
      SumRemove(keys, k' => CountAt(w, n, k'), k);
      assert keys - {k} == w.Keys;
    } else {
      assert keys == w.Keys;
    }
  }

  /** Changing one key's list changes the count of its transaction by the difference, and no other. */
  lemma CountChanges(w: Waiting, w': Waiting, k: AskKey, n: int)
    requires forall x :: x != k ==> (x in w <==> x in w') && (x in w ==> w[x] == w'[x])
    ensures WaitersOf(w', n) == WaitersOf(w, n) + CountAt(w', n, k) - CountAt(w, n, k)
  {
    var keys := w.Keys + w'.Keys;
    SumWithout(w, n, k, keys);
    SumWithout(w', n, k, keys);
    if k in keys {
      SumRemove(keys, x => CountAt(w, n, x), k);
      SumRemove(keys, x => CountAt(w', n, x), k);
      SumCongruent(keys - {k}, x => CountAt(w, n, x), x => CountAt(w', n, x));
    } else {
      SumCongruent(keys, x => CountAt(w, n, x), x => CountAt(w', n, x));
    }
  }

  // ---- the client --------------------------------------------------------------------------

  ghost predicate Registered(w: Waiting, k: AskKey, waiter: Waiter)
  {
    k in w && waiter in w[k]
  }

  /** The key filter's counts are the waiters' counts; no key keeps an empty list, and no future is listed twice. */
  ghost predicate Consistent(w: Waiting, active: map<int, nat>, nextFuture: nat)
  {
    && (forall k :: k in w ==> w[k] != [])
    && (forall n :: n in active ==> active[n] == WaitersOf(w, n) && active[n] > 0)
    && (forall n :: n !in active ==> WaitersOf(w, n) == 0)
    && (forall k, waiter :: Registered(w, k, waiter) ==> waiter.future < nextFuture)
    && (forall k, i, j :: k in w && 0 <= i < j < |w[k]| ==> w[k][i].future != w[k][j].future)
    && (forall k, l, a, b :: k != l && Registered(w, k, a) && Registered(w, l, b) ==> a.future != b.future)
  }

  /** Whether a reply answers an ask: same transaction, same epoch, an accepted kind. */
  predicate Answers(reply: Reply, k: AskKey, waiter: Waiter)
  {
    reply.about == Some(k) && reply.kind in waiter.accepts
  }

  ghost predicate Resolves(s: seq<Waiter>, n: nat, kind: Kind, future: nat)
    requires n <= |s|
  {
    exists j :: 0 <= j < n && s[j].future == future && kind in s[j].accepts
  }

  class StockEvents {
    var waiters: Waiting
    var active: map<int, nat>
    /** The futures done, and the reply each was done with. */
    var results: map<nat, Reply>
    var nextFuture: nat

    ghost predicate Valid()
      reads this
    {
      Consistent(waiters, active, nextFuture) && forall f :: f in results ==> f < nextFuture
    }

    constructor ()
      ensures Valid() && waiters == map[] && results == map[]
    {
      waiters, active, results, nextFuture := map[], map[], map[], 0;
    }

    /** The start of an ask: register a fresh future under its key. */
    method Enter(k: AskKey, accepts: set<Kind>) returns (waiter: Waiter)
      requires Valid()
      modifies this
      ensures Valid() && results == old(results)
      ensures waiter == Waiter(accepts, old(nextFuture)) && waiter.future !in results
      ensures waiters == old(waiters)[k := (if k in old(waiters) then old(waiters)[k] else []) + [waiter]]
    {
      waiter := Waiter(accepts, nextFuture);
      ghost var before := waiters;
      var held := (if k in waiters then waiters[k] else []) + [waiter];
      nextFuture := nextFuture + 1;
      waiters := waiters[k := held];
      active := active[k.0 := (if k.0 in active then active[k.0] else 0) + 1];
      EnterKeeps(before, old(active), nextFuture - 1, k, waiter);
    }

    /** The end of an ask, however it ended: forget its future. */
    method Leave(k: AskKey, waiter: Waiter)
      requires Valid()
      modifies this`waiters, this`active
      ensures Registered(old(waiters), k, waiter) ==> Valid()
      ensures waiters == Without(old(waiters), k, waiter)
      ensures Registered(old(waiters), k, waiter) ==>
        forall x, y :: Registered(waiters, x, y) <==> Registered(old(waiters), x, y) && !(x == k && y == waiter)
    {
      ghost var before, counts := waiters, active;
      var waiting := if k in waiters then waiters[k] else [];
      if waiter in waiting {
        waiting := Removed(waiting, waiter);
        waiters := waiters[k := waiting];
      }
      if waiting == [] { waiters := waiters - {k}; }
      var left: int := (if k.0 in active then active[k.0] as int else 0) - 1;
      if left > 0 {
        active := active[k.0 := left];
      } else {
        active := active - {k.0};
      }
      assert waiters == Without(before, k, waiter);
      if Registered(before, k, waiter) { LeaveKeeps(before, counts, nextFuture, k, waiter); }
    }

    /** False when no ask here can be waiting for the reply, from its record key alone: a reply not wanted, its key
        naming the transaction it is about, answers no one registered. */
    method Wanted(reply: Reply) returns (wanted: bool)
      requires Valid()
      ensures wanted <==> reply.recordTx.None? || reply.recordTx.value in active
      ensures !wanted && (reply.about.Some? ==> reply.about.value.0 == reply.recordTx.value) ==>
        forall k, waiter :: Registered(waiters, k, waiter) ==> !Answers(reply, k, waiter)
    {
      if reply.recordTx.None? { return true; }
      wanted := reply.recordTx.value in active;
      if !wanted && (reply.about.Some? ==> reply.about.value.0 == reply.recordTx.value) {
        DroppedAnswersNoOne(waiters, active, nextFuture, reply);
      }
    }

    /** Resolve the undone futures the reply answers; every other future stays as it is. */
    method Dispatch(reply: Reply)
      requires Valid()
      modifies this`results
      ensures Valid()
      ensures forall f :: f in results <==>
        f in old(results) || (exists k, w :: Registered(waiters, k, w) && w.future == f && Answers(reply, k, w))
      ensures forall f :: f in results ==> results[f] == if f in old(results) then old(results)[f] else reply
    {
      if reply.about.None? { return; }
      var k := reply.about.value;
      if k !in waiters { return; }
      for i := 0 to |waiters[k]|
        invariant Valid() && k in waiters
        invariant forall f :: f in results <==> (f in old(results) || Resolves(waiters[k], i, reply.kind, f))
        invariant forall f :: f in results ==> results[f] == if f in old(results) then old(results)[f] else reply
      {
        var waiter := waiters[k][i];
        assert Registered(waiters, k, waiter);
        if reply.kind in waiter.accepts && waiter.future !in results {
          results := results[waiter.future := reply];
        }
      }
      forall f
        ensures f in results <==>
          f in old(results) || exists k, w :: Registered(waiters, k, w) && w.future == f && Answers(reply, k, w)
      {
        if Resolves(waiters[k], |waiters[k]|, reply.kind, f) {
          var j :| 0 <= j < |waiters[k]| && waiters[k][j].future == f && reply.kind in waiters[k][j].accepts;
          assert Registered(waiters, k, waiters[k][j]) && Answers(reply, k, waiters[k][j]);
        }
      }
    }
  }

  function Removed(s: seq<Waiter>, w: Waiter): seq<Waiter>
  {
    if s == [] then [] else if s[0] == w then s[1..] else [s[0]] + Removed(s[1..], w)
  }

  /** The waiters with one taken out, and its key with it when it was the last. */
  function Without(w: Waiting, k: AskKey, waiter: Waiter): Waiting
  {
    if k !in w then w
    else if waiter !in w[k] then (if w[k] == [] then w - {k} else w)
    else if Removed(w[k], waiter) == [] then w - {k}
    else w[k := Removed(w[k], waiter)]
  }

  lemma {:induction false} RemovedIs(s: seq<Waiter>, w: Waiter)
    requires w in s && forall i, j :: 0 <= i < j < |s| ==> s[i].future != s[j].future
    ensures var r := Removed(s, w);
      && |r| == |s| - 1 && (forall x :: x in r <==> x in s && x != w)
      && (forall i, j :: 0 <= i < j < |r| ==> r[i].future != r[j].future)
  {
    if s[0] == w {
      forall x | x in s[1..] ensures x != w { var i :| 0 <= i < |s[1..]| && s[1..][i] == x; assert s[i + 1] == x; }
      assert s == [s[0]] + s[1..];
    } else {
      assert s == [s[0]] + s[1..];
      RemovedIs(s[1..], w);
      var rest := Removed(s[1..], w);
      forall j | 0 <= j < |rest| ensures rest[j].future != s[0].future {
        assert rest[j] in s[1..];
        var i :| 0 <= i < |s[1..]| && s[1..][i] == rest[j];
        assert s[i + 1] == rest[j];
      }
    }
  }

  lemma EnterKeeps(w: Waiting, active: map<int, nat>, next: nat, k: AskKey, waiter: Waiter)
    requires Consistent(w, active, next) && waiter.future == next
    ensures Consistent(w[k := (if k in w then w[k] else []) + [waiter]],
              active[k.0 := (if k.0 in active then active[k.0] else 0) + 1], next + 1)
  {
    var w' := w[k := (if k in w then w[k] else []) + [waiter]];
    forall n ensures WaitersOf(w', n) == WaitersOf(w, n) + if n == k.0 then 1 else 0 {
      CountChanges(w, w', k, n);
    }
    hide WaitersOf;
    forall x, y ensures Registered(w', x, y) <==> Registered(w, x, y) || (x == k && y == waiter) {}
    forall l, i, j | l in w' && 0 <= i < j < |w'[l]| ensures w'[l][i].future != w'[l][j].future {
      if l == k && j == |w'[k]| - 1 { assert Registered(w, k, w'[k][i]); }
    }
  }

  lemma LeaveKeeps(w: Waiting, active: map<int, nat>, next: nat, k: AskKey, waiter: Waiter)
    requires Consistent(w, active, next) && Registered(w, k, waiter)
    ensures k.0 in active
    ensures forall x, y :: Registered(Without(w, k, waiter), x, y) <==> Registered(w, x, y) && !(x == k && y == waiter)
    ensures Consistent(Without(w, k, waiter),
              if active[k.0] > 1 then active[k.0 := active[k.0] - 1] else active - {k.0}, next)
  {
    RemovedIs(w[k], waiter);
    var w' := Without(w, k, waiter);
    forall n ensures WaitersOf(w', n) == WaitersOf(w, n) - if n == k.0 then 1 else 0 {
      CountChanges(w, w', k, n);
    }
    ListedAtMost(w, k);
    hide WaitersOf, Removed;
    forall x, y ensures Registered(w', x, y) <==> Registered(w, x, y) && !(x == k && y == waiter) {}
  }

  // ---- the key filter is safe --------------------------------------------------------------

  /** The filter never drops a reply someone here waits for: a reply that answers a registered ask, its record key
      naming the transaction it is about or nothing, is wanted. */
  lemma WantedKeepsEveryAnswer(w: Waiting, active: map<int, nat>, next: nat, reply: Reply, k: AskKey, waiter: Waiter)
    requires Consistent(w, active, next) && Registered(w, k, waiter) && Answers(reply, k, waiter)
    requires reply.recordTx.Some? ==> reply.recordTx.value == k.0
    ensures reply.recordTx.None? || reply.recordTx.value in active
  {
    ListedAtMost(w, k);
  }

  /** And a reply it drops would have resolved nothing. */
  lemma DroppedAnswersNoOne(w: Waiting, active: map<int, nat>, next: nat, reply: Reply)
    requires Consistent(w, active, next) && reply.recordTx.Some? && reply.recordTx.value !in active
    requires reply.about.Some? ==> reply.about.value.0 == reply.recordTx.value
    ensures forall k, waiter :: Registered(w, k, waiter) ==> !Answers(reply, k, waiter)
  {
    forall k, waiter | Registered(w, k, waiter) ensures !Answers(reply, k, waiter) {
      if Answers(reply, k, waiter) { WantedKeepsEveryAnswer(w, active, next, reply, k, waiter); }
    }
  }
}
