/** Analytics' bounded buffer of the scan topic: duplicates dropped, oldest arrivals evicted, read in id order. */
module ScanSource {
  import opened Collections
  import opened Skus
  import opened Relay

  /** A dict with its insertion order, and the highest id ever put in it. */
  datatype Buffer = Buffer(order: seq<int>, rows: map<int, Sku>, maxId: int)

  ghost predicate Valid(b: Buffer)
  {
    && (forall id :: id in b.rows <==> id in b.order)
    && (forall i, j :: 0 <= i < j < |b.order| ==> b.order[i] != b.order[j])
    && (forall id :: id in b.rows ==> id <= b.maxId)
  }

  function Evict(b: Buffer, keep: nat): Buffer
    decreases |b.order|
  {
    if |b.order| > keep then Evict(b.(order := b.order[1..], rows := b.rows - {b.order[0]}), keep) else b
  }

  function Apply(b: Buffer, scan: Scan, keep: nat): Buffer
  {
    if scan.id in b.rows then b else
      Evict(Buffer(b.order + [scan.id], b.rows[scan.id := scan.sku], Max(b.maxId, scan.id)), keep)
  }

  function ApplyAll(b: Buffer, topic: seq<Scan>, keep: nat): Buffer
  {
    if topic == [] then b else Apply(ApplyAll(b, topic[..|topic| - 1], keep), topic[|topic| - 1], keep)
  }

  const EMPTY: Buffer := Buffer([], map[], 0)

  /** The first of the sorted ids, with their scans, are the first rows above `after`. */
  lemma FirstOfSorted(ids: seq<int>, table: map<int, Sku>, after: int, limit: nat, found: seq<Scan>)
    requires Ascending(ids) && forall id :: id in ids <==> id in table && id > after
    requires |found| == Min(limit, |ids|)
    requires forall i :: 0 <= i < |found| ==> ids[i] in table && found[i] == Scan(ids[i], table[ids[i]])
    ensures FirstAbove(found, table, after, limit)
  {
    forall id | id in table && id > after
      ensures HasId(found, id) || (|found| == limit && forall i :: 0 <= i < |found| ==> found[i].id < id)
    {
      assert id in ids;
      var k :| 0 <= k < |ids| && ids[k] == id;
      if k < |found| { assert found[k].id == id; }
    }
    assert forall i :: 0 <= i < |found| ==> ids[i] in ids;
  }

  class KafkaScanSource {
    const keep: nat
    var order: seq<int>
    var rows: map<int, Sku>
    var maxId: int
    var caughtUp: bool

    ghost function Contents(): Buffer
      reads this
    {
      Buffer(order, rows, maxId)
    }

    constructor (keep: nat)
      ensures Contents() == EMPTY && !caughtUp && this.keep == keep
    {
      this.keep := keep;
      order, rows, maxId, caughtUp := [], map[], 0, false;
    }

    /** One scan event. A scan already held is ignored; beyond `keep`, the oldest arrivals go. */
    method ApplyScan(scan: Scan)
      modifies this`order, this`rows, this`maxId
      ensures Contents() == Apply(old(Contents()), scan, keep)
    {
      if scan.id in rows { return; }
      order := order + [scan.id];
      rows := rows[scan.id := scan.sku];
      maxId := Max(maxId, scan.id);
      ghost var full := Contents();
      while |order| > keep
        invariant Evict(full, keep) == Evict(Contents(), keep)
        decreases |order|
      {
        rows := rows - {order[0]};
        order := order[1..];
      }
    }

    /** The scans above `after` in id order, at most `limit`, and the highest id seen; nothing until replayed. */
    method Read(after: int, limit: nat) returns (r: Option<(seq<Scan>, int)>)
      requires Valid(Contents())
      ensures r.Some? <==> caughtUp
      ensures r.Some? ==> FirstAbove(r.value.0, rows, after, limit) && r.value.1 == maxId
    {
      if !caughtUp { return None; }
      var ids := SortedAbove(after);
      var n := Min(limit, |ids|);
      var table := rows;
      assert forall i :: 0 <= i < n ==> ids[i] in ids;
      var found := seq(n, i requires 0 <= i < n && ids[i] in table => Scan(ids[i], table[ids[i]]));
      FirstOfSorted(ids, table, after, limit, found);
      return Some((found, maxId));
    }

    /** `sorted(i for i in rows if i > after)`. */
    method SortedAbove(after: int) returns (ids: seq<int>)
      requires Valid(Contents())
      ensures Ascending(ids)
      ensures forall id :: id in ids <==> id in rows && id > after
    {
      ids := [];
      for n := 0 to |order|
        invariant Ascending(ids)
        invariant forall id :: id in ids <==> id in order[..n] && id > after
      {
        assert order[..n + 1] == order[..n] + [order[n]];
        if order[n] > after {
          ids := Place(ids, order[n]);
        }
      }
      assert order[..|order|] == order;
    }

    static method Place(ids: seq<int>, id: int) returns (r: seq<int>)
      requires Ascending(ids) && id !in ids
      ensures Ascending(r) && forall x :: x in r <==> x in ids || x == id
    {
      var n := 0;
      while n < |ids| && ids[n] < id
        invariant 0 <= n <= |ids| && forall i :: 0 <= i < n ==> ids[i] < id
      {
        n := n + 1;
      }
      r := ids[..n] + [id] + ids[n..];
      IdPlaced(ids, n, id);
    }
  }

  lemma IdPlaced(ids: seq<int>, n: nat, id: int)
    requires Ascending(ids) && n <= |ids| && id !in ids
    requires (forall i :: 0 <= i < n ==> ids[i] < id) && (n < |ids| ==> id <= ids[n])
    ensures Ascending(ids[..n] + [id] + ids[n..])
    ensures forall x :: x in ids[..n] + [id] + ids[n..] <==> x in ids || x == id
  {
    var r := ids[..n] + [id] + ids[n..];
    forall i, j | 0 <= i < j < |r| ensures r[i] < r[j] {
      assert i != n ==> r[i] == ids[if i < n then i else i - 1];
      assert j != n ==> r[j] == ids[if j < n then j else j - 1];
    }
    assert ids == ids[..n] + ids[n..];
  }

  // ---- what the buffer keeps ---------------------------------------------------------------

  lemma EvictOneKeepsValid(b: Buffer)
    requires Valid(b) && |b.order| > 0
    ensures Valid(b.(order := b.order[1..], rows := b.rows - {b.order[0]}))
  {
    var b' := b.(order := b.order[1..], rows := b.rows - {b.order[0]});
    forall id ensures id in b'.rows <==> id in b'.order {
      if id in b'.rows {
        var i :| 0 <= i < |b.order| && b.order[i] == id;
        assert b'.order[i - 1] == id;
      }
    }
  }

  lemma {:induction false} EvictKeeps(b: Buffer, keep: nat)
    requires Valid(b)
    ensures Valid(Evict(b, keep)) && Evict(b, keep).maxId == b.maxId
    ensures |Evict(b, keep).order| <= keep && (|b.order| <= keep ==> Evict(b, keep) == b)
    ensures forall id :: id in Evict(b, keep).rows ==> id in b.rows && Evict(b, keep).rows[id] == b.rows[id]
    decreases |b.order|
  {
    if |b.order| > keep {
      EvictOneKeepsValid(b);
      EvictKeeps(b.(order := b.order[1..], rows := b.rows - {b.order[0]}), keep);
    }
  }

  lemma ApplyKeeps(b: Buffer, scan: Scan, keep: nat)
    requires Valid(b) && |b.order| <= keep
    ensures var b' := Apply(b, scan, keep);
      && Valid(b') && |b'.order| <= keep
      && b'.maxId == (if scan.id in b.rows then b.maxId else Max(b.maxId, scan.id))
      && (forall id :: id in b'.rows ==>
            (id in b.rows && b'.rows[id] == b.rows[id]) || (id == scan.id && b'.rows[id] == scan.sku))
      && (|b.order| < keep ==> scan.id in b'.rows && forall id :: id in b.rows ==> id in b'.rows)
  {
    if scan.id !in b.rows {
      var full := Buffer(b.order + [scan.id], b.rows[scan.id := scan.sku], Max(b.maxId, scan.id));
      assert Valid(full);
      EvictKeeps(full, keep);
    }
  }

  /** Fewer records than the buffer holds: nothing is evicted, and the buffer holds every id once. */
  lemma {:induction false} ShortReplayLosesNothing(topic: seq<Scan>, log: Log, keep: nat)
    requires |topic| <= keep && AllFrom(topic, log) && forall id :: id in log ==> id >= 1
    ensures var b := ApplyAll(EMPTY, topic, keep);
      && Valid(b) && |b.order| <= |topic|
      && (forall id :: id in b.rows <==> HasId(topic, id))
      && (forall id :: id in b.rows ==> id in log && b.rows[id] == log[id])
      && b.maxId >= 0 && (topic != [] ==> HasId(topic, b.maxId))
  {
    if topic != [] {
      var front, last := topic[..|topic| - 1], topic[|topic| - 1];
      ShortReplayLosesNothing(front, log, keep);
      var b := ApplyAll(EMPTY, front, keep);
      ApplyKeeps(b, last, keep);
      assert topic == front + [last];
      forall id ensures HasId(topic, id) <==> HasId(front, id) || id == last.id {
        HasIdAppend(front, [last], id);
        assert [last][0] == last;
      }
      if last.id !in b.rows {
        var full := Buffer(b.order + [last.id], b.rows[last.id := last.sku], Max(b.maxId, last.id));
        assert Valid(full);
        EvictKeeps(full, keep);
      }
    }
  }

  /** Whatever is evicted, the buffer stays within its limit and true to the records, and knows their highest id. */
  lemma {:induction false} BufferIsTrue(topic: seq<Scan>, log: Log, keep: nat)
    requires AllFrom(topic, log)
    ensures var b := ApplyAll(EMPTY, topic, keep);
      && Valid(b) && |b.order| <= keep && b.maxId >= 0
      && (forall id :: id in b.rows ==> HasId(topic, id) && id in log && b.rows[id] == log[id])
      && (forall i :: 0 <= i < |topic| ==> topic[i].id <= b.maxId)
  {
    if topic != [] {
      var front, last := topic[..|topic| - 1], topic[|topic| - 1];
      BufferIsTrue(front, log, keep);
      ApplyKeeps(ApplyAll(EMPTY, front, keep), last, keep);
      assert topic == front + [last];
      forall id ensures HasId(topic, id) <==> HasId(front, id) || id == last.id {
        HasIdAppend(front, [last], id);
        assert [last][0] == last;
      }
      hide Apply, HasId;
    }
  }

  /** One record: nothing, or one arrival at the end and at most the oldest gone. */
  lemma ApplyOne(b: Buffer, scan: Scan, keep: nat)
    requires |b.order| <= keep && keep > 0
    ensures var b' := Apply(b, scan, keep);
      if scan.id in b.rows then b' == b
      else if |b.order| < keep then
        b' == Buffer(b.order + [scan.id], b.rows[scan.id := scan.sku], Max(b.maxId, scan.id))
      else b'.order == b.order[1..] + [scan.id]
  {
    if scan.id !in b.rows {
      var full := Buffer(b.order + [scan.id], b.rows[scan.id := scan.sku], Max(b.maxId, scan.id));
      if |full.order| > keep {
        var one := full.(order := full.order[1..], rows := full.rows - {full.order[0]});
        assert Evict(one, keep) == one;
        assert full.order[1..] == b.order[1..] + [scan.id];
      }
    }
  }

  /** An id no further from the end than it first occurred. */
  ghost predicate WithinLast(b: Buffer, id: int, n: nat)
  {
    exists j :: 0 <= j < |b.order| && b.order[j] == id && |b.order| - j <= n
  }

  /** An id that first occurred within the last `keep` records is still in the buffer, whatever has been evicted. */
  lemma {:induction false} RecentStays(topic: seq<Scan>, log: Log, keep: nat, at: nat)
    requires AllFrom(topic, log) && at < |topic| && |topic| - at <= keep && !HasId(topic[..at], topic[at].id)
    ensures WithinLast(ApplyAll(EMPTY, topic, keep), topic[at].id, |topic| - at)
    decreases |topic|
  {
    var front, last, id := topic[..|topic| - 1], topic[|topic| - 1], topic[at].id;
    var b, b' := ApplyAll(EMPTY, front, keep), ApplyAll(EMPTY, topic, keep);
    BufferIsTrue(front, log, keep);
    ApplyOne(b, last, keep);
    hide ApplyAll, Apply, HasId;
    if at == |topic| - 1 {
      assert b'.order[|b'.order| - 1] == id;
    } else {
      assert front[..at] == topic[..at];
      RecentStays(front, log, keep, at);
      var j :| 0 <= j < |b.order| && b.order[j] == id && |b.order| - j <= |front| - at;
      if last.id !in b.rows {
        if |b.order| < keep { assert b'.order[j] == id; } else { assert b'.order[j - 1] == id; }
      }
    }
  }

  lemma RecentIsHeld(topic: seq<Scan>, log: Log, keep: nat, at: nat)
    requires AllFrom(topic, log) && at < |topic| && |topic| - at <= keep && !HasId(topic[..at], topic[at].id)
    ensures topic[at].id in ApplyAll(EMPTY, topic, keep).rows
  {
    hide ApplyAll, HasId, AllFrom;
    BufferIsTrue(topic, log, keep);
    RecentStays(topic, log, keep, at);
  }
}
