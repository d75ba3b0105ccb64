/** The transactional outbox: the event of a committed change reaches the topic, at least once. */
module Outbox {
  import opened Collections

  /** When the row was written, and when its event was marked published. */
  datatype Row = Row(created: int, published: Option<int>)

  /** Rows by serial id; a row carries one event, named by the same id here. */
  type Table = map<int, Row>

  predicate Due(table: Table, id: int, before: int, locked: set<int>)
  {
    id in table && table[id].published.None? && table[id].created < before && id !in locked
  }

  /** The first `limit` unpublished rows written before `before`, in id order, skipping those others have locked. */
  ghost predicate Claimed(ids: seq<int>, table: Table, before: int, locked: set<int>, limit: nat)
  {
    && Ascending(ids) && |ids| <= limit
    && (forall id :: id in ids ==> Due(table, id, before, locked))
    && (forall id :: Due(table, id, before, locked) ==>
          id in ids || (|ids| == limit && forall other :: other in ids ==> other < id))
  }

  /** `SET published_at = now WHERE event_id = id AND published_at IS NULL`. */
  function Marked(table: Table, id: int, now: int): Table
  {
    if id in table && table[id].published.None? then table[id := table[id].(published := Some(now))] else table
  }

  function MarkedAll(table: Table, ids: seq<int>, now: int): Table
  {
    if ids == [] then table else Marked(MarkedAll(table, ids[..|ids| - 1], now), ids[|ids| - 1], now)
  }

  function Purged(table: Table, before: int): Table
  {
    map id | id in table && !(table[id].published.Some? && table[id].published.value < before) :: table[id]
  }

  class Service {
    var table: Table
    var topic: seq<int>

    constructor ()
      ensures table == map[] && topic == []
    {
      table, topic := map[], [];
    }

    /** The fast path, after the commit that wrote the row. The broker may refuse, and the mark may fail. */
    method PublishNow(id: int, accepted: bool, marks: bool, now: int) returns (sent: bool)
      modifies this
      ensures sent == accepted
      ensures topic == if accepted then old(topic) + [id] else old(topic)
      ensures table == if accepted && marks then Marked(old(table), id, now) else old(table)
      ensures accepted && marks && id in old(table) && old(table)[id].published.None? ==>
        table == old(table)[id := Row(old(table)[id].created, Some(now))]
    {
      if !accepted { return false; }
      topic := topic + [id];
      if marks { table := Marked(table, id, now); }
      return true;
    }

    /** `SELECT ... ORDER BY id LIMIT limit FOR UPDATE SKIP LOCKED`. */
    method ClaimUnpublished(before: int, locked: set<int>, limit: nat) returns (ids: seq<int>)
      ensures Claimed(ids, table, before, locked, limit)
      ensures forall id :: id in ids ==>
        id in table && table[id].published.None? && table[id].created < before && id !in locked
      ensures |ids| < limit ==> forall id ::
        id in table && table[id].published.None? && table[id].created < before && id !in locked ==> id in ids
    {
      ids := [];
      var left := set id | id in table && Due(table, id, before, locked);
      ghost var due := left;
      while |ids| < limit && left != {}
        invariant left <= due && |ids| <= limit && Ascending(ids)
        invariant forall id :: id in due ==> id in ids || id in left
        invariant forall id :: id in ids ==> id in due
        invariant forall id, other :: id in left && other in ids ==> other < id
        decreases left
      {
        var id := Least(left);
        AscendingAppend(ids, id);
        ids := ids + [id];
        left := left - {id};
      }
    }

    /** One sweep, one transaction: publish each claimed row and mark it, until the broker refuses. If the process dies
        before the commit the marks are undone; what was published stays published. */
    method SweepOnce(before: int, locked: set<int>, limit: nat, accepted: nat, commits: bool, now: int)
      returns (sent: nat, ghost claimed: seq<int>)
      modifies this
      ensures Claimed(claimed, old(table), before, locked, limit) && sent == Min(|claimed|, accepted)
      ensures topic == old(topic) + claimed[..sent]
      ensures table == if commits then MarkedAll(old(table), claimed[..sent], now) else old(table)
    {
      var was := table;
      var rows := ClaimUnpublished(before, locked, limit);
      claimed := rows;
      sent := 0;
      while sent < |rows| && sent < accepted
        invariant 0 <= sent <= |rows| && sent <= accepted
        invariant topic == old(topic) + rows[..sent]
        invariant table == MarkedAll(was, rows[..sent], now)
      {
        assert rows[..sent + 1][..sent] == rows[..sent];
        topic := topic + [rows[sent]];
        table := Marked(table, rows[sent], now);
        sent := sent + 1;
      }
      if !commits { table := was; }
    }

    /** Published rows are kept for a while and then deleted; an unpublished row never is. */
    method DeletePublished(before: int)
      modifies this`table
      ensures table == Purged(old(table), before)
      ensures forall id :: id in table <==>
        id in old(table) && (old(table)[id].published.Some? ==> old(table)[id].published.value >= before)
      ensures forall id :: id in table ==> table[id] == old(table)[id]
    {
      table := map id | id in table && !(table[id].published.Some? && table[id].published.value < before) :: table[id];
    }

    static method Least(s: set<int>) returns (least: int)
      requires s != {}
      ensures least in s && forall x :: x in s ==> least <= x
    {
      least := SomeOf(s);
      var rest := s - {least};
      while rest != {}
        invariant rest <= s && least in s
        invariant forall x :: x in s ==> x in rest || least <= x
        decreases rest
      {
        var x := SomeOf(rest);
        least := Min(least, x);
        rest := rest - {x};
      }
    }

    static method SomeOf<T(==)>(s: set<T>) returns (x: T)
      requires s != {}
      ensures x in s
    {
      x :| x in s;
    }
  }

  lemma AscendingAppend(ids: seq<int>, id: int)
    requires Ascending(ids) && forall other :: other in ids ==> other < id
    ensures Ascending(ids + [id])
  {
    forall i | 0 <= i < |ids| ensures ids[i] < id { assert ids[i] in ids; }
  }

  // ---- any number of writers, fast paths, sweeps and crashes -------------------------------

  /** The table, the topic, and the ids of every row ever committed. */
  datatype State = State(table: Table, topic: seq<int>, written: set<int>)

  datatype Step =
    | Insert(id: int, now: int)
    | Fast(id: int, acked: bool, marks: bool, now: int)
    | Sweep(claimed: seq<int>, before: int, locked: set<int>, limit: nat, accepted: nat, commits: bool, now: int)
    | Purge(before: int)

  ghost predicate Able(s: State, step: Step)
  {
    match step
    case Insert(id, _) => id !in s.written
    case Fast(_, _, _, _) => true
    case Sweep(claimed, before, locked, limit, _, _, _) => Claimed(claimed, s.table, before, locked, limit)
    case Purge(_) => true
  }

  function Next(s: State, step: Step): State
  {
    match step
    case Insert(id, now) => s.(table := s.table[id := Row(now, None)], written := s.written + {id})
    case Fast(id, acked, marks, now) =>
      s.(topic := if acked then s.topic + [id] else s.topic,
         table := if acked && marks then Marked(s.table, id, now) else s.table)
    case Sweep(claimed, _, _, _, accepted, commits, now) =>
      var sent := claimed[..Min(|claimed|, accepted)];
      s.(topic := s.topic + sent, table := if commits then MarkedAll(s.table, sent, now) else s.table)
    case Purge(before) => s.(table := Purged(s.table, before))
  }

  ghost predicate OutboxRun(s: State, steps: seq<Step>, s': State)
    decreases |steps|
  {
    if steps == [] then s' == s else Able(s, steps[0]) && OutboxRun(Next(s, steps[0]), steps[1..], s')
  }

  /** Every committed event is on the topic, or still in the table waiting to be published; a row is marked only when
      its event is on the topic. */
  ghost predicate Kept(s: State)
  {
    && (forall id :: id in s.written ==> id in s.topic || (id in s.table && s.table[id].published.None?))
    && (forall id :: id in s.table ==> id in s.written && (s.table[id].published.Some? ==> id in s.topic))
  }

  lemma {:induction false} MarkedAllIs(table: Table, ids: seq<int>, now: int)
    ensures var table' := MarkedAll(table, ids, now);
      && table'.Keys == table.Keys
      && (forall id :: id in table' ==>
            table'[id] ==
              if id in ids && table[id].published.None? then table[id].(published := Some(now)) else table[id])
  {
    if ids != [] {
      var front := ids[..|ids| - 1];
      MarkedAllIs(table, front, now);
      assert ids == front + [ids[|ids| - 1]];
    }
  }

  lemma StepKeepsEvents(s: State, step: Step)
    requires Kept(s) && Able(s, step)
    ensures Kept(Next(s, step))
  {
    if step.Sweep? {
      var sent := step.claimed[..Min(|step.claimed|, step.accepted)];
      MarkedAllIs(s.table, sent, step.now);
      hide MarkedAll, Claimed;
      assert forall id :: id in s.topic + sent <==> id in s.topic || id in sent;
    }
  }

  /** No event is lost: whatever refusals, crashes before a mark or a commit, concurrent sweeps and purges. */
  lemma {:induction false} NoEventIsLost(s: State, steps: seq<Step>, s': State)
    requires Kept(s) && OutboxRun(s, steps, s')
    ensures Kept(s')
    decreases |steps|
  {
    if steps != [] {
      StepKeepsEvents(s, steps[0]);
      hide Kept, Able, Next;
      NoEventIsLost(Next(s, steps[0]), steps[1..], s');
    }
  }

  // ---- sweeping drains it ------------------------------------------------------------------

  ghost function Waiting(table: Table): set<int>
  {
    set id | id in table && table[id].published.None?
  }

  /** Sweeps that nobody contends with and whose broker accepts everything, once every row is old enough. */
  ghost predicate Sweeps(s: State, steps: seq<Step>, s': State, limit: nat)
    decreases |steps|
  {
    if steps == [] then s' == s else
      && steps[0].Sweep? && Able(s, steps[0]) && steps[0].limit == limit && steps[0].accepted >= limit
      && steps[0].commits && steps[0].locked == {}
      && (forall id :: id in s.table ==> s.table[id].created < steps[0].before)
      && Sweeps(Next(s, steps[0]), steps[1..], s', limit)
  }

  lemma SweepTakes(s: State, step: Step)
    requires step.Sweep? && Able(s, step) && step.accepted >= step.limit && step.commits && step.locked == {}
    requires forall id :: id in s.table ==> s.table[id].created < step.before
    ensures |Waiting(Next(s, step).table)| == Max(0, |Waiting(s.table)| - step.limit)
  {
    var sent := step.claimed;
    assert step.claimed[..Min(|sent|, step.accepted)] == sent;
    WaitingAfter(s.table, sent, step.now);
    DistinctCount(sent);
    hide MarkedAll, Ascending;
    var taken := Elements(sent);
    if |sent| < step.limit {
      forall id | id in Waiting(s.table) ensures id in taken {
        assert Due(s.table, id, step.before, step.locked);
      }
    }
    SubsetSize(taken, Waiting(s.table));
  }

  lemma WaitingAfter(table: Table, ids: seq<int>, now: int)
    requires forall id :: id in ids ==> id in table && table[id].published.None?
    ensures var taken := Elements(ids);
      taken <= Waiting(table) && Waiting(MarkedAll(table, ids, now)) == Waiting(table) - taken
  {
    MarkedAllIs(table, ids, now);
    hide MarkedAll;
    var table', taken := MarkedAll(table, ids, now), Elements(ids);
    forall id | id in taken ensures id in Waiting(table) {
      assert id in ids;
    }
    forall id ensures id in Waiting(table') <==> id in Waiting(table) - taken {
      if id in table' { assert id in table.Keys; }
      if id in table { assert id in table'.Keys; }
    }
  }

  /** The sweeper drains the outbox: enough sweeps of `limit` rows each put every committed event on the topic. */
  lemma {:induction false} SweepsDrain(s: State, steps: seq<Step>, s': State, limit: nat)
    requires Kept(s) && Sweeps(s, steps, s', limit) && |steps| * limit >= |Waiting(s.table)|
    ensures Waiting(s'.table) == {} && forall id :: id in s'.written ==> id in s'.topic
    decreases |steps|
  {
    if steps == [] {
      forall id | id in s'.written ensures id in s'.topic {
        assert id !in Waiting(s.table);
      }
    } else {
      SweepTakes(s, steps[0]);
      StepKeepsEvents(s, steps[0]);
      assert |steps| * limit == (|steps| - 1) * limit + limit;
      hide Kept, Able, Next, Waiting;
      SweepsDrain(Next(s, steps[0]), steps[1..], s', limit);
    }
  }
}
