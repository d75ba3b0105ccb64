/** The consumer loop: retry one record until it is handled or dead-lettered, group a batch by key, commit after it. */
module ConsumerLoop {
  import opened Collections

  // ---- one record --------------------------------------------------------------------------

  /** How one call of the handler ends. */
  datatype Attempt = Ok | Unreachable | Malformed | Failed

  datatype Verdict = Handled | DeadLettered(attempts: int) | StillTrying

  /** What becomes of a record whose handler calls end as listed from `i` on, `attempt` failures counted so far. */
  function Settle(calls: seq<Attempt>, i: nat, attempt: int, maxAttempts: int): Verdict
    requires i <= |calls|
    decreases |calls| - i
  {
    if attempt >= maxAttempts then DeadLettered(Max(1, attempt))
    else if i == |calls| then StillTrying
    else match calls[i]
      case Ok => Handled
      case Unreachable => Settle(calls, i + 1, attempt, maxAttempts)
      case Malformed => DeadLettered(1)
      case Failed => Settle(calls, i + 1, attempt + 1, maxAttempts)
  }

  /** The retry loop, as far as the calls known have gone. */
  method HandleOne(calls: seq<Attempt>, maxAttempts: int) returns (verdict: Verdict)
    ensures verdict == Settle(calls, 0, 0, maxAttempts)
  {
    var attempt, made, i := 0, 0, 0;
    while attempt < maxAttempts
      invariant 0 <= i <= |calls| && made == attempt && attempt >= 0
      invariant Settle(calls, 0, 0, maxAttempts) == Settle(calls, i, attempt, maxAttempts)
      decreases |calls| - i
    {
      if i == |calls| { return StillTrying; }
      match calls[i] {
        case Ok => return Handled;
        case Unreachable =>
        case Malformed =>
          made := 1;
          attempt := maxAttempts;
          return DeadLettered(Max(1, made));
        case Failed =>
          attempt := attempt + 1;
          made := attempt;
      }
      i := i + 1;
    }
    verdict := DeadLettered(Max(1, made));
  }

  function Reached(calls: seq<Attempt>): seq<Attempt>
  {
    if calls == [] then [] else (if calls[0] == Unreachable then [] else [calls[0]]) + Reached(calls[1..])
  }

  lemma {:induction false} SettleShift(calls: seq<Attempt>, i: nat, attempt: int, maxAttempts: int)
    requires i <= |calls|
    ensures Settle(calls, i, attempt, maxAttempts) == Settle(calls[i..], 0, attempt, maxAttempts)
    decreases |calls| - i
  {
    if i < |calls| {
      SettleShift(calls, i + 1, attempt, maxAttempts);
      SettleShift(calls, i + 1, attempt + 1, maxAttempts);
      SettleShift(calls[i..], 1, attempt, maxAttempts);
      SettleShift(calls[i..], 1, attempt + 1, maxAttempts);
      assert calls[i..][1..] == calls[i + 1..];
    }
  }

  /** An outage is not counted: the verdict is that of the calls that reached the handler's dependencies. */
  lemma {:induction false} OutagesDoNotCount(calls: seq<Attempt>, attempt: int, maxAttempts: int)
    ensures Settle(calls, 0, attempt, maxAttempts) == Settle(Reached(calls), 0, attempt, maxAttempts)
    decreases |calls|
  {
    if calls != [] {
      var rest := calls[1..];
      OutagesDoNotCount(rest, attempt, maxAttempts);
      OutagesDoNotCount(rest, attempt + 1, maxAttempts);
      SettleShift(calls, 1, attempt, maxAttempts);
      SettleShift(calls, 1, attempt + 1, maxAttempts);
      if calls[0] == Unreachable {
        assert Reached(calls) == Reached(rest);
      } else {
        var reached := Reached(calls);
        assert reached == [calls[0]] + Reached(rest);
        assert reached[1..] == Reached(rest);
        SettleShift(reached, 1, attempt, maxAttempts);
        SettleShift(reached, 1, attempt + 1, maxAttempts);
      }
    }
  }

  ghost predicate AllFailed(calls: seq<Attempt>, upto: nat)
    requires upto <= |calls|
  {
    forall i :: 0 <= i < upto ==> calls[i] == Failed
  }

  /** The first `k` calls that reached anything failed, and then the budget is spent or the event is malformed. */
  ghost predicate Hopeless(reached: seq<Attempt>, k: nat, maxAttempts: int)
  {
    && k <= |reached| && AllFailed(reached, k)
    && (k == maxAttempts || (k < maxAttempts && k < |reached| && reached[k] == Malformed))
  }

  /** Fewer than `maxAttempts` calls that reached anything failed, and the next succeeded. */
  ghost predicate Succeeds(reached: seq<Attempt>, k: nat, maxAttempts: int)
  {
    k < maxAttempts && k < |reached| && AllFailed(reached, k) && reached[k] == Ok
  }

  /** Outages aside, fewer than `maxAttempts` failures, then a success. */
  ghost predicate EndsWell(calls: seq<Attempt>, maxAttempts: int)
  {
    exists k: nat :: Succeeds(Reached(calls), k, maxAttempts)
  }

  /** Outages aside, the budget spent or the event found malformed, with nothing but failures before. */
  ghost predicate EndsBadly(calls: seq<Attempt>, maxAttempts: int)
  {
    exists k: nat :: Hopeless(Reached(calls), k, maxAttempts)
  }

  /** Where the loop stops: after `k` failures, by the budget, the end of the calls, or the call that comes next. */
  lemma {:induction false} StopsAt(reached: seq<Attempt>, i: nat, maxAttempts: nat) returns (k: nat)
    requires i <= |reached| && i <= maxAttempts && AllFailed(reached, i) && Unreachable !in reached
    ensures i <= k <= maxAttempts && k <= |reached| && AllFailed(reached, k)
    ensures k < maxAttempts && k < |reached| ==> reached[k] != Failed
    ensures Settle(reached, i, i, maxAttempts) ==
      if k == maxAttempts then DeadLettered(Max(1, maxAttempts))
      else if k == |reached| then StillTrying
      else if reached[k] == Ok then Handled else DeadLettered(1)
    decreases |reached| - i
  {
    k := i;
    if i < maxAttempts && i < |reached| {
      assert reached[i] != Unreachable;
      if reached[i] == Failed { k := StopsAt(reached, i + 1, maxAttempts); }
    }
  }

  lemma {:induction false} ReachedHasNoOutage(calls: seq<Attempt>)
    ensures Unreachable !in Reached(calls)
  {
    if calls != [] { ReachedHasNoOutage(calls[1..]); }
  }

  /** The verdict, outages aside. Handled exactly when fewer than `maxAttempts` failures are followed by a success;
      dead-lettered exactly when the handler failed `maxAttempts` times in a row or found the event malformed before
      that, stating how often it failed or 1; otherwise it keeps trying. An outage, however long, discards no event. */
  lemma VerdictIff(calls: seq<Attempt>, maxAttempts: nat)
    ensures var verdict, reached := Settle(calls, 0, 0, maxAttempts), Reached(calls);
      && (verdict.Handled? <==> EndsWell(calls, maxAttempts))
      && (verdict.DeadLettered? <==> EndsBadly(calls, maxAttempts))
      && (verdict.StillTrying? <==> |reached| < maxAttempts && AllFailed(reached, |reached|))
      && (verdict.DeadLettered? ==>
            verdict.attempts == if Hopeless(reached, maxAttempts, maxAttempts) then Max(1, maxAttempts) else 1)
  {
    var reached := Reached(calls);
    OutagesDoNotCount(calls, 0, maxAttempts);
    ReachedHasNoOutage(calls);
    var k := StopsAt(reached, 0, maxAttempts);
    hide Settle, Reached;
    if k < maxAttempts && k < |reached| {
      assert reached[k] != Failed && reached[k] != Unreachable;
      assert forall n: nat :: n <= |reached| && AllFailed(reached, n) ==> n <= k;
      assert Succeeds(reached, k, maxAttempts) || Hopeless(reached, k, maxAttempts);
    } else if k == maxAttempts {
      assert Hopeless(reached, k, maxAttempts);
    }
  }

  // ---- a batch, grouped --------------------------------------------------------------------

  type Key = Option<string>

  /** Where a record is, and the key it was published under. */
  datatype Record = Record(partition: nat, offset: nat, key: Key)

  function GroupOf(r: Record): (nat, Key)
  {
    (r.partition, r.key)
  }

  /** The records of one (partition, key), in batch order. */
  function Only(records: seq<Record>, group: (nat, Key)): seq<Record>
  {
    if records == [] then [] else
      var last := records[|records| - 1];
      Only(records[..|records| - 1], group) + (if GroupOf(last) == group then [last] else [])
  }

  /** The part of a group in a batch is its part in the front followed by its part in the rest, and of one record it is
      that record or nothing: no record is dropped, repeated, moved or put in another group. */
  lemma {:induction false} OnlySplits(a: seq<Record>, b: seq<Record>, g: (nat, Key))
    ensures Only(a + b, g) == Only(a, g) + Only(b, g)
    ensures forall r :: Only([r], g) == if (r.partition, r.key) == g then [r] else []
    decreases |b|
  {
    forall r ensures Only([r], g) == if (r.partition, r.key) == g then [r] else [] {
      assert ([r])[..0] == [];
    }
    if b == [] {
      assert a + b == a;
    } else {
      var front, last := b[..|b| - 1], b[|b| - 1];
      OnlySplits(a, front, g);
      assert (a + b)[..|a + b| - 1] == a + front;
    }
  }

  lemma OnlyStep(records: seq<Record>, n: nat, g: (nat, Key))
    requires n < |records|
    ensures Only(records[..n + 1], g)
      == if GroupOf(records[n]) == g then Only(records[..n], g) + [records[n]] else Only(records[..n], g)
  {
    assert records[..n + 1][..n] == records[..n];
  }

  /** `groups[(rec.partition, rec.key)].append(rec)`: every record lands in one group,
      and each group keeps batch order. */
  method Group(records: seq<Record>) returns (groups: map<(nat, Key), seq<Record>>)
    ensures forall g :: g in groups <==> Only(records, g) != []
    ensures forall g :: g in groups ==> groups[g] == Only(records, g)
  {
    groups := map[];
    for n := 0 to |records|
      invariant forall g :: g in groups <==> Only(records[..n], g) != []
      invariant forall g :: g in groups ==> groups[g] == Only(records[..n], g)
    {
      forall g ensures Only(records[..n + 1], g)
        == if GroupOf(records[n]) == g then Only(records[..n], g) + [records[n]] else Only(records[..n], g)
      {
        OnlyStep(records, n, g);
      }
      hide Only;
      var mine := GroupOf(records[n]);
      groups := groups[mine := (if mine in groups then groups[mine] else []) + [records[n]]];
    }
    assert records[..|records|] == records;
  }

  // ---- the consumer's positions ------------------------------------------------------------

  /** Each partition's log, as the keys of its records. */
  type Logs = seq<seq<Key>>

  /** How far a read of at most `room` records gets in partition `p` and those after it. */
  function Ends(logs: Logs, pos: seq<nat>, room: nat, p: nat): seq<nat>
    requires |pos| == |logs| && p <= |logs| && forall q :: 0 <= q < |logs| ==> pos[q] <= |logs[q]|
    decreases |logs| - p
  {
    if p == |logs| then [] else
      var end := Min(|logs[p]|, pos[p] + room);
      [end] + Ends(logs, pos, room - (end - pos[p]), p + 1)
  }

  /** The records of partition `p` from `lo` up to `hi`. */
  function Chunk(logs: Logs, p: nat, lo: nat, hi: nat): seq<Record>
    requires p < |logs| && lo <= hi <= |logs[p]|
  {
    seq(hi - lo, i requires 0 <= i < hi - lo => Record(p, lo + i, logs[p][lo + i]))
  }

  ghost predicate Between(logs: Logs, pos: seq<nat>, ends: seq<nat>)
  {
    && |pos| == |ends| == |logs|
    && forall p :: 0 <= p < |logs| ==> pos[p] <= ends[p] <= |logs[p]|
  }

  function Chunks(logs: Logs, pos: seq<nat>, ends: seq<nat>, n: nat): seq<Record>
    requires Between(logs, pos, ends) && n <= |logs|
  {
    if n == 0 then [] else Chunks(logs, pos, ends, n - 1) + Chunk(logs, n - 1, pos[n - 1], ends[n - 1])
  }

  lemma {:induction false} EndsBetween(logs: Logs, pos: seq<nat>, room: nat, p: nat)
    requires |pos| == |logs| && p <= |logs| && forall q :: 0 <= q < |logs| ==> pos[q] <= |logs[q]|
    ensures var ends := Ends(logs, pos, room, p);
      |ends| == |logs| - p && forall q :: 0 <= q < |ends| ==> pos[p + q] <= ends[q] <= |logs[p + q]|
    decreases |logs| - p
  {
    if p < |logs| {
      EndsBetween(logs, pos, room - (Min(|logs[p]|, pos[p] + room) - pos[p]), p + 1);
    }
  }

  lemma EndsAre(logs: Logs, pos: seq<nat>, room: nat)
    requires |pos| == |logs| && forall q :: 0 <= q < |logs| ==> pos[q] <= |logs[q]|
    ensures Between(logs, pos, Ends(logs, pos, room, 0)) && |Ends(logs, pos, room, 0)| == |logs|
  {
    EndsBetween(logs, pos, room, 0);
  }

  lemma EndsStep(logs: Logs, pos: seq<nat>, room: nat, p: nat)
    requires |pos| == |logs| && p < |logs| && forall q :: 0 <= q < |logs| ==> pos[q] <= |logs[q]|
    ensures var end := Min(|logs[p]|, pos[p] + room);
      var ends := Ends(logs, pos, room, p);
      |ends| > 0 && ends[0] == end && ends[1..] == Ends(logs, pos, room - (end - pos[p]), p + 1)
  {
  }

  lemma ChunksStep(logs: Logs, pos: seq<nat>, ends: seq<nat>, n: nat)
    requires Between(logs, pos, ends) && n < |logs|
    ensures Chunks(logs, pos, ends, n + 1) == Chunks(logs, pos, ends, n) + Chunk(logs, n, pos[n], ends[n])
  {
  }

  lemma ChunksNone(logs: Logs, pos: seq<nat>, ends: seq<nat>)
    requires Between(logs, pos, ends)
    ensures Chunks(logs, pos, ends, 0) == []
  {
  }

  /** How many records lie between positions and ends from partition `p` on. */
  function Gained(pos: seq<nat>, ends: seq<nat>, p: nat): int
    requires |pos| == |ends| && p <= |pos|
    decreases |pos| - p
  {
    if p == |pos| then 0 else ends[p] - pos[p] + Gained(pos, ends, p + 1)
  }

  lemma {:induction false} ChunksCount(logs: Logs, pos: seq<nat>, ends: seq<nat>, n: nat)
    requires Between(logs, pos, ends) && n <= |logs|
    ensures |Chunks(logs, pos, ends, n)| + Gained(pos, ends, n) == Gained(pos, ends, 0)
  {
    if n > 0 { ChunksCount(logs, pos, ends, n - 1); }
  }

  lemma NothingGained(pos: seq<nat>, ends: seq<nat>)
    requires |pos| == |ends|
    ensures Gained(pos, ends, |pos|) == 0
  {
  }

  /** A read leaves a record behind only when it is full, and takes from a partition only what the ones before leave. */
  ghost predicate FillsInTurn(logs: Logs, pos: seq<nat>, ends: seq<nat>, room: nat, p: nat)
    requires Between(logs, pos, ends) && p <= |logs|
  {
    && 0 <= Gained(pos, ends, p) <= room
    && (forall q :: p <= q < |logs| ==> ends[q] - pos[q] <= Gained(pos, ends, p))
    && (Gained(pos, ends, p) < room ==> forall q :: p <= q < |logs| ==> ends[q] == |logs[q]|)
    && (forall q, r :: p <= q < r < |logs| && ends[r] > pos[r] ==> ends[q] == |logs[q]|)
  }

  lemma {:induction false} EndsFill(logs: Logs, pos: seq<nat>, ends: seq<nat>, room: nat, p: nat)
    requires Between(logs, pos, ends) && p <= |logs| && ends[p..] == Ends(logs, pos, room, p)
    ensures FillsInTurn(logs, pos, ends, room, p)
    decreases |logs| - p
  {
    if p < |logs| {
      EndsStep(logs, pos, room, p);
      assert ends[p..][0] == ends[p] && ends[p..][1..] == ends[p + 1..];
      EndsFill(logs, pos, ends, room - (ends[p] - pos[p]), p + 1);
    }
  }

  lemma ReadFills(logs: Logs, pos: seq<nat>, ends: seq<nat>, room: nat)
    requires Between(logs, pos, ends) && ends == Ends(logs, pos, room, 0)
    ensures var count := |Chunks(logs, pos, ends, |logs|)|;
      count <= room && (count < room ==> forall p :: 0 <= p < |logs| ==> ends[p] == |logs[p]|)
    ensures forall p, q :: 0 <= p < q < |logs| && ends[q] > pos[q] ==> ends[p] == |logs[p]|
  {
    hide Chunks, Ends;
    assert ends[0..] == ends;
    ChunksCount(logs, pos, ends, |logs|);
    EndsFill(logs, pos, ends, room, 0);
    NothingGained(pos, ends);
    hide Gained;
  }

  class MemoryConsumer {
    var logs: Logs
    var committed: seq<nat>
    var pos: seq<nat>

    ghost predicate Valid()
      reads this
    {
      |pos| == |committed| == |logs| && forall p :: 0 <= p < |logs| ==> committed[p] <= pos[p] <= |logs[p]|
    }

    /** A member of a group joins where the group last committed. */
    constructor (logs: Logs, committed: seq<nat>)
      requires |committed| == |logs| && forall p :: 0 <= p < |logs| ==> committed[p] <= |logs[p]|
      ensures Valid() && this.logs == logs && this.committed == committed && pos == committed
    {
      this.logs, this.committed, pos := logs, committed, committed;
    }

    method Take(maxRecords: nat) returns (out: seq<Record>)
      requires Valid()
      modifies this`pos
      ensures pos == Ends(logs, old(pos), maxRecords, 0) && Between(logs, old(pos), pos)
      ensures out == Chunks(logs, old(pos), pos, |logs|)
      ensures |out| <= maxRecords
      ensures |out| < maxRecords ==> forall p :: 0 <= p < |logs| ==> pos[p] == |logs[p]|
      ensures forall p, q :: 0 <= p < q < |logs| && pos[q] > old(pos)[q] ==> pos[p] == |logs[p]|
    {
      hide Chunk, Chunks, Ends, Between;
      ghost var ends := Ends(logs, pos, maxRecords, 0);
      EndsAre(logs, pos, maxRecords);
      out := [];
      ChunksNone(logs, pos, ends);
      var before := pos;
      var room: nat := maxRecords;
      for p := 0 to |logs|
        invariant |pos| == |logs|
        invariant ends[p..] == Ends(logs, before, room, p)
        invariant forall q :: 0 <= q < |logs| ==> pos[q] == if q < p then ends[q] else before[q]
        invariant out == Chunks(logs, before, ends, p)
      {
        var end := Min(|logs[p]|, pos[p] + room);
        EndsStep(logs, before, room, p);
        ChunksStep(logs, before, ends, p);
        assert ends[p] == ends[p..][0] && ends[p + 1..] == ends[p..][1..];
        out := out + Chunk(logs, p, pos[p], end);
        room := room - (end - pos[p]);
        pos := pos[p := end];
      }
      assert pos == ends && ends[0..] == ends;
      ReadFills(logs, before, pos, maxRecords);
    }

    /** Store the positions; a lost commit leaves the consumer where the group last committed. */
    method Commit(lost: bool)
      requires Valid()
      modifies this`pos, this`committed
      ensures Valid()
      ensures !lost ==> committed == old(pos) && pos == old(pos)
      ensures lost ==> committed == old(committed) && pos == committed
    {
      if lost {
        pos := committed;
      } else {
        committed := pos;
      }
    }
  }
}
