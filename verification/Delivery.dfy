/** Delivery over any schedule of polls, handlings, commits, lost commits, crashes and appends. */
module Delivery {
  import opened Collections
  import opened ConsumerLoop

  datatype At = At(partition: nat, offset: nat)

  /** The group's logs, committed positions and the live consumer: its positions, its batch and how much of that is
      done. `settled` lists the records handled or dead-lettered, in the order of their first time; `handled` and `dead`
      say how the handler's calls ended the last time each was. */
  datatype Loop = Loop(logs: Logs, committed: seq<nat>, pos: seq<nat>, batch: seq<Record>, done: set<nat>,
                       settled: seq<At>, handled: map<At, seq<Attempt>>, dead: map<At, seq<Attempt>>, maxAttempts: nat)

  datatype Event =
    | Append(partition: nat, key: Key)
    | Poll(room: nat)
    | Complete(i: nat, calls: seq<Attempt>)
    | Commit
    | CommitLost
    | Restart

  function Place(r: Record): At
  {
    At(r.partition, r.offset)
  }

  ghost predicate PositionsOk(d: Loop)
  {
    |d.pos| == |d.committed| == |d.logs| && forall p :: 0 <= p < |d.logs| ==> d.committed[p] <= d.pos[p] <= |d.logs[p]|
  }

  /** A group's records are handled one after another; groups run side by side. */
  ghost predicate Able(d: Loop, e: Event)
  {
    && PositionsOk(d)
    && match e
      case Append(partition, _) => partition < |d.logs|
      case Poll(_) => d.batch == []
      case Complete(i, calls) =>
        && i < |d.batch| && i !in d.done && !Settle(calls, 0, 0, d.maxAttempts).StillTrying?
        && forall j :: 0 <= j < i && GroupOf(d.batch[j]) == GroupOf(d.batch[i]) ==> j in d.done
      case Commit => forall i :: 0 <= i < |d.batch| ==> i in d.done
      case CommitLost => forall i :: 0 <= i < |d.batch| ==> i in d.done
      case Restart => true
  }

  ghost function Next(d: Loop, e: Event): Loop
    requires Able(d, e)
  {
    match e
    case Append(partition, key) => d.(logs := d.logs[partition := d.logs[partition] + [key]])
    case Poll(room) =>
      var ends := Ends(d.logs, d.pos, room, 0);
      EndsBetween(d.logs, d.pos, room, 0);
      d.(pos := ends, batch := Chunks(d.logs, d.pos, ends, |d.logs|), done := {})
    case Complete(i, calls) =>
      var at, verdict := Place(d.batch[i]), Settle(calls, 0, 0, d.maxAttempts);
      d.(done := d.done + {i},
         settled := if at in d.settled then d.settled else d.settled + [at],
         handled := if verdict.Handled? then d.handled[at := calls] else d.handled,
         dead := if verdict.Handled? then d.dead else d.dead[at := calls])
    case Commit => d.(committed := d.pos, batch := [], done := {})
    case CommitLost => d.(pos := d.committed, batch := [], done := {})
    case Restart => d.(pos := d.committed, batch := [], done := {})
  }

  ghost predicate DeliveryRun(d: Loop, events: seq<Event>, d': Loop)
    decreases |events|
  {
    if events == [] then d' == d else Able(d, events[0]) && DeliveryRun(Next(d, events[0]), events[1..], d')
  }

  // ---- the invariant -----------------------------------------------------------------------

  ghost predicate Undone(d: Loop, at: At)
  {
    exists i :: 0 <= i < |d.batch| && i !in d.done && Place(d.batch[i]) == at
  }

  /** The batch is in offset order within a partition, true to the logs, and below the positions. */
  ghost predicate BatchOk(d: Loop)
    requires PositionsOk(d)
  {
    && (forall i :: 0 <= i < |d.batch| ==> var r := d.batch[i];
          r.partition < |d.logs| && r.offset < d.pos[r.partition] && d.logs[r.partition][r.offset] == r.key)
    && (forall i, j :: 0 <= i < j < |d.batch| && d.batch[i].partition == d.batch[j].partition ==>
          d.batch[i].offset < d.batch[j].offset)
    && (forall i :: 0 <= i < |d.batch| && i in d.done ==> Place(d.batch[i]) in d.settled)
  }

  /** Nothing below a position is forgotten, and nothing below a committed position is outstanding. */
  ghost predicate Accounted(d: Loop)
    requires PositionsOk(d)
  {
    && (forall p, o: nat :: 0 <= p < |d.logs| && o < d.pos[p] ==> At(p, o) in d.settled || Undone(d, At(p, o)))
    && (forall p, o: nat :: 0 <= p < |d.logs| && o < d.committed[p] ==> At(p, o) in d.settled)
    && (forall at :: at in d.settled <==> at in d.handled || at in d.dead)
  }

  /** A record counts as handled, or as dead, only by the verdict on its handler's calls. */
  ghost predicate Judged(d: Loop)
  {
    && (forall at :: at in d.handled ==> Settle(d.handled[at], 0, 0, d.maxAttempts).Handled?)
    && (forall at :: at in d.dead ==> Settle(d.dead[at], 0, 0, d.maxAttempts).DeadLettered?)
  }

  /** Within a partition and key, a record is first settled only after every earlier one. */
  ghost predicate FirstsInOrder(logs: Logs, settled: seq<At>)
  {
    && (forall k :: 0 <= k < |settled| ==>
          settled[k].partition < |logs| && settled[k].offset < |logs[settled[k].partition]|)
    && (forall k, o: nat :: 0 <= k < |settled| && o < settled[k].offset
          && logs[settled[k].partition][o] == logs[settled[k].partition][settled[k].offset]
          ==> At(settled[k].partition, o) in settled[..k])
    && (forall k, l :: 0 <= k < l < |settled| ==> settled[k] != settled[l])
  }

  ghost predicate DeliveryOk(d: Loop)
  {
    PositionsOk(d) && BatchOk(d) && Accounted(d) && FirstsInOrder(d.logs, d.settled) && Judged(d)
  }

  ghost predicate Untouched(d: Loop)
  {
    && PositionsOk(d) && d.batch == [] && d.settled == [] && d.handled == map[] && d.dead == map[] && d.done == {}
    && forall p :: 0 <= p < |d.logs| ==> d.pos[p] == 0
  }

  lemma StepKeepsJudged(d: Loop, e: Event)
    requires Judged(d) && Able(d, e)
    ensures Judged(Next(d, e))
  {
    hide Settle, PositionsOk, Ends, Chunks;
  }

  lemma AppendKeeps(d: Loop, partition: nat, key: Key)
    requires DeliveryOk(d) && partition < |d.logs|
    ensures DeliveryOk(Next(d, Append(partition, key)))
  {
    StepKeepsJudged(d, Append(partition, key));
    hide Judged;
    var d' := Next(d, Append(partition, key));
    assert BatchOk(d');
    forall p, o: nat | 0 <= p < |d'.logs| && o < d'.pos[p] ensures At(p, o) in d'.settled || Undone(d', At(p, o)) {
      assert At(p, o) in d.settled || Undone(d, At(p, o));
    }
    hide Undone, BatchOk;
    assert FirstsInOrder(d'.logs, d'.settled);
  }

  ghost predicate Read(logs: Logs, pos: seq<nat>, ends: seq<nat>, r: Record)
    requires Between(logs, pos, ends)
  {
    r.partition < |logs| && pos[r.partition] <= r.offset < ends[r.partition] && logs[r.partition][r.offset] == r.key
  }

  lemma {:induction false} ChunksRead(logs: Logs, pos: seq<nat>, ends: seq<nat>, n: nat, i: nat)
    requires Between(logs, pos, ends) && n <= |logs| && i < |Chunks(logs, pos, ends, n)|
    ensures var r := Chunks(logs, pos, ends, n)[i]; Read(logs, pos, ends, r) && r.partition < n
    decreases n
  {
    var front, chunk := Chunks(logs, pos, ends, n - 1), Chunk(logs, n - 1, pos[n - 1], ends[n - 1]);
    if i < |front| {
      ChunksRead(logs, pos, ends, n - 1, i);
    } else {
      assert chunk[i - |front|] == Record(n - 1, pos[n - 1] + (i - |front|), logs[n - 1][pos[n - 1] + (i - |front|)]);
    }
  }

  lemma {:induction false} ChunksRise(logs: Logs, pos: seq<nat>, ends: seq<nat>, n: nat, i: nat, j: nat)
    requires Between(logs, pos, ends) && n <= |logs| && i < j < |Chunks(logs, pos, ends, n)|
    ensures var batch := Chunks(logs, pos, ends, n);
      batch[i].partition == batch[j].partition ==> batch[i].offset < batch[j].offset
    decreases n
  {
    var front, chunk := Chunks(logs, pos, ends, n - 1), Chunk(logs, n - 1, pos[n - 1], ends[n - 1]);
    if j < |front| {
      ChunksRise(logs, pos, ends, n - 1, i, j);
    } else if i < |front| {
      ChunksRead(logs, pos, ends, n - 1, i);
      assert chunk[j - |front|].partition == n - 1;
    } else {
      assert chunk[i - |front|].offset < chunk[j - |front|].offset;
    }
  }

  lemma {:induction false} ChunksHold(logs: Logs, pos: seq<nat>, ends: seq<nat>, n: nat, p: nat, o: nat)
    returns (i: nat)
    requires Between(logs, pos, ends) && p < n <= |logs| && pos[p] <= o < ends[p]
    ensures var batch := Chunks(logs, pos, ends, n); i < |batch| && Place(batch[i]) == At(p, o)
    decreases n
  {
    if p == n - 1 {
      i := |Chunks(logs, pos, ends, n - 1)| + (o - pos[p]);
    } else {
      i := ChunksHold(logs, pos, ends, n - 1, p, o);
    }
  }

  lemma PolledBatchOk(d: Loop, d': Loop)
    requires PositionsOk(d) && Between(d.logs, d.pos, d'.pos)
    requires d' == d.(pos := d'.pos, batch := Chunks(d.logs, d.pos, d'.pos, |d.logs|), done := {})
    ensures PositionsOk(d') && BatchOk(d')
  {
    hide Chunks;
    forall i | 0 <= i < |d'.batch| ensures Read(d.logs, d.pos, d'.pos, d'.batch[i]) {
      ChunksRead(d.logs, d.pos, d'.pos, |d.logs|, i);
    }
    forall i, j | 0 <= i < j < |d'.batch| && d'.batch[i].partition == d'.batch[j].partition
      ensures d'.batch[i].offset < d'.batch[j].offset
    {
      ChunksRise(d.logs, d.pos, d'.pos, |d.logs|, i, j);
    }
  }

  lemma PollKeeps(d: Loop, room: nat)
    requires DeliveryOk(d) && d.batch == []
    ensures DeliveryOk(Next(d, Poll(room)))
  {
    StepKeepsJudged(d, Poll(room));
    hide Judged;
    var d' := Next(d, Poll(room));
    EndsBetween(d.logs, d.pos, room, 0);
    assert Between(d.logs, d.pos, d'.pos);
    hide Chunks, FirstsInOrder, Ends;
    PolledBatchOk(d, d');
    assert forall at :: !Undone(d, at);
    forall p, o: nat | 0 <= p < |d'.logs| && o < d'.pos[p] ensures At(p, o) in d'.settled || Undone(d', At(p, o)) {
      if o >= d.pos[p] {
        var i := ChunksHold(d.logs, d.pos, d'.pos, |d.logs|, p, o);
        assert i !in d'.done;
      }
    }
  }

  /** Every earlier record of the same partition and key is settled when a record's turn comes. */
  lemma EarlierAreSettled(d: Loop, i: nat, calls: seq<Attempt>, o: nat)
    requires DeliveryOk(d) && Able(d, Complete(i, calls))
    requires var r := d.batch[i]; o < r.offset && d.logs[r.partition][o] == r.key
    ensures At(d.batch[i].partition, o) in d.settled
  {
    var r := d.batch[i];
    assert At(r.partition, o) in d.settled || Undone(d, At(r.partition, o));
    forall j | 0 <= j < |d.batch| && Place(d.batch[j]) == At(r.partition, o) ensures j in d.done {
      assert GroupOf(d.batch[j]) == GroupOf(r);
    }
  }

  lemma SettleOneMore(d: Loop, i: nat, calls: seq<Attempt>)
    requires DeliveryOk(d) && Able(d, Complete(i, calls))
    ensures var d' := Next(d, Complete(i, calls));
      && FirstsInOrder(d'.logs, d'.settled)
      && forall at :: at in d'.settled <==> at in d.settled || at == Place(d.batch[i])
  {
    var d', r := Next(d, Complete(i, calls)), d.batch[i];
    forall o: nat | o < r.offset && d.logs[r.partition][o] == r.key ensures At(r.partition, o) in d.settled {
      EarlierAreSettled(d, i, calls, o);
    }
    assert r.partition < |d.logs| && r.offset < |d.logs[r.partition]|;
    hide BatchOk, Accounted;
    if Place(r) !in d.settled {
      var s' := d'.settled;
      assert s' == d.settled + [Place(r)];
      forall k, o: nat |
        && 0 <= k < |s'| && o < s'[k].offset
        && d.logs[s'[k].partition][o] == d.logs[s'[k].partition][s'[k].offset]
        ensures At(s'[k].partition, o) in s'[..k]
      {
        assert s'[..k] == d.settled[..k];
        if k == |d.settled| { assert s'[..k] == d.settled; }
      }
    }
  }

  lemma CompleteKeeps(d: Loop, i: nat, calls: seq<Attempt>)
    requires DeliveryOk(d) && Able(d, Complete(i, calls))
    ensures DeliveryOk(Next(d, Complete(i, calls)))
  {
    StepKeepsJudged(d, Complete(i, calls));
    hide Judged, Settle;
    var d' := Next(d, Complete(i, calls));
    SettleOneMore(d, i, calls);
    hide FirstsInOrder;
    assert BatchOk(d');
    forall p, o: nat | 0 <= p < |d'.logs| && o < d'.pos[p] ensures At(p, o) in d'.settled || Undone(d', At(p, o)) {
      if At(p, o) !in d.settled && At(p, o) != Place(d.batch[i]) {
        var j :| 0 <= j < |d.batch| && j !in d.done && Place(d.batch[j]) == At(p, o);
        assert j !in d'.done;
      }
    }
    hide Undone, BatchOk;
    assert Accounted(d');
  }

  lemma StepKeepsDelivery(d: Loop, e: Event)
    requires DeliveryOk(d) && Able(d, e)
    ensures DeliveryOk(Next(d, e))
  {
    match e
    case Append(partition, key) => AppendKeeps(d, partition, key);
    case Poll(room) => PollKeeps(d, room);
    case Complete(i, calls) => CompleteKeeps(d, i, calls);
    case Commit => CommitKeeps(d);
    case CommitLost => RewindKeeps(d);
    case Restart => RewindKeeps(d);
  }

  lemma CommitKeeps(d: Loop)
    requires DeliveryOk(d) && Able(d, Commit)
    ensures DeliveryOk(Next(d, Commit))
  {
    forall p, o: nat | 0 <= p < |d.logs| && o < d.pos[p] ensures At(p, o) in d.settled {
      assert !Undone(d, At(p, o));
    }
    hide FirstsInOrder;
    assert BatchOk(Next(d, Commit));
  }

  lemma RewindKeeps(d: Loop)
    requires DeliveryOk(d)
    ensures DeliveryOk(d.(pos := d.committed, batch := [], done := {}))
  {
    hide FirstsInOrder;
  }

  /** Over every schedule of appends, polls, crashes, lost commits and redeliveries: each record below a committed
      position has been handled or dead-lettered, no record's first time comes before that of an earlier one of
      the same partition and key, and each record has one first time. */
  lemma {:induction false} AtLeastOnceInOrder(d: Loop, events: seq<Event>, d': Loop)
    requires DeliveryOk(d) && DeliveryRun(d, events, d')
    ensures DeliveryOk(d')
    decreases |events|
  {
    if events != [] {
      StepKeepsDelivery(d, events[0]);
      hide DeliveryOk, Able, Next;
      AtLeastOnceInOrder(Next(d, events[0]), events[1..], d');
    }
  }

  lemma DeliveryFromScratch(d: Loop, events: seq<Event>, d': Loop)
    requires Untouched(d) && DeliveryRun(d, events, d')
    ensures |d'.committed| == |d'.logs|
    ensures forall p, o: nat :: 0 <= p < |d'.logs| && o < d'.committed[p] ==>
      At(p, o) in d'.handled || At(p, o) in d'.dead
    ensures FirstsInOrder(d'.logs, d'.settled) && forall at :: at in d'.settled <==> at in d'.handled || at in d'.dead
    ensures forall at :: at in d'.handled ==> EndsWell(d'.handled[at], d'.maxAttempts)
    ensures forall at :: at in d'.dead ==> EndsBadly(d'.dead[at], d'.maxAttempts)
  {
    AtLeastOnceInOrder(d, events, d');
    assert Judged(d');
    hide *;
    JudgedRightly(d');
  }

  lemma JudgedRightly(d: Loop)
    requires Judged(d)
    ensures forall at :: at in d.handled ==> EndsWell(d.handled[at], d.maxAttempts)
    ensures forall at :: at in d.dead ==> EndsBadly(d.dead[at], d.maxAttempts)
  {
    hide Settle, EndsWell, EndsBadly;
    forall at | at in d.handled ensures EndsWell(d.handled[at], d.maxAttempts) {
      VerdictIff(d.handled[at], d.maxAttempts);
    }
    forall at | at in d.dead ensures EndsBadly(d.dead[at], d.maxAttempts) {
      VerdictIff(d.dead[at], d.maxAttempts);
    }
  }

  // ---- rounds ------------------------------------------------------------------------------

  /** The records of a batch settled one after another, in any order the groups allow, and then the commit. */
  ghost predicate Settles(d: Loop, completes: seq<Event>, d': Loop)
    decreases |completes|
  {
    if completes == [] then Able(d, Commit) && d' == Next(d, Commit) else
      completes[0].Complete? && Able(d, completes[0]) && Settles(Next(d, completes[0]), completes[1..], d')
  }

  /** Turns of the loop with nothing lost in between, each reading up to `room` records. */
  ghost predicate Turns(d: Loop, turns: seq<seq<Event>>, room: nat, d': Loop)
    decreases |turns|
  {
    if turns == [] then d' == d else
      && Able(d, Poll(room))
      && exists mid :: Settles(Next(d, Poll(room)), turns[0], mid) && Turns(mid, turns[1..], room, d')
  }

  lemma {:induction false} SettlesCommits(d: Loop, completes: seq<Event>, d': Loop)
    requires DeliveryOk(d) && Settles(d, completes, d')
    ensures DeliveryOk(d') && d'.logs == d.logs && d'.pos == d'.committed == d.pos && d'.batch == []
    decreases |completes|
  {
    if completes == [] {
      StepKeepsDelivery(d, Commit);
    } else {
      StepKeepsDelivery(d, completes[0]);
      hide DeliveryOk, Able, Settle, Ends, Chunks;
      SettlesCommits(Next(d, completes[0]), completes[1..], d');
    }
  }

  function Lengths(logs: Logs): seq<nat>
  {
    seq(|logs|, p requires 0 <= p < |logs| => |logs[p]|)
  }

  /** How many records the group has yet to read. */
  function Unread(d: Loop): int
    requires |d.pos| == |d.logs|
  {
    Gained(d.pos, Lengths(d.logs), 0)
  }

  lemma {:induction false} GainedAdds(a: seq<nat>, b: seq<nat>, c: seq<nat>, p: nat)
    requires |a| == |b| == |c| && p <= |a|
    ensures Gained(a, c, p) == Gained(a, b, p) + Gained(b, c, p)
    decreases |a| - p
  {
    if p < |a| { GainedAdds(a, b, c, p + 1); }
  }

  lemma {:induction false} NothingLeft(pos: seq<nat>, ends: seq<nat>, p: nat)
    requires |pos| == |ends| && p <= |pos| && forall q :: p <= q < |pos| ==> pos[q] <= ends[q]
    ensures Gained(pos, ends, p) >= 0
    ensures Gained(pos, ends, p) == 0 <==> forall q :: p <= q < |pos| ==> pos[q] == ends[q]
    decreases |pos| - p
  {
    if p < |pos| { NothingLeft(pos, ends, p + 1); }
  }

  lemma ReadShrinks(logs: Logs, pos: seq<nat>, ends: seq<nat>, room: nat)
    requires Between(logs, pos, ends) && ends == Ends(logs, pos, room, 0)
    ensures Gained(ends, Lengths(logs), 0) == Max(0, Gained(pos, Lengths(logs), 0) - room)
  {
    hide Ends;
    assert ends[0..] == ends;
    EndsFill(logs, pos, ends, room, 0);
    GainedAdds(pos, ends, Lengths(logs), 0);
    NothingLeft(ends, Lengths(logs), 0);
  }

  lemma Polled(d: Loop, room: nat)
    requires DeliveryOk(d) && Able(d, Poll(room))
    ensures var mid := Next(d, Poll(room));
      && DeliveryOk(mid) && mid.logs == d.logs && |mid.pos| == |d.pos| == |d.logs|
      && Unread(mid) == Max(0, Unread(d) - room)
  {
    StepKeepsDelivery(d, Poll(room));
    EndsBetween(d.logs, d.pos, room, 0);
    hide Chunks, DeliveryOk, Gained, Lengths;
    ReadShrinks(d.logs, d.pos, Ends(d.logs, d.pos, room, 0), room);
  }

  /** A turn reads and commits `room` records more, or all there are. */
  lemma TurnAdvances(d: Loop, room: nat, completes: seq<Event>, d': Loop)
    requires DeliveryOk(d) && Able(d, Poll(room)) && Settles(Next(d, Poll(room)), completes, d')
    ensures DeliveryOk(d') && d'.logs == d.logs && d'.pos == d'.committed && |d'.pos| == |d.pos| == |d.logs|
    ensures Unread(d') == Max(0, Unread(d) - room)
  {
    hide DeliveryOk, Settles, Gained, Lengths, Able, Next;
    Polled(d, room);
    SettlesCommits(Next(d, Poll(room)), completes, d');
  }

  lemma OneTurnFewer(turns: nat, room: nat, unread: int)
    requires turns > 0 && turns * room >= unread
    ensures (turns - 1) * room >= Max(0, unread - room)
  {
    assert turns * room == (turns - 1) * room + room;
  }

  lemma {:induction false} TurnsReadAll(d: Loop, turns: seq<seq<Event>>, room: nat, d': Loop)
    requires DeliveryOk(d) && Turns(d, turns, room, d') && |turns| > 0 && |d.pos| == |d.logs|
    requires |turns| * room >= Unread(d)
    ensures DeliveryOk(d') && d'.logs == d.logs && d'.pos == d'.committed && |d'.pos| == |d.logs| && Unread(d') <= 0
    decreases |turns|
  {
    hide DeliveryOk, Settles, Able, Next, Unread;
    var mid :| Settles(Next(d, Poll(room)), turns[0], mid) && Turns(mid, turns[1..], room, d');
    TurnAdvances(d, room, turns[0], mid);
    OneTurnFewer(|turns|, room, Unread(d));
    if |turns| > 1 { TurnsReadAll(mid, turns[1..], room, d'); }
  }

  /** The loop gets through: once appends stop and nothing is lost, turns enough for what is unread commit it all, and
      every record of every partition has been handled or dead-lettered. */
  lemma TurnsSettleAll(d: Loop, turns: seq<seq<Event>>, room: nat, d': Loop)
    requires DeliveryOk(d) && Turns(d, turns, room, d') && |turns| > 0 && |turns| * room >= Unread(d)
    ensures d'.logs == d.logs && d'.committed == Lengths(d.logs)
    ensures forall p, o: nat :: 0 <= p < |d.logs| && o < |d.logs[p]| ==> At(p, o) in d'.handled || At(p, o) in d'.dead
  {
    TurnsReadAll(d, turns, room, d');
    NothingLeft(d'.pos, Lengths(d.logs), 0);
    hide Turns, BatchOk, FirstsInOrder, Judged, Gained;
  }
}
