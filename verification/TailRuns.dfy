/** What the tail guarantees: the watermark discipline on any source, and on an in-order source that nothing
    is lost and nothing stalls. */
module TailRuns {
  import opened Collections
  import opened Skus
  import opened Relay
  import opened TailIngest

  // ---- the watermark discipline, on any source ---------------------------------------------

  /** A scan sorts at its id, a mark just after the scan with the id of its boundary. */
  function Rank(item: Item): int
  {
    match item
    case Emit(scan) => 2 * scan.id
    case Mark(boundary) => 2 * boundary + 1
  }

  /** Scan ids rise, each mark comes after every scan at or below its boundary and before every scan above it. */
  ghost predicate InSequence(out: seq<Item>)
  {
    forall i, j :: 0 <= i < j < |out| ==> Rank(out[i]) < Rank(out[j])
  }

  /** `first`, `first + slide`, `first + 2 * slide`, ... */
  predicate OnGrid(first: int, slide: int, b: int)
    requires slide > 0
    decreases b - first
  {
    b == first || (b > first && OnGrid(first, slide, b - slide))
  }

  ghost predicate Sound(t: Tail, start: int, first: int)
  {
    && t.slide > 0 && start < first && start <= t.lastId < t.nextBoundary
    && InSequence(t.out)
    && (forall i :: 0 <= i < |t.out| ==> 2 * start + 1 < Rank(t.out[i]) <= 2 * t.lastId + 1)
    && OnGrid(first, t.slide, t.nextBoundary)
    && (forall b :: Mark(b) in t.out <==> OnGrid(first, t.slide, b) && b < t.nextBoundary)
  }

  lemma {:induction false} GridStep(first: int, slide: int, next: int, b: int)
    requires slide > 0 && OnGrid(first, slide, next)
    ensures OnGrid(first, slide, next + slide)
    ensures OnGrid(first, slide, b) && next <= b < next + slide ==> b == next
    decreases next - first
  {
    if next != first {
      GridStep(first, slide, next - slide, b - slide);
    } else if b < first + slide {
      assert !OnGrid(first, slide, b - slide);
    }
  }

  /** Advancing by one marks the new id if it is the next boundary, and otherwise adds nothing. */
  lemma AdvanceByOne(t: Tail, id: int)
    requires t.slide > 0 && id <= t.nextBoundary
    ensures Advance(t, id) == t.(lastId := id,
              out := if id == t.nextBoundary then t.out + [Mark(id)] else t.out,
              nextBoundary := if id == t.nextBoundary then id + t.slide else t.nextBoundary)
  {
    if id == t.nextBoundary {
      assert PassMarks(t.(lastId := id))
          == PassMarks(t.(lastId := id, nextBoundary := id + t.slide, out := t.out + [Mark(id)]));
    }
  }

  lemma AppendInSequence(out: seq<Item>, item: Item)
    requires InSequence(out) && forall i :: 0 <= i < |out| ==> Rank(out[i]) < Rank(item)
    ensures InSequence(out + [item])
  {
  }

  lemma InAppend(out: seq<Item>, item: Item, x: Item)
    ensures x in out + [item] <==> x in out || x == item
  {
  }

  /** Emitting (or skipping) the next id and advancing to it keeps the discipline. */
  lemma NextKeepsSound(t: Tail, start: int, first: int, emitted: seq<Item>, pending: map<int, Sku>)
    requires Sound(t, start, first)
    requires emitted == [] || (|emitted| == 1 && emitted[0].Emit? && emitted[0].scan.id == t.lastId + 1)
    ensures var t' := Advance(t.(pending := pending, out := t.out + emitted), t.lastId + 1);
      Sound(t', start, first) && forall scan :: Emit(scan) in t'.out <==> Emit(scan) in t.out || Emit(scan) in emitted
  {
    var id := t.lastId + 1;
    var mid := t.(pending := pending, out := t.out + emitted);
    if emitted != [] { AppendInSequence(t.out, emitted[0]); } else { assert mid.out == t.out; }
    assert InSequence(mid.out);
    AdvanceByOne(mid, id);
    var t' := Advance(mid, id);
    hide Advance;
    assert forall b :: Mark(b) in mid.out <==> Mark(b) in t.out;
    if id == t.nextBoundary {
      AppendInSequence(mid.out, Mark(id));
      forall b ensures Mark(b) in t'.out <==> OnGrid(first, t.slide, b) && b < t'.nextBoundary {
        GridStep(first, t.slide, t.nextBoundary, b);
        InAppend(mid.out, Mark(id), Mark(b));
      }
      GridStep(first, t.slide, t.nextBoundary, id);
    }
  }

  /** The ids a drain passes were all pending; it leaves the rest pending and the next id missing. */
  lemma {:induction false} DrainPasses(t: Tail)
    requires t.slide > 0
    ensures var t' := Drain(t);
      && t'.lastId >= t.lastId && t'.lastId + 1 !in t'.pending && t'.hole == t.hole && t'.slide == t.slide
      && (forall id :: id in t'.pending <==> id in t.pending && !(t.lastId < id <= t'.lastId))
      && (forall id :: id in t'.pending ==> t'.pending[id] == t.pending[id])
      && (forall id :: t.lastId < id <= t'.lastId ==> id in t.pending)
    decreases |t.pending|
  {
    if t.lastId + 1 in t.pending {
      var id := t.lastId + 1;
      var rest := t.pending - {id};
      AdvanceKeepsRest(t.(pending := rest, out := t.out + [Emit(Scan(id, t.pending[id]))]), id);
      hide Advance;
      assert |rest| < |t.pending|;
      var next, t' := EmitNext(t), Drain(t);
      DrainPasses(next);
      hide Drain;
      assert next.lastId == id && next.pending == rest;
      forall k | t.lastId < k <= t'.lastId ensures k in t.pending {
        if k != id { assert k in next.pending; }
      }
    }
  }

  /** A drain emits exactly the pending rows it passes, and keeps the discipline. */
  lemma {:induction false} DrainEmits(t: Tail, start: int, first: int)
    requires Sound(t, start, first)
    ensures var t' := Drain(t);
      && Sound(t', start, first)
      && (forall s :: Emit(s) in t'.out <==>
            Emit(s) in t.out || (t.lastId < s.id <= t'.lastId && s.id in t.pending && t.pending[s.id] == s.sku))
    decreases |t.pending|
  {
    if t.lastId + 1 in t.pending {
      var id := t.lastId + 1;
      var rest := t.pending - {id};
      var emitted := [Emit(Scan(id, t.pending[id]))];
      NextKeepsSound(t, start, first, emitted, rest);
      AdvanceKeepsRest(t.(pending := rest, out := t.out + emitted), id);
      hide Advance, Sound;
      assert |rest| < |t.pending|;
      DrainEmits(EmitNext(t), start, first);
      DrainPasses(EmitNext(t));
    }
  }

  /** Skipping emits nothing and keeps the discipline. */
  lemma {:induction false} SkipEffect(t: Tail, upto: int, start: int, first: int)
    requires Sound(t, start, first)
    ensures var t' := SkipTo(t, upto);
      && Sound(t', start, first) && t'.lastId == Max(t.lastId, upto) && t'.pending == t.pending && t'.hole == t.hole
      && (forall s :: Emit(s) in t'.out <==> Emit(s) in t.out)
    decreases upto - t.lastId
  {
    if t.lastId < upto {
      NextKeepsSound(t, start, first, [], t.pending);
      assert t.(pending := t.pending, out := t.out + []) == t;
      AdvanceKeepsRest(t, t.lastId + 1);
      hide Advance, Sound;
      SkipEffect(Advance(t, t.lastId + 1), upto, start, first);
    }
  }

  lemma SoundIgnores(t: Tail, t': Tail, start: int, first: int)
    requires Sound(t, start, first) && t' == t.(pending := t'.pending, hole := t'.hole)
    ensures Sound(t', start, first)
  {
  }

  lemma PollKeepsSound(t: Tail, rows: seq<Scan>, now: int, grace: int, start: int, first: int)
    requires Sound(t, start, first)
    ensures Sound(Poll(t, rows, now, grace), start, first)
  {
    var held := Accept(t, rows);
    AcceptKeepsRest(t, rows);
    SoundIgnores(t, held, start, first);
    DrainEmits(held, start, first);
    DrainPasses(held);
    var drained := Drain(held);
    var looked := if drained.lastId > held.lastId then drained.(hole := None) else drained;
    SoundIgnores(drained, looked, start, first);
    if looked.hole.Some? { SkipEffect(looked, looked.hole.value.upto, start, first); }
    var (skipped, over) := SkipExpired(looked, now, grace);
    var base := if over then SkipTo(looked, looked.hole.value.upto) else looked;
    SoundIgnores(base, skipped, start, first);
    if over { DrainEmits(skipped, start, first); }
  }

  datatype Answer = Answer(rows: seq<Scan>, now: int)

  ghost function Polls(t: Tail, answers: seq<Answer>, grace: int): Tail
    requires t.slide > 0
    ensures Polls(t, answers, grace).slide == t.slide
    decreases |answers|
  {
    if answers == [] then t else
      var last := answers[|answers| - 1];
      var before := Polls(t, answers[..|answers| - 1], grace);
      PollKeepsSlide(before, last.rows, last.now, grace);
      Poll(before, last.rows, last.now, grace)
  }

  lemma PollKeepsSlide(t: Tail, rows: seq<Scan>, now: int, grace: int)
    requires t.slide > 0
    ensures Poll(t, rows, now, grace).slide == t.slide
  {
    AcceptKeepsRest(t, rows);
    var held := Accept(t, rows);
    DrainKeepsSlide(held);
    var drained := Drain(held);
    var looked := if drained.lastId > held.lastId then drained.(hole := None) else drained;
    if looked.hole.Some? {
      SkipToKeepsRest(looked, looked.hole.value.upto);
      DrainKeepsSlide(SkipTo(looked, looked.hole.value.upto).(hole := None));
    }
  }

  /** Watermark discipline, whatever the source answers and whenever: emitted ids strictly rise, and the marks are
      exactly the boundaries passed, each once, after every scan at or below it and before every scan above it. */
  lemma {:induction false} WatermarkDiscipline(start: int, first: int, slide: int, answers: seq<Answer>, grace: int)
    requires slide > 0 && start < first
    ensures Sound(Polls(Start(start, first, slide), answers, grace), start, first)
  {
    if answers == [] {
      assert OnGrid(first, slide, first);
    } else {
      var last := answers[|answers| - 1];
      WatermarkDiscipline(start, first, slide, answers[..|answers| - 1], grace);
      var before := Polls(Start(start, first, slide), answers[..|answers| - 1], grace);
      PollKeepsSound(before, last.rows, last.now, grace, start, first);
    }
  }

  // ---- an in-order source ------------------------------------------------------------------

  /** `revealed` holds the scans above the start that the source has revealed so far. The tail has emitted those
      up to its cursor, holds a lower part of the rest, and any hole it watches ends just below the next of them. */
  ghost predicate InOrder(t: Tail, start: int, revealed: Log)
  {
    && t.slide > 0
    && (forall id :: id in revealed ==> id > start)
    && (forall s :: Emit(s) in t.out <==> s.id in revealed && s.id <= t.lastId && revealed[s.id] == s.sku)
    && (forall id :: id in t.pending ==> id in revealed && t.pending[id] == revealed[id] && id > t.lastId)
    && (forall id, held :: id in revealed && id > t.lastId && id !in t.pending && held in t.pending ==> held < id)
    && (t.hole.Some? ==>
          && t.hole.value.upto + 1 in t.pending
          && forall id :: id in revealed && id > t.lastId ==> t.hole.value.upto < id)
    && (t.lastId == start || exists id :: id in revealed && id >= t.lastId)
  }

  /** A source in order reveals nothing below what it has revealed. */
  ghost predicate RevealsNext(start: int, revealed: Log, id: int)
  {
    id > start && forall other :: other in revealed ==> other < id
  }

  lemma RevealKeepsInOrder(t: Tail, start: int, revealed: Log, id: int, sku: Sku)
    requires InOrder(t, start, revealed) && RevealsNext(start, revealed, id)
    ensures InOrder(t, start, revealed[id := sku])
  {
    var revealed' := revealed[id := sku];
    assert t.lastId < id;
    if t.lastId != start {
      var last :| last in revealed && last >= t.lastId;
      assert last in revealed';
    }
  }

  /** What the tail reads from need not hold what it already holds pending: above the cursor, the source is true to what
      was revealed and lacks none of it but pending rows. */
  ghost predicate Supplies(source: Log, t: Tail, revealed: Log)
  {
    && (forall id :: id in source && id > t.lastId ==> id in revealed && source[id] == revealed[id])
    && (forall id :: id in revealed && id > t.lastId ==> id in source || id in t.pending)
  }

  lemma {:induction false} AcceptHolds(t: Tail, rows: seq<Scan>, id: int)
    ensures id in Accept(t, rows).pending <==> id in t.pending || (id > t.lastId && HasId(rows, id))
    ensures id in Accept(t, rows).pending ==>
      (id in t.pending && Accept(t, rows).pending[id] == t.pending[id])
      || (exists i :: 0 <= i < |rows| && rows[i].id == id && Accept(t, rows).pending[id] == rows[i].sku)
  {
    if rows != [] {
      var front, row := rows[..|rows| - 1], rows[|rows| - 1];
      AcceptHolds(t, front, id);
      assert rows == front + [row];
      HasIdAppend(front, [row], id);
      assert [row][0] == row;
      if row.id == id { assert rows[|rows| - 1].id == id; }
    }
  }

  /** On a source that answers from `revealed`, accepting adds exactly the answered ids, with the SKUs revealed. */
  lemma AcceptAdds(t: Tail, start: int, revealed: Log, source: Log, rows: seq<Scan>, limit: nat)
    requires InOrder(t, start, revealed) && Supplies(source, t, revealed)
    requires FirstAbove(rows, source, t.lastId, limit)
    ensures var t' := Accept(t, rows);
      && t' == t.(pending := t'.pending)
      && (forall id :: id in t'.pending <==> id in t.pending || HasId(rows, id))
      && (forall id :: id in t'.pending ==> id in revealed && t'.pending[id] == revealed[id] && id > t.lastId)
  {
    AcceptKeepsRest(t, rows);
    var t' := Accept(t, rows);
    forall id ensures (id in t'.pending <==> id in t.pending || HasId(rows, id))
      && (id in t'.pending ==> id in revealed && t'.pending[id] == revealed[id] && id > t.lastId)
    {
      AcceptHolds(t, rows, id);
      hide Accept;
    }
  }

  /** What is held stays the lower part of what is revealed: a full answer stops below whatever it leaves out. */
  lemma AcceptKeepsLowest(t: Tail, start: int, revealed: Log, source: Log, rows: seq<Scan>, limit: nat, id: int,
                          held: int)
    requires InOrder(t, start, revealed) && Supplies(source, t, revealed)
    requires FirstAbove(rows, source, t.lastId, limit)
    requires id in revealed && id > t.lastId && id !in Accept(t, rows).pending && held in Accept(t, rows).pending
    ensures held < id
  {
    AcceptHolds(t, rows, id);
    AcceptHolds(t, rows, held);
    hide Accept;
    assert id in source && !HasId(rows, id);
    if held !in t.pending {
      var i :| 0 <= i < |rows| && rows[i].id == held;
    }
  }

  lemma AcceptKeepsInOrder(t: Tail, start: int, revealed: Log, source: Log, rows: seq<Scan>, limit: nat)
    requires InOrder(t, start, revealed) && Supplies(source, t, revealed)
    requires FirstAbove(rows, source, t.lastId, limit)
    ensures InOrder(Accept(t, rows), start, revealed)
  {
    AcceptAdds(t, start, revealed, source, rows, limit);
    hide Accept, HasId, FirstAbove, Supplies, InOrder;
    var t' := Accept(t, rows);
    forall id, held | id in revealed && id > t.lastId && id !in t'.pending && held in t'.pending ensures held < id {
      AcceptKeepsLowest(t, start, revealed, source, rows, limit, id, held);
    }
    HoldingMoreKeeps(t, t', start, revealed);
  }

  lemma HoldingMoreKeeps(t: Tail, t': Tail, start: int, revealed: Log)
    requires InOrder(t, start, revealed) && t' == t.(pending := t'.pending)
    requires forall id :: id in t.pending ==> id in t'.pending
    requires forall id :: id in t'.pending ==> id in revealed && t'.pending[id] == revealed[id] && id > t.lastId
    requires forall id, held ::
      id in revealed && id > t.lastId && id !in t'.pending && held in t'.pending ==> held < id
    ensures InOrder(t', start, revealed)
  {
  }

  /** With anything revealed above the cursor, something is held after accepting. */
  lemma AcceptHoldsSome(t: Tail, start: int, revealed: Log, source: Log, rows: seq<Scan>, limit: nat, id: int)
    requires InOrder(t, start, revealed) && Supplies(source, t, revealed) && limit > 0
    requires FirstAbove(rows, source, t.lastId, limit) && id in revealed && id > t.lastId
    ensures Accept(t, rows).pending != map[]
  {
    AcceptHolds(t, rows, id);
    if id !in Accept(t, rows).pending {
      assert id in source && !HasId(rows, id);
      assert |rows| > 0;
      AcceptHolds(t, rows, rows[0].id);
      assert HasId(rows, rows[0].id);
    }
  }

  lemma DrainKeepsInOrder(t: Tail, start: int, first: int, revealed: Log)
    requires InOrder(t, start, revealed) && Sound(t, start, first)
    ensures var t' := Drain(t);
      InOrder(if t'.lastId > t.lastId then t'.(hole := None) else t', start, revealed)
  {
    DrainPasses(t);
    DrainEmits(t, start, first);
    var t' := Drain(t);
    hide Drain, Sound;
    if t'.lastId > t.lastId {
      assert t'.lastId in t.pending;
    }
  }

  lemma SkipKeepsInOrder(t: Tail, start: int, first: int, revealed: Log, now: int, grace: int)
    requires InOrder(t, start, revealed) && Sound(t, start, first)
    ensures InOrder(SkipExpired(t, now, grace).0, start, revealed)
  {
    if t.pending == map[] {
    } else if t.hole.None? {
      assert IsLeast(t.pending, Least(t.pending));
    } else if now - t.hole.value.since > grace {
      var upto := t.hole.value.upto;
      SkipEffect(t, upto, start, first);
      hide SkipTo, Sound;
      assert upto + 1 in revealed;
    }
  }

  /** Each stage of a poll, named. */
  ghost function Looked(t: Tail, rows: seq<Scan>): Tail
    requires t.slide > 0
  {
    AcceptKeepsRest(t, rows);
    var held := Accept(t, rows);
    var drained := Drain(held);
    if drained.lastId > held.lastId then drained.(hole := None) else drained
  }

  lemma PollStages(t: Tail, rows: seq<Scan>, now: int, grace: int)
    requires t.slide > 0
    ensures Looked(t, rows).slide == t.slide && SkipExpired(Looked(t, rows), now, grace).0.slide == t.slide
    ensures var (skipped, over) := SkipExpired(Looked(t, rows), now, grace);
      Poll(t, rows, now, grace) == if over then Drain(skipped) else skipped
  {
    AcceptKeepsRest(t, rows);
    DrainKeepsSlide(Accept(t, rows));
    var looked := Looked(t, rows);
    if looked.hole.Some? { SkipToKeepsRest(looked, looked.hole.value.upto); }
  }

  lemma DrainKeepsSound(t: Tail, start: int, first: int)
    requires Sound(t, start, first)
    ensures Sound(Drain(t), start, first)
  {
    hide Sound, Drain;
    DrainEmits(t, start, first);
  }

  lemma LookedIs(t: Tail, rows: seq<Scan>)
    requires t.slide > 0
    ensures var held := Accept(t, rows);
      && held == t.(pending := held.pending) && Drain(held).lastId + 1 !in Drain(held).pending
      && Drain(held).lastId >= t.lastId && Drain(held).hole == t.hole
      && Looked(t, rows) == if Drain(held).lastId > t.lastId then Drain(held).(hole := None) else Drain(held)
  {
    AcceptKeepsRest(t, rows);
    DrainKeepsSlide(Accept(t, rows));
  }

  lemma LookedKeeps(t: Tail, start: int, first: int, revealed: Log, source: Log, rows: seq<Scan>, limit: nat)
    requires InOrder(t, start, revealed) && Sound(t, start, first) && Supplies(source, t, revealed)
    requires FirstAbove(rows, source, t.lastId, limit)
    ensures var looked := Looked(t, rows);
      InOrder(looked, start, revealed) && Sound(looked, start, first)
      && looked.lastId >= t.lastId
      && (looked.lastId == t.lastId ==> looked.hole == t.hole && looked.lastId + 1 !in looked.pending)
  {
    assert t.slide > 0;
    hide *;
    var held := Accept(t, rows);
    LookedIs(t, rows);
    AcceptKeepsInOrder(t, start, revealed, source, rows, limit);
    SoundIgnores(t, held, start, first);
    DrainKeepsInOrder(held, start, first, revealed);
    DrainKeepsSound(held, start, first);
    SoundIgnores(Drain(held), Looked(t, rows), start, first);
  }

  /** Nothing is lost on an in-order source: a poll keeps "emitted are exactly the revealed scans up to the cursor". */
  lemma PollKeepsInOrder(t: Tail, start: int, first: int, revealed: Log, source: Log, rows: seq<Scan>, limit: nat,
                         now: int, grace: int)
    requires InOrder(t, start, revealed) && Sound(t, start, first) && Supplies(source, t, revealed)
    requires FirstAbove(rows, source, t.lastId, limit)
    ensures InOrder(Poll(t, rows, now, grace), start, revealed) && Sound(Poll(t, rows, now, grace), start, first)
  {
    PollKeepsSound(t, rows, now, grace, start, first);
    PollStages(t, rows, now, grace);
    LookedKeeps(t, start, first, revealed, source, rows, limit);
    var looked := Looked(t, rows);
    SkipKeepsInOrder(looked, start, first, revealed, now, grace);
    var (skipped, over) := SkipExpired(looked, now, grace);
    if over {
      SkipEffect(looked, looked.hole.value.upto, start, first);
      SoundIgnores(SkipTo(looked, looked.hole.value.upto), skipped, start, first);
      DrainKeepsInOrder(skipped, start, first, revealed);
      DrainPasses(skipped);
      hide InOrder, Sound, Drain, Looked, Poll;
      assert skipped.hole == None;
    }
  }

  /** A poll never drops a row it holds ahead of the cursor. */
  lemma PollKeepsPending(t: Tail, rows: seq<Scan>, now: int, grace: int, id: int)
    requires t.slide > 0
    ensures var t' := Poll(t, rows, now, grace);
      t'.lastId >= t.lastId && (id in t.pending && id > t'.lastId ==> id in t'.pending)
  {
    var held := Accept(t, rows);
    AcceptKeepsRest(t, rows);
    AcceptHolds(t, rows, id);
    hide Accept;
    DrainPasses(held);
    PollStages(t, rows, now, grace);
    var looked := Looked(t, rows);
    var (skipped, over) := SkipExpired(looked, now, grace);
    SkipToKeepsRest(looked, if looked.hole.Some? then looked.hole.value.upto else 0);
    if over { DrainPasses(skipped); }
    hide Drain, SkipTo;
  }

  lemma PollKeepsSupply(t: Tail, revealed: Log, source: Log, rows: seq<Scan>, now: int, grace: int)
    requires t.slide > 0 && Supplies(source, t, revealed)
    ensures Supplies(source, Poll(t, rows, now, grace), revealed)
  {
    hide Poll;
    var t' := Poll(t, rows, now, grace);
    PollKeepsPending(t, rows, now, grace, 0);
    forall id | id in revealed && id > t'.lastId ensures id in source || id in t'.pending {
      PollKeepsPending(t, rows, now, grace, id);
    }
  }
}
