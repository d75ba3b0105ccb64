/** The tail of the scan log: scans out in id order, a watermark at every slide boundary, and a hole that stays
    open past its grace skipped as ids that will never commit. */
module TailIngest {
  import opened Collections
  import opened Skus
  import opened Relay

  datatype Item = Emit(scan: Scan) | Mark(boundary: int)

  /** When a hole was first seen, and the last id it was seen to cover. */
  datatype Hole = Hole(since: int, upto: int)

  datatype Tail = Tail(lastId: int, nextBoundary: int, slide: int, pending: map<int, Sku>, hole: Option<Hole>,
                       out: seq<Item>)

  function Start(startAfter: int, firstBoundary: int, slide: int): Tail
  {
    Tail(startAfter, firstBoundary, slide, map[], None, [])
  }

  // ---- one iteration -----------------------------------------------------------------------

  /** Mark each boundary the watermark has passed. */
  function PassMarks(t: Tail): Tail
    requires t.slide > 0
    decreases t.lastId - t.nextBoundary
  {
    if t.nextBoundary <= t.lastId
    then PassMarks(t.(nextBoundary := t.nextBoundary + t.slide, out := t.out + [Mark(t.nextBoundary)]))
    else t
  }

  /** Move the watermark to `id`. */
  function Advance(t: Tail, id: int): Tail
    requires t.slide > 0
  {
    PassMarks(t.(lastId := id))
  }

  function EmitNext(t: Tail): Tail
    requires t.slide > 0 && t.lastId + 1 in t.pending
  {
    var id := t.lastId + 1;
    Advance(t.(pending := t.pending - {id}, out := t.out + [Emit(Scan(id, t.pending[id]))]), id)
  }

  lemma {:induction false} MarksKeepRest(t: Tail)
    requires t.slide > 0
    ensures var t' := PassMarks(t);
      t'.pending == t.pending && t'.slide == t.slide && t'.hole == t.hole && t'.lastId == t.lastId
    decreases t.lastId - t.nextBoundary
  {
    if t.nextBoundary <= t.lastId {
      MarksKeepRest(t.(nextBoundary := t.nextBoundary + t.slide, out := t.out + [Mark(t.nextBoundary)]));
    }
  }

  lemma AdvanceKeepsRest(t: Tail, id: int)
    requires t.slide > 0
    ensures var t' := Advance(t, id);
      t'.pending == t.pending && t'.slide == t.slide && t'.hole == t.hole && t'.lastId == id
  {
    MarksKeepRest(t.(lastId := id));
  }

  /** Emit the pending rows contiguous with the watermark. */
  function Drain(t: Tail): Tail
    requires t.slide > 0
    decreases |t.pending|
  {
    if t.lastId + 1 in t.pending then
      var id := t.lastId + 1;
      AdvanceKeepsRest(t.(pending := t.pending - {id}, out := t.out + [Emit(Scan(id, t.pending[id]))]), id);
      Drain(EmitNext(t))
    else t
  }

  lemma DrainStep(t: Tail)
    requires t.slide > 0 && t.lastId + 1 in t.pending
    ensures var id := t.lastId + 1;
      var emitted := t.(pending := t.pending - {id}, out := t.out + [Emit(Scan(id, t.pending[id]))]);
      Advance(emitted, id).slide == t.slide && Drain(t) == Drain(Advance(emitted, id))
  {
    var id := t.lastId + 1;
    AdvanceKeepsRest(t.(pending := t.pending - {id}, out := t.out + [Emit(Scan(id, t.pending[id]))]), id);
  }

  lemma DrainDone(t: Tail)
    requires t.slide > 0 && t.lastId + 1 !in t.pending
    ensures Drain(t) == t
  {
  }

  /** Give up on every id up to `upto`. */
  function SkipTo(t: Tail, upto: int): Tail
    requires t.slide > 0
    decreases upto - t.lastId
  {
    if t.lastId < upto then
      AdvanceKeepsRest(t, t.lastId + 1);
      SkipTo(Advance(t, t.lastId + 1), upto)
    else t
  }

  ghost predicate IsLeast(pending: map<int, Sku>, id: int)
  {
    id in pending && forall other :: other in pending ==> id <= other
  }

  ghost function Least(pending: map<int, Sku>): int
    requires pending != map[]
    ensures IsLeast(pending, Least(pending))
  {
    LeastExists(pending);
    var id :| IsLeast(pending, id);
    id
  }

  lemma {:induction false} FindLeast(ids: set<int>) returns (least: int)
    requires ids != {}
    ensures least in ids && forall other :: other in ids ==> least <= other
    decreases |ids|
  {
    var x := SomeElement(ids);
    var rest := ids - {x};
    least := x;
    if rest != {} {
      var y := FindLeast(rest);
      least := Min(x, y);
    }
    forall other | other in ids ensures least <= other {
      assert other != x ==> other in rest;
    }
  }

  lemma LeastExists(pending: map<int, Sku>)
    requires pending != map[]
    ensures exists id :: IsLeast(pending, id)
  {
    var least := FindLeast(pending.Keys);
    assert IsLeast(pending, least);
  }

  /** Handle a hole below the lowest pending row; the flag says whether its grace was over. */
  ghost function SkipExpired(t: Tail, now: int, grace: int): (r: (Tail, bool))
    requires t.slide > 0
    ensures r.0.slide == t.slide
  {
    if t.pending == map[] then (t.(hole := None), false)
    else if t.hole.None? then (t.(hole := Some(Hole(now, Least(t.pending) - 1))), false)
    else if now - t.hole.value.since <= grace then (t, false)
    else
      SkipToKeepsRest(t, t.hole.value.upto);
      (SkipTo(t, t.hole.value.upto).(hole := None), true)
  }

  function Accept(t: Tail, rows: seq<Scan>): (r: Tail)
    ensures r.slide == t.slide
  {
    if rows == [] then t else
      var t' := Accept(t, rows[..|rows| - 1]);
      var row := rows[|rows| - 1];
      if row.id > t.lastId then t'.(pending := t'.pending[row.id := row.sku]) else t'
  }

  ghost function Poll(t: Tail, rows: seq<Scan>, now: int, grace: int): Tail
    requires t.slide > 0
  {
    var held := Accept(t, rows);
    AcceptKeepsRest(t, rows);
    DrainKeepsSlide(held);
    var drained := Drain(held);
    var looked := if drained.lastId > held.lastId then drained.(hole := None) else drained;
    var (skipped, over) := SkipExpired(looked, now, grace);
    if over then Drain(skipped) else skipped
  }

  lemma {:induction false} AcceptKeepsRest(t: Tail, rows: seq<Scan>)
    ensures Accept(t, rows) == t.(pending := Accept(t, rows).pending)
  {
    if rows != [] { AcceptKeepsRest(t, rows[..|rows| - 1]); }
  }

  lemma {:induction false} DrainKeepsSlide(t: Tail)
    requires t.slide > 0
    ensures Drain(t).slide == t.slide && Drain(t).hole == t.hole && Drain(t).lastId >= t.lastId
    ensures Drain(t).lastId + 1 !in Drain(t).pending
    decreases |t.pending|
  {
    if t.lastId + 1 in t.pending {
      var id := t.lastId + 1;
      AdvanceKeepsRest(t.(pending := t.pending - {id}, out := t.out + [Emit(Scan(id, t.pending[id]))]), id);
      DrainKeepsSlide(EmitNext(t));
    }
  }

  lemma {:induction false} SkipToKeepsRest(t: Tail, upto: int)
    requires t.slide > 0
    ensures var t' := SkipTo(t, upto);
      t'.slide == t.slide && t'.hole == t.hole && t'.pending == t.pending && t'.lastId == Max(t.lastId, upto)
    decreases upto - t.lastId
  {
    if t.lastId < upto {
      AdvanceKeepsRest(t, t.lastId + 1);
      SkipToKeepsRest(Advance(t, t.lastId + 1), upto);
    }
  }

  // ---- the filter --------------------------------------------------------------------------

  /** What a read of the source comes back with. */
  datatype Reading = Unavailable | Rows(rows: seq<Scan>, maxId: int, sameLog: bool)

  class Ingest {
    const slide: int
    const grace: int
    var lastId: int
    var nextBoundary: int
    var pending: map<int, Sku>
    var hole: Option<Hole>
    var out: seq<Item>

    ghost function State(): Tail
      reads this
    {
      Tail(lastId, nextBoundary, slide, pending, hole, out)
    }

    constructor (startAfter: int, firstBoundary: int, slide: int, grace: int)
      ensures State() == Start(startAfter, firstBoundary, slide) && this.grace == grace
    {
      this.slide, this.grace := slide, grace;
      lastId, nextBoundary, pending, hole, out := startAfter, firstBoundary, map[], None, [];
    }

    method AdvanceTo(id: int)
      requires slide > 0
      modifies this`lastId, this`nextBoundary, this`out
      ensures State() == Advance(old(State()), id)
    {
      lastId := id;
      ghost var t := State();
      while nextBoundary <= lastId
        invariant lastId == id && pending == t.pending && hole == t.hole
        invariant PassMarks(t) == PassMarks(State())
        decreases lastId - nextBoundary
      {
        out := out + [Mark(nextBoundary)];
        nextBoundary := nextBoundary + slide;
      }
    }

    method DrainPending() returns (progressed: bool)
      requires slide > 0
      modifies this
      ensures State() == Drain(old(State())) && progressed == (lastId > old(lastId))
      ensures lastId >= old(lastId) && lastId + 1 !in pending && hole == old(hole)
    {
      ghost var t := State();
      DrainKeepsSlide(t);
      hide Drain, EmitNext, Advance;
      progressed := false;
      while lastId + 1 in pending
        invariant Drain(t) == Drain(State()) && lastId >= t.lastId && progressed == (lastId > t.lastId)
        decreases |pending|
      {
        DrainStep(State());
        var id := lastId + 1;
        var sku := pending[id];
        pending := pending - {id};
        out := out + [Emit(Scan(id, sku))];
        AdvanceKeepsRest(State(), id);
        AdvanceTo(id);
        progressed := true;
      }
      DrainDone(State());
    }

    method SkipExpiredHole(now: int) returns (over: bool)
      requires slide > 0
      modifies this
      ensures (State(), over) == SkipExpired(old(State()), now, grace)
      ensures pending == old(pending)
      ensures over <==> old(pending) != map[] && old(hole).Some? && now - old(hole).value.since > grace
      ensures over ==> lastId == Max(old(lastId), old(hole).value.upto) && hole == None
      ensures !over ==>
        && lastId == old(lastId) && nextBoundary == old(nextBoundary) && out == old(out)
        && (pending == map[] ==> hole == None)
        && (pending != map[] && old(hole).Some? ==> hole == old(hole))
        && (pending != map[] && old(hole).None? ==>
              hole.Some? && hole.value.since == now && IsLeast(pending, hole.value.upto + 1))
    {
      if pending == map[] {
        hole := None;
        return false;
      }
      if hole.None? {
        var low := LowestPending();
        hole := Some(Hole(now, low - 1));
        return false;
      }
      if now - hole.value.since <= grace { return false; }
      var upto := hole.value.upto;
      ghost var t := State();
      SkipToKeepsRest(t, upto);
      while lastId < upto
        invariant SkipTo(t, upto) == SkipTo(State(), upto)
        invariant pending == t.pending && hole == t.hole
        decreases upto - lastId
      {
        AdvanceKeepsRest(State(), lastId + 1);
        AdvanceTo(lastId + 1);
      }
      hole := None;
      return true;
    }

    /** `min(pending)`. */
    method LowestPending() returns (low: int)
      requires pending != map[]
      ensures low == Least(pending)
    {
      LeastExists(pending);
      low :| low in pending.Keys && forall other :: other in pending.Keys ==> low <= other;
      assert IsLeast(pending, low);
    }

    /** One turn of the loop. An unavailable source changes nothing. False asks for a restart: the source names another
        log, or its highest id is below the cursor, so its data was reset. */
    method PollOnce(reading: Reading, now: int) returns (ok: bool)
      requires slide > 0
      modifies this
      ensures ok <==> reading.Unavailable? || (reading.sameLog && reading.maxId >= old(lastId))
      ensures State() == if reading.Rows? && ok then Poll(old(State()), reading.rows, now, grace) else old(State())
    {
      if reading.Unavailable? { return true; }
      if !reading.sameLog { return false; }
      var rows := reading.rows;
      if reading.maxId < lastId { return false; }
      ghost var t := State();
      for n := 0 to |rows|
        invariant State() == Accept(t, rows[..n])
      {
        assert rows[..n + 1][..n] == rows[..n];
        AcceptKeepsRest(t, rows[..n]);
        if rows[n].id > lastId {
          pending := pending[rows[n].id := rows[n].sku];
        }
      }
      assert rows[..|rows|] == rows;
      AcceptKeepsRest(t, rows);
      DrainKeepsSlide(State());
      var progressed := DrainPending();
      if progressed { hole := None; }
      SkipToKeepsRest(State(), if hole.Some? then hole.value.upto else 0);
      var over := SkipExpiredHole(now);
      if over {
        var _ := DrainPending();
      }
      return true;
    }
  }
}
