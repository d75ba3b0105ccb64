/** Liveness of the tail: on an in-order source it catches up; a row that shows up late inside a hole is lost, and
    the tail never crosses a hole again. */
module TailProgress {
  import opened Collections
  import opened Relay
  import opened TailIngest
  import opened TailRuns

  // ---- catching up -------------------------------------------------------------------------

  /** The clock of a waiting hole is never ahead of `clock`. */
  predicate SeenBy(t: Tail, clock: int)
  {
    t.hole.Some? ==> t.hole.value.since <= clock
  }

  ghost predicate Behind(t: Tail, revealed: Log)
  {
    exists id :: id in revealed && id > t.lastId
  }

  /** Skipping an expired hole moves the cursor; with rows held, an unexpired or new hole leaves one waiting. */
  lemma SkipMoves(t: Tail, start: int, first: int, revealed: Log, now: int, grace: int)
    requires InOrder(t, start, revealed) && Sound(t, start, first) && SeenBy(t, now)
    requires t.pending != map[] && t.lastId + 1 !in t.pending
    ensures var (t', over) := SkipExpired(t, now, grace);
      && SeenBy(t', now) && t'.lastId >= t.lastId && (over ==> t'.hole == None)
      && (t'.lastId == t.lastId ==>
            !over && t'.hole.Some? && (t.hole.Some? ==> t'.hole == t.hole && now - t.hole.value.since <= grace))
  {
    if t.hole.Some? && now - t.hole.value.since > grace {
      var upto := t.hole.value.upto;
      SkipToKeepsRest(t, upto);
      assert upto + 1 in t.pending && upto + 1 != t.lastId + 1;
    }
  }

  /** Behind its source, a poll moves the cursor or leaves a hole waiting no longer than the grace. */
  lemma PollMovesOrWaits(t: Tail, start: int, first: int, revealed: Log, source: Log, rows: seq<Scan>, limit: nat,
                         now: int, grace: int)
    requires InOrder(t, start, revealed) && Sound(t, start, first) && SeenBy(t, now)
    requires Supplies(source, t, revealed) && FirstAbove(rows, source, t.lastId, limit) && limit > 0
    requires Behind(t, revealed)
    ensures var t' := Poll(t, rows, now, grace);
      && SeenBy(t', now) && t'.lastId >= t.lastId
      && (t'.lastId == t.lastId ==>
            t'.hole.Some? && (t.hole.Some? ==> t'.hole == t.hole && now - t.hole.value.since <= grace))
  {
    PollStages(t, rows, now, grace);
    LookedKeeps(t, start, first, revealed, source, rows, limit);
    var looked := Looked(t, rows);
    var (skipped, over) := SkipExpired(looked, now, grace);
    SkipToKeepsRest(looked, if looked.hole.Some? then looked.hole.value.upto else 0);
    if over { DrainKeepsSlide(skipped); }
    if looked.lastId == t.lastId {
      LookedHolds(t, start, revealed, source, rows, limit);
      SkipMoves(looked, start, first, revealed, now, grace);
    } else {
      LookedForgets(t, rows);
    }
  }

  lemma LookedForgets(t: Tail, rows: seq<Scan>)
    requires t.slide > 0
    ensures Looked(t, rows).lastId != t.lastId ==> Looked(t, rows).hole == None
  {
    AcceptKeepsRest(t, rows);
    DrainKeepsSlide(Accept(t, rows));
  }

  lemma LookedHolds(t: Tail, start: int, revealed: Log, source: Log, rows: seq<Scan>, limit: nat)
    requires InOrder(t, start, revealed) && Supplies(source, t, revealed) && FirstAbove(rows, source, t.lastId, limit)
    requires limit > 0 && Behind(t, revealed) && Looked(t, rows).lastId == t.lastId
    ensures Looked(t, rows).pending != map[]
  {
    var above :| above in revealed && above > t.lastId;
    AcceptKeepsRest(t, rows);
    AcceptHoldsSome(t, start, revealed, source, rows, limit, above);
    var held := Accept(t, rows);
    DrainPasses(held);
    hide Accept, Drain, InOrder;
    var id := SomeElement(held.pending.Keys);
    assert id in Looked(t, rows).pending;
  }

  /** A caught-up poll leaves the cursor and only clears or keeps the hole. */
  lemma PollKeepsClock(t: Tail, start: int, first: int, revealed: Log, source: Log, rows: seq<Scan>, limit: nat,
                       now: int, grace: int)
    requires InOrder(t, start, revealed) && Sound(t, start, first) && SeenBy(t, now)
    requires Supplies(source, t, revealed) && FirstAbove(rows, source, t.lastId, limit)
    ensures var t' := Poll(t, rows, now, grace); SeenBy(t', now) && t'.lastId >= t.lastId
  {
    PollStages(t, rows, now, grace);
    LookedKeeps(t, start, first, revealed, source, rows, limit);
    LookedForgets(t, rows);
    var looked := Looked(t, rows);
    var (skipped, over) := SkipExpired(looked, now, grace);
    SkipToKeepsRest(looked, if looked.hole.Some? then looked.hole.value.upto else 0);
    if over { DrainKeepsSlide(skipped); }
  }

  /** Each poll is answered from the source, above the cursor it had then. */
  ghost predicate Served(t: Tail, answers: seq<Answer>, source: Log, limit: nat, grace: int)
    requires t.slide > 0
  {
    forall n :: 0 <= n < |answers| ==> FirstAbove(answers[n].rows, source, Polls(t, answers[..n], grace).lastId, limit)
  }

  ghost predicate Timely(answers: seq<Answer>)
  {
    forall i, j :: 0 <= i <= j < |answers| ==> answers[i].now <= answers[j].now
  }

  lemma ServedAt(t: Tail, answers: seq<Answer>, source: Log, limit: nat, grace: int, n: nat)
    requires t.slide > 0 && n < |answers| && Served(t, answers, source, limit, grace)
    ensures FirstAbove(answers[n].rows, source, Polls(t, answers[..n], grace).lastId, limit)
  {
  }

  lemma ServedFront(t: Tail, answers: seq<Answer>, source: Log, limit: nat, grace: int)
    requires t.slide > 0 && |answers| > 0 && Served(t, answers, source, limit, grace)
    ensures Served(t, answers[..|answers| - 1], source, limit, grace)
  {
    hide FirstAbove, Polls;
    var front := answers[..|answers| - 1];
    forall n | 0 <= n < |front| ensures FirstAbove(front[n].rows, source, Polls(t, front[..n], grace).lastId, limit) {
      assert front[..n] == answers[..n];
    }
  }

  /** While the cursor stands still behind its source, the hole seen at the first poll keeps waiting. */
  lemma {:induction false} StandstillWaits(t: Tail, start: int, first: int, revealed: Log, source: Log,
                                           answers: seq<Answer>, limit: nat, grace: int)
    requires InOrder(t, start, revealed) && Sound(t, start, first) && grace >= 0 && limit > 0
    requires Supplies(source, t, revealed) && Served(t, answers, source, limit, grace)
    requires |answers| > 0 && Timely(answers) && SeenBy(t, answers[0].now)
    ensures var t' := Polls(t, answers, grace);
      && InOrder(t', start, revealed) && Sound(t', start, first) && Supplies(source, t', revealed)
      && t'.lastId >= t.lastId && SeenBy(t', answers[|answers| - 1].now)
      && (t'.lastId == t.lastId && Behind(t, revealed) ==>
            && t'.hole.Some? && t'.hole.value.since <= answers[0].now
            && answers[|answers| - 1].now - answers[0].now <= grace)
    decreases |answers|
  {
    assert t.slide > 0;
    hide InOrder, Sound, FirstAbove, Served, Supplies;
    var front, last := answers[..|answers| - 1], answers[|answers| - 1];
    var before := Polls(t, front, grace);
    ServedAt(t, answers, source, limit, grace, |answers| - 1);
    if front != [] {
      ServedFront(t, answers, source, limit, grace);
      StandstillWaits(t, start, first, revealed, source, front, limit, grace);
    }
    assert SeenBy(before, last.now);
    hide Poll;
    PollKeepsSupply(before, revealed, source, last.rows, last.now, grace);
    PollKeepsInOrder(before, start, first, revealed, source, last.rows, limit, last.now, grace);
    PollKeepsClock(before, start, first, revealed, source, last.rows, limit, last.now, grace);
    if before.lastId == t.lastId && Behind(t, revealed) {
      PollMovesOrWaits(before, start, first, revealed, source, last.rows, limit, last.now, grace);
    }
  }

  /** Rounds of polls, each lasting longer than the grace. */
  ghost predicate Rounds(t: Tail, rounds: seq<seq<Answer>>, source: Log, limit: nat, grace: int, clock: int, t': Tail)
    decreases |rounds|
  {
    if rounds == [] then t' == t else
      var round := rounds[0];
      && t.slide > 0 && |round| > 0 && Timely(round)
      && clock <= round[0].now && round[|round| - 1].now - round[0].now > grace
      && Served(t, round, source, limit, grace)
      && Rounds(Polls(t, round, grace), rounds[1..], source, limit, grace, round[|round| - 1].now, t')
  }

  /** Once the source stops growing at `top`, the cursor reaches it: every stretch of polling longer than the grace
      moves the cursor by one at least, so `top - lastId` of them are enough. Then every revealed scan is emitted. */
  lemma {:induction false} CatchUp(t: Tail, start: int, first: int, revealed: Log, source: Log,
                                   rounds: seq<seq<Answer>>, limit: nat, grace: int, clock: int, t': Tail, top: int)
    requires InOrder(t, start, revealed) && Sound(t, start, first) && SeenBy(t, clock) && grace >= 0 && limit > 0
    requires Supplies(source, t, revealed) && top in revealed && forall id :: id in revealed ==> id <= top
    requires Rounds(t, rounds, source, limit, grace, clock, t') && |rounds| >= top - t.lastId
    ensures t'.lastId == top && forall id :: id in revealed ==> Emit(Scan(id, revealed[id])) in t'.out
    ensures InOrder(t', start, revealed) && Sound(t', start, first) && t'.slide == t.slide
    decreases |rounds|
  {
    if rounds == [] {
    } else {
      var round := rounds[0];
      StandstillWaits(t, start, first, revealed, source, round, limit, grace);
      var next := Polls(t, round, grace);
      if t.lastId < top {
        assert Behind(t, revealed);
        assert next.lastId > t.lastId;
      }
      hide Polls, Sound, Served, Supplies;
      CatchUp(next, start, first, revealed, source, rounds[1..], limit, grace, round[|round| - 1].now, t', top);
    }
  }

  // ---- a source out of order ---------------------------------------------------------------

  /** What a poll newly emits is above the cursor it started from, and the cursor never moves back. */
  lemma PollEmitsAbove(t: Tail, rows: seq<Scan>, now: int, grace: int, start: int, first: int)
    requires Sound(t, start, first)
    ensures var t' := Poll(t, rows, now, grace);
      t'.lastId >= t.lastId && forall s :: Emit(s) in t'.out ==> Emit(s) in t.out || s.id > t.lastId
  {
    var held := Accept(t, rows);
    AcceptKeepsRest(t, rows);
    SoundIgnores(t, held, start, first);
    DrainEmits(held, start, first);
    DrainPasses(held);
    var drained := Drain(held);
    var looked := if drained.lastId > held.lastId then drained.(hole := None) else drained;
    SoundIgnores(drained, looked, start, first);
    if looked.hole.Some? { SkipEffect(looked, looked.hole.value.upto, start, first); }
    var (skipped, over) := SkipExpired(looked, now, grace);
    var base := if over then SkipTo(looked, looked.hole.value.upto) else looked;
    SoundIgnores(base, skipped, start, first);
    if over {
      DrainEmits(skipped, start, first);
      DrainPasses(skipped);
    }
  }

  /** Once the cursor has passed an id that was not emitted, no later poll emits it. */
  lemma {:induction false} PassedIsGone(t: Tail, start: int, first: int, answers: seq<Answer>, grace: int, scan: Scan)
    requires Sound(t, start, first) && scan.id <= t.lastId && Emit(scan) !in t.out
    ensures var t' := Polls(t, answers, grace);
      Sound(t', start, first) && t'.lastId >= t.lastId && Emit(scan) !in t'.out
    decreases |answers|
  {
    if answers != [] {
      var front, last := answers[..|answers| - 1], answers[|answers| - 1];
      PassedIsGone(t, start, first, front, grace, scan);
      var before := Polls(t, front, grace);
      PollKeepsSound(before, last.rows, last.now, grace, start, first);
      PollEmitsAbove(before, last.rows, last.now, grace, start, first);
    }
  }

  /** A skip leaves behind exactly the pending rows inside the hole as it was first seen: they stay pending under
      the cursor, never emitted. Rows above it are emitted by the drain or still ahead of the cursor. */
  lemma SkipLosesExactlyTheHole(t: Tail, start: int, first: int, now: int, grace: int, id: int)
    requires Sound(t, start, first) && id in t.pending && id > t.lastId && Emit(Scan(id, t.pending[id])) !in t.out
    requires t.hole.Some? && now - t.hole.value.since > grace
    ensures var t' := Drain(SkipExpired(t, now, grace).0);
      && (id <= t.hole.value.upto <==> id <= t'.lastId && Emit(Scan(id, t.pending[id])) !in t'.out)
      && (id <= t.hole.value.upto ==> id in t'.pending)
  {
    var upto := t.hole.value.upto;
    SkipEffect(t, upto, start, first);
    var skipped := SkipTo(t, upto).(hole := None);
    SoundIgnores(SkipTo(t, upto), skipped, start, first);
    DrainEmits(skipped, start, first);
    DrainPasses(skipped);
  }

  /** A row is pending at or below the cursor, and any hole watched ends below it too. */
  ghost predicate LeftBehind(t: Tail, behind: int)
  {
    && t.slide > 0 && behind in t.pending && behind <= t.lastId
    && (t.hole.Some? ==> t.hole.value.upto < t.lastId)
  }

  lemma DrainKeepsLeftBehind(t: Tail, behind: int)
    requires LeftBehind(t, behind)
    ensures LeftBehind(Drain(t), behind) && Drain(t).lastId + 1 !in Drain(t).pending
  {
    DrainPasses(t);
    hide Drain;
  }

  /** With a row left behind a poll only drains, whatever it is answered: no hole is ever skipped again, since the
      hole noted always ends below the row left behind. */
  lemma PollOnlyDrains(t: Tail, rows: seq<Scan>, now: int, grace: int, behind: int)
    requires LeftBehind(t, behind)
    ensures var t' := Poll(t, rows, now, grace);
      LeftBehind(t', behind) && t' == Drain(Accept(t, rows)).(hole := t'.hole)
  {
    var held := Accept(t, rows);
    AcceptKeepsRest(t, rows);
    AcceptHolds(t, rows, behind);
    hide Accept;
    DrainKeepsLeftBehind(held, behind);
    var drained := Drain(held);
    hide Drain;
    var looked := if drained.lastId > held.lastId then drained.(hole := None) else drained;
    if looked.hole.None? {
      assert IsLeast(looked.pending, Least(looked.pending));
    } else {
      assert SkipTo(looked, looked.hole.value.upto) == looked;
      DrainDone(drained.(hole := None));
    }
  }

  ghost predicate Shown(answers: seq<Answer>, id: int)
  {
    exists n :: 0 <= n < |answers| && HasId(answers[n].rows, id)
  }

  lemma ShownBy(answers: seq<Answer>, last: Answer, id: int)
    ensures Shown(answers, id) || HasId(last.rows, id) ==> Shown(answers + [last], id)
  {
    if n :| 0 <= n < |answers| && HasId(answers[n].rows, id) {
      assert (answers + [last])[n] == answers[n];
    } else if HasId(last.rows, id) {
      assert (answers + [last])[|answers|] == last;
    }
  }

  /** Held or emitted, an id has been shown to the tail. */
  ghost predicate OnlyShown(t: Tail, answers: seq<Answer>, t': Tail)
  {
    && (forall id :: t.lastId < id <= t'.lastId ==> id in t.pending || Shown(answers, id))
    && (forall id :: id in t'.pending ==> id in t.pending || Shown(answers, id))
  }

  /** Once a row is left behind the tail never skips again, over any polls of any source: the row stays, and every id
      the cursor ever passes is one it was shown. Any id that never commits stops it for good. */
  lemma {:induction false} LeftBehindNeverSkips(t: Tail, answers: seq<Answer>, grace: int, behind: int)
    requires LeftBehind(t, behind)
    ensures var t' := Polls(t, answers, grace);
      LeftBehind(t', behind) && t'.lastId >= t.lastId && OnlyShown(t, answers, t')
    decreases |answers|
  {
    if answers != [] {
      var front, last := answers[..|answers| - 1], answers[|answers| - 1];
      LeftBehindNeverSkips(t, front, grace, behind);
      var before := Polls(t, front, grace);
      PollOnlyDrains(before, last.rows, last.now, grace, behind);
      var held, t' := Accept(before, last.rows), Polls(t, answers, grace);
      AcceptKeepsRest(before, last.rows);
      forall id ensures id in held.pending <==> id in before.pending || (id > before.lastId && HasId(last.rows, id)) {
        AcceptHolds(before, last.rows, id);
      }
      DrainPasses(held);
      assert answers == front + [last];
      hide Poll, Accept, Drain, HasId, LeftBehind;
      forall id ensures Shown(front, id) || HasId(last.rows, id) ==> Shown(answers, id) { ShownBy(front, last, id); }
      hide Shown;
    }
  }

  /** So as long as the next id is not shown, the cursor stands and nothing is emitted. */
  lemma {:induction false} LeftBehindStalls(t: Tail, answers: seq<Answer>, grace: int, behind: int)
    requires LeftBehind(t, behind) && t.lastId + 1 !in t.pending && !Shown(answers, t.lastId + 1)
    ensures var t' := Polls(t, answers, grace);
      LeftBehind(t', behind) && t'.lastId == t.lastId && t'.out == t.out
    decreases |answers|
  {
    LeftBehindNeverSkips(t, answers, grace, behind);
    if answers != [] {
      var front, last := answers[..|answers| - 1], answers[|answers| - 1];
      assert answers == front + [last];
      ShownBy(front, last, t.lastId + 1);
      LeftBehindStalls(t, front, grace, behind);
      var before := Polls(t, front, grace);
      PollOnlyDrains(before, last.rows, last.now, grace, behind);
      AcceptKeepsRest(before, last.rows);
      DrainStill(Accept(before, last.rows));
    }
  }

  lemma DrainStill(t: Tail)
    requires t.slide > 0 && Drain(t).lastId == t.lastId
    ensures Drain(t) == t
  {
    assert t.lastId + 1 !in t.pending by {
      DrainPasses(t);
      hide Drain;
    }
    DrainDone(t);
  }

  /** The two polls that do it, with a slide of 10 and a grace of 1: row 4 opens the hole 1..3, row 2 arrives
      after it was seen, the grace passes. */
  function LateRow(): seq<Answer>
  {
    [Answer([Scan(4, "a")], 0), Answer([Scan(2, "b"), Scan(4, "a")], 2)]
  }

  /** The cursor at 0 and a hole 1..3 first seen at time 0, behind row 4. */
  function WideHole(): Tail
  {
    Tail(0, 10, 10, map[4 := "a"], Some(Hole(0, 3)), [])
  }

  /** The hole skipped: 4 emitted, and 2 left behind. */
  function Skipped(): Tail
  {
    Tail(4, 10, 10, map[2 := "b"], None, [Emit(Scan(4, "a"))])
  }

  lemma {:induction false} FirstLook()
    ensures Poll(Start(0, 10, 10), [Scan(4, "a")], 0, 1) == WideHole()
  {
    var t := Start(0, 10, 10);
    assert [Scan(4, "a")][..0] == [];
    var held := t.(pending := map[4 := "a"]);
    assert Accept(t, [Scan(4, "a")]) == held;
    assert 4 in held.pending;
    assert IsLeast(held.pending, Least(held.pending));
  }

  lemma {:induction false} SecondLook()
    ensures Poll(WideHole(), [Scan(2, "b"), Scan(4, "a")], 2, 1) == Skipped()
  {
    var t := WideHole();
    AcceptTwo(t, [Scan(2, "b"), Scan(4, "a")]);
    var held := t.(pending := t.pending[2 := "b"][4 := "a"]);
    assert Drain(held) == held;
    SkipQuietly(held, 3);
    var skipped := held.(lastId := 3, hole := None);
    assert skipped.pending - {4} == map[2 := "b"];
    AdvanceByOne(skipped.(pending := map[2 := "b"], out := [Emit(Scan(4, "a"))]), 4);
    assert EmitNext(skipped) == Skipped();
    assert Drain(Skipped()) == Skipped();
  }

  /** Out-of-order reveals are not survivable: row 2 is revealed above the start and never emitted, and from then on
      the tail skips nothing. It stops at 4 for as long as 5 does not appear, however often it polls. */
  lemma {:induction false} LateRowIsLostForGood(answers: seq<Answer>)
    ensures var t := Polls(Start(0, 10, 10), LateRow(), 1);
      var t' := Polls(t, answers, 1);
      && t.out == [Emit(Scan(4, "a"))] && OnlyShown(t, answers, t')
      && (!Shown(answers, 5) ==> t'.out == t.out && t'.lastId == 4)
  {
    FirstLook();
    SecondLook();
    var t, late := Start(0, 10, 10), LateRow();
    assert Polls(t, late, 1) == Skipped() by {
      assert late[..1] == [late[0]] && late[..1][..0] == [];
      assert Polls(t, late[..1], 1) == WideHole();
    }
    hide Poll;
    LeftBehindNeverSkips(Skipped(), answers, 1, 2);
    if !Shown(answers, 5) { LeftBehindStalls(Skipped(), answers, 1, 2); }
  }

  lemma AcceptTwo(t: Tail, rows: seq<Scan>)
    requires |rows| == 2 && rows[0].id > t.lastId && rows[1].id > t.lastId
    ensures Accept(t, rows) == t.(pending := t.pending[rows[0].id := rows[0].sku][rows[1].id := rows[1].sku])
  {
    assert rows[..1] == [rows[0]] && rows[..1][..0] == [];
    assert Accept(t, rows[..1]) == t.(pending := t.pending[rows[0].id := rows[0].sku]);
  }

  /** Below the next boundary a skip only moves the cursor. */
  lemma {:induction false} SkipQuietly(t: Tail, upto: int)
    requires t.slide > 0 && upto < t.nextBoundary
    ensures SkipTo(t, upto) == t.(lastId := Max(t.lastId, upto))
    decreases upto - t.lastId
  {
    if t.lastId < upto {
      AdvanceByOne(t, t.lastId + 1);
      SkipQuietly(t.(lastId := t.lastId + 1), upto);
    }
  }
}
