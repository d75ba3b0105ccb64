/** The relay never stalls: once commits stop, passes bring the position to the end of the log. */
module RelayProgress {
  import opened Collections
  import opened Relay

  /** A pass that the broker takes in full and whose save succeeds: when it starts, and what it reads. */
  datatype Beat = Beat(now: int, rows: seq<Scan>, times: seq<int>)

  function Pass(b: Beat): Step
  {
    Step.Pass(b.rows, b.times, |b.rows|, true)
  }

  /** The last clock reading of a pass. */
  function EndOf(b: Beat): int
  {
    if b.times == [] then b.now else b.times[|b.times| - 1]
  }

  /** The clock does not run back within a pass. */
  ghost predicate Steady(b: Beat)
  {
    && |b.times| == |b.rows|
    && (forall i :: 0 <= i < |b.times| ==> b.now <= b.times[i])
    && (forall i, j :: 0 <= i <= j < |b.times| ==> b.times[i] <= b.times[j])
  }

  /** No gap was first seen in the future. */
  predicate SeenBy(gap: Gap, clock: int)
  {
    gap.Some? ==> gap.value.1 <= clock
  }

  ghost predicate RowsAbove(s: State)
  {
    exists id :: id in s.log && id > s.pos
  }

  lemma {:induction false} ReadySeen(rows: seq<Scan>, times: seq<int>, i: nat, expected: int, gap: Gap, grace: int,
                                     clock: int)
    requires i <= |rows| == |times| && SeenBy(gap, clock) && forall k :: 0 <= k < |times| ==> times[k] <= clock
    ensures SeenBy(Ready(rows, times, i, expected, gap, grace).1, clock)
    decreases |rows| - i
  {
    if i < |rows| { ReadySeen(rows, times, i + 1, rows[i].id + 1, None, grace, clock); }
  }

  /** With rows above the position, a pass moves it or leaves a sighting of the very id it waits for. */
  lemma PassMovesOrWaits(s: State, b: Beat, limit: nat, grace: int)
    requires Steady(b) && FirstAbove(b.rows, s.log, s.pos, limit) && limit > 0 && SeenBy(s.gap, b.now) && RowsAbove(s)
    ensures var s' := Do(s, Pass(b), grace);
      && s'.pos >= s.pos
      && (s'.pos == s.pos ==>
            && s'.gap.Some? && s'.gap.value.0 == s.pos + 1 && b.now - s'.gap.value.1 < grace
            && (s.gap.Some? && s.gap.value.0 == s.pos + 1 ==> s'.gap == s.gap))
  {
    var id :| id in s.log && id > s.pos;
    assert HasId(b.rows, id) || |b.rows| == limit;
    assert |b.rows| > 0;
    var (n, g) := Ready(b.rows, b.times, 0, s.pos + 1, s.gap, grace);
    if n > 0 { assert b.rows[n - 1].id > s.pos; }
  }

  /** Any pass keeps the clock of its gap sane and never moves the position back, nor beyond the log. */
  lemma PassKeepsClock(s: State, b: Beat, limit: nat, grace: int)
    requires Steady(b) && FirstAbove(b.rows, s.log, s.pos, limit) && SeenBy(s.gap, b.now)
    ensures var s' := Do(s, Pass(b), grace);
      && s'.log == s.log && SeenBy(s'.gap, EndOf(b)) && s'.pos >= s.pos && (s'.pos != s.pos ==> s'.pos in s.log)
  {
    ReadySeen(b.rows, b.times, 0, s.pos + 1, s.gap, grace, EndOf(b));
    var n := Ready(b.rows, b.times, 0, s.pos + 1, s.gap, grace).0;
    hide Ready;
    if n > 0 { assert b.rows[n - 1].id > s.pos; }
  }

  /** Passes one after another. */
  ghost function Played(s: State, beats: seq<Beat>, grace: int): State
  {
    if beats == [] then s else
      var before, b := Played(s, beats[..|beats| - 1], grace), beats[|beats| - 1];
      if Steady(b) then Do(before, Pass(b), grace) else before
  }

  /** A pass reads what the statement returns, and starts after the one before ended. */
  ghost predicate Due(s: State, b: Beat, limit: nat, clock: int)
  {
    Steady(b) && FirstAbove(b.rows, s.log, s.pos, limit) && b.now >= clock
  }

  ghost predicate AllDue(s: State, beats: seq<Beat>, limit: nat, grace: int, clock: int)
  {
    beats == [] ||
      (var front := beats[..|beats| - 1];
       AllDue(s, front, limit, grace, clock)
       && Due(Played(s, front, grace), beats[|beats| - 1], limit,
              if front == [] then clock else EndOf(front[|front| - 1])))
  }

  /** While the position stands still below the end of the log, the sighting made by the first pass keeps waiting,
      and cannot have waited for the grace. */
  lemma {:induction false} StandstillWaits(s: State, beats: seq<Beat>, limit: nat, grace: int, clock: int)
    requires AllDue(s, beats, limit, grace, clock) && SeenBy(s.gap, clock) && limit > 0 && beats != []
    ensures var s' := Played(s, beats, grace);
      && s'.log == s.log && s'.pos >= s.pos && (s'.pos != s.pos ==> s'.pos in s.log)
      && SeenBy(s'.gap, EndOf(beats[|beats| - 1]))
      && (s'.pos == s.pos && RowsAbove(s) ==>
            && s'.gap.Some? && s'.gap.value.0 == s.pos + 1 && s'.gap.value.1 <= EndOf(beats[0])
            && beats[|beats| - 1].now - s'.gap.value.1 < grace)
    decreases |beats|
  {
    var b, front := beats[|beats| - 1], beats[..|beats| - 1];
    var mid := Played(s, front, grace);
    if front != [] { StandstillWaits(s, front, limit, grace, clock); }
    hide FirstAbove, AllDue, Do;
    PassKeepsClock(mid, b, limit, grace);
    if mid.pos == s.pos && RowsAbove(s) { PassMovesOrWaits(mid, b, limit, grace); }
  }

  /** Rounds of passes, each lasting the grace from the end of its first to the start of its last. */
  ghost predicate Rounds(s: State, rounds: seq<seq<Beat>>, limit: nat, grace: int, clock: int, s': State)
    decreases |rounds|
  {
    if rounds == [] then s' == s else
      var round := rounds[0];
      && round != [] && AllDue(s, round, limit, grace, clock) && round[|round| - 1].now - EndOf(round[0]) >= grace
      && Rounds(Played(s, round, grace), rounds[1..], limit, grace, EndOf(round[|round| - 1]), s')
  }

  ghost function Above(s: State): set<int>
  {
    set id | id in s.log && id > s.pos
  }

  /** The relay reaches the end of the log: once commits stop, with the broker and the database up, as many rounds of
      passes as there are rows above the position bring it to the highest id. */
  lemma {:induction false} RelayCatchesUp(s: State, rounds: seq<seq<Beat>>, limit: nat, grace: int, clock: int,
                                          s': State)
    requires Rounds(s, rounds, limit, grace, clock, s') && SeenBy(s.gap, clock) && limit > 0 && |rounds| >= |Above(s)|
    ensures s'.log == s.log && !RowsAbove(s') && s'.pos >= s.pos && (s'.pos != s.pos ==> s'.pos in s.log)
    decreases |rounds|
  {
    if rounds == [] {
      assert forall id :: id in s.log && id > s.pos ==> id in Above(s);
    } else {
      var round := rounds[0];
      var mid := Played(s, round, grace);
      StandstillWaits(s, round, limit, grace, clock);
      hide AllDue, Played;
      AboveShrinks(s, mid);
      RelayCatchesUp(mid, rounds[1..], limit, grace, EndOf(round[|round| - 1]), s');
    }
  }

  lemma AboveShrinks(s: State, mid: State)
    requires mid.log == s.log && mid.pos >= s.pos && (mid.pos != s.pos ==> mid.pos in s.log)
    requires RowsAbove(s) ==> mid.pos > s.pos
    ensures |Above(mid)| <= Max(0, |Above(s)| - 1)
  {
    if mid.pos > s.pos {
      assert Above(mid) <= Above(s) - {mid.pos};
      SubsetSize(Above(mid), Above(s) - {mid.pos});
    } else {
      assert Above(s) == {} && Above(mid) == {};
    }
  }
}
