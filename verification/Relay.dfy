/** The scan relay: committed rows of the scan log become records of a topic, in id order, at least once. */
module Relay {
  import opened Collections
  import opened Skus

  /** One committed scan; the id is the global scan sequence. */
  datatype Scan = Scan(id: int, sku: Sku)

  type Log = map<int, Sku>

  ghost predicate IdsAscend(rows: seq<Scan>)
  {
    forall i, j :: 0 <= i < j < |rows| ==> rows[i].id < rows[j].id
  }

  ghost predicate HasId(rows: seq<Scan>, id: int)
  {
    exists i :: 0 <= i < |rows| && rows[i].id == id
  }

  ghost predicate AllFrom(rows: seq<Scan>, log: Log)
  {
    forall i :: 0 <= i < |rows| ==> rows[i].id in log && log[rows[i].id] == rows[i].sku
  }

  /** `WHERE id > after ORDER BY id LIMIT limit`. */
  ghost predicate FirstAbove(rows: seq<Scan>, log: Log, after: int, limit: nat)
  {
    && IdsAscend(rows) && AllFrom(rows, log) && |rows| <= limit
    && (forall i :: 0 <= i < |rows| ==> rows[i].id > after)
    && (forall id :: id in log && id > after ==>
          HasId(rows, id) || (|rows| == limit && forall i :: 0 <= i < |rows| ==> rows[i].id < id))
  }

  // ---- one pass ----------------------------------------------------------------------------

  /** The id a relay waits for, and when it first saw it missing. */
  type Gap = Option<(int, int)>

  /** How many of the rows from `i` on are ready, and the gap left waiting: a missing id holds everything after
      it back until it has been missing for the grace. */
  function Ready(rows: seq<Scan>, times: seq<int>, i: nat, expected: int, gap: Gap, grace: int): (r: (nat, Gap))
    requires i <= |rows| == |times|
    ensures i <= r.0 <= |rows|
    decreases |rows| - i
  {
    if i == |rows| then (i, gap)
    else if rows[i].id != expected then
      var g := if gap.None? || gap.value.0 != expected then (expected, times[i]) else gap.value;
      if times[i] - g.1 < grace then (i, Some(g)) else Ready(rows, times, i + 1, rows[i].id + 1, None, grace)
    else Ready(rows, times, i + 1, rows[i].id + 1, None, grace)
  }

  class ScanRelay {
    const grace: int
    var gap: Gap

    constructor (grace: int)
      ensures this.grace == grace && gap == None
    {
      this.grace, gap := grace, None;
    }

    /** One pass, `saved` being the log token saved with the position and `token` the log's own. A fresh database only
        records the token. A replaced log is announced and read from the start. Otherwise the ready rows of the batch
        read at `pos` are published. The broker accepts `accepted` records before it fails; the position is saved only
        after all that was to be published, and only if the save succeeds. */
    method RunPass(saved: string, token: string, pos: int, rows: seq<Scan>, times: seq<int>, accepted: nat, saves: bool)
      returns (published: seq<Scan>, reset: bool, pos': int, saved': string)
      requires |times| == |rows|
      modifies this`gap
      ensures saved == "" ==>
        && published == [] && !reset && gap == old(gap)
        && (pos', saved') == if saves then (0, token) else (pos, saved)
      ensures saved != "" && token != saved ==>
        && published == [] && reset == (accepted > 0)
        && (gap, pos', saved') == if accepted > 0 && saves then (None, 0, token) else (old(gap), pos, saved)
      ensures saved != "" && token == saved ==>
        var (n, g) := Ready(rows, times, 0, pos + 1, old(gap), grace);
        && gap == g && !reset && saved' == saved
        && published == rows[..Min(n, accepted)]
        && pos' == if n > 0 && n <= accepted && saves then rows[n - 1].id else pos
    {
      published, reset, pos', saved' := [], false, pos, saved;
      if saved == "" {
        if saves { pos', saved' := 0, token; }
        return;
      }
      if token != saved {
        reset := accepted > 0;
        if reset && saves { pos', saved', gap := 0, token, None; }
        return;
      }
      var ready: seq<Scan> := [];
      var expected := pos + 1;
      var n := 0;
      while n < |rows|
        invariant 0 <= n <= |rows| && ready == rows[..n]
        invariant Ready(rows, times, 0, pos + 1, old(gap), grace) == Ready(rows, times, n, expected, gap, grace)
        invariant n > 0 ==> expected == rows[n - 1].id + 1
      {
        var row := rows[n];
        if row.id != expected {
          var now := times[n];
          if gap.None? || gap.value.0 != expected {
            gap := Some((expected, now));
          }
          if now - gap.value.1 < grace {
            break;
          }
        }
        ready := ready + [row];
        expected := row.id + 1;
        gap := None;
        n := n + 1;
      }
      published := if accepted < |ready| then ready[..accepted] else ready;
      if |ready| > 0 && |ready| <= accepted && saves {
        pos' := ready[|ready| - 1].id;
      }
    }
  }

  /** A gap is never skipped before its grace: to get past the first row behind a missing id, the pass must have
      carried in a sighting of exactly that id, at least `grace` old. */
  lemma {:induction false} GapWaitsOutGrace(rows: seq<Scan>, times: seq<int>, i: nat, expected: int, gap: Gap,
                                            grace: int, j: nat)
    requires i <= j < |rows| == |times| && grace > 0
    requires rows[j].id != expected + (j - i) && forall k :: i <= k < j ==> rows[k].id == expected + (k - i)
    requires Ready(rows, times, i, expected, gap, grace).0 > j
    ensures i == j && gap.Some? && gap.value.0 == expected && times[j] - gap.value.1 >= grace
    decreases j - i
  {
    if i < j {
      GapWaitsOutGrace(rows, times, i + 1, rows[i].id + 1, None, grace, j);
    }
  }

  /** The id the pass looks for when it comes to row `k`. */
  function ExpectedAt(rows: seq<Scan>, pos: int, k: nat): int
    requires k < |rows|
  {
    if k == 0 then pos + 1 else rows[k - 1].id + 1
  }

  /** Since when that id has been missing, as far as the relay knows. */
  function MissingSince(times: seq<int>, pos: int, gap: Gap, k: nat): int
    requires k < |times|
  {
    if k == 0 && gap.Some? && gap.value.0 == pos + 1 then gap.value.1 else times[k]
  }

  /** A pass publishes as far as it may and no further: each ready row follows its predecessor or a gap whose grace is
      over; the first row left behind follows a gap whose grace is not, remembered with its first sighting. */
  lemma {:induction false} ReadyExactly(rows: seq<Scan>, times: seq<int>, pos: int, gap: Gap, grace: int)
    requires |times| == |rows|
    ensures var (n, left) := Ready(rows, times, 0, pos + 1, gap, grace);
      && (forall k :: 0 <= k < n ==>
            rows[k].id == ExpectedAt(rows, pos, k) || times[k] - MissingSince(times, pos, gap, k) >= grace)
      && (n < |rows| ==>
            && rows[n].id != ExpectedAt(rows, pos, n) && times[n] - MissingSince(times, pos, gap, n) < grace
            && left == Some((ExpectedAt(rows, pos, n), MissingSince(times, pos, gap, n))))
      && (n == |rows| ==> left == if n == 0 then gap else None)
  {
    if rows != [] { ReadyOnward(rows, times, 0, pos, gap, grace); }
  }

  lemma {:induction false} ReadyOnward(rows: seq<Scan>, times: seq<int>, i: nat, pos: int, gap: Gap, grace: int)
    requires i < |rows| == |times|
    ensures var (n, left) := Ready(rows, times, i, ExpectedAt(rows, pos, i), if i == 0 then gap else None, grace);
      && (forall k :: i <= k < n ==>
            rows[k].id == ExpectedAt(rows, pos, k) || times[k] - MissingSince(times, pos, gap, k) >= grace)
      && (n < |rows| ==>
            && rows[n].id != ExpectedAt(rows, pos, n) && times[n] - MissingSince(times, pos, gap, n) < grace
            && left == Some((ExpectedAt(rows, pos, n), MissingSince(times, pos, gap, n))))
      && (n == |rows| ==> left == None)
    decreases |rows| - i
  {
    if i + 1 < |rows| { ReadyOnward(rows, times, i + 1, pos, gap, grace); }
  }

  // ---- any number of passes ----------------------------------------------------------------

  datatype State = State(log: Log, topic: seq<Scan>, pos: int, gap: Gap)

  datatype Step =
    | Commit(id: int, sku: Sku)
    | Pass(rows: seq<Scan>, times: seq<int>, accepted: nat, saves: bool)
    | Restart

  /** Gap finality: ids in front of a published one are settled, so a row that commits later is above them all. */
  ghost predicate CommitsAhead(s: State, id: int)
  {
    id >= 1 && id !in s.log && forall i :: 0 <= i < |s.topic| ==> s.topic[i].id < id
  }

  ghost predicate CanStep(s: State, step: Step, limit: nat)
  {
    match step
    case Commit(id, _) => CommitsAhead(s, id)
    case Pass(rows, times, _, _) => |times| == |rows| && FirstAbove(rows, s.log, s.pos, limit)
    case Restart => true
  }

  ghost function Do(s: State, step: Step, grace: int): State
    requires step.Pass? ==> |step.times| == |step.rows|
  {
    match step
    case Commit(id, sku) => s.(log := s.log[id := sku])
    case Pass(rows, times, accepted, saves) =>
      var (n, g) := Ready(rows, times, 0, s.pos + 1, s.gap, grace);
      s.(topic := s.topic + rows[..Min(n, accepted)], gap := g,
         pos := if n > 0 && n <= accepted && saves then rows[n - 1].id else s.pos)
    case Restart => s.(gap := None)
  }

  ghost predicate RelayRun(s: State, steps: seq<Step>, s': State, limit: nat, grace: int)
    decreases |steps|
  {
    if steps == [] then s' == s else
      CanStep(s, steps[0], limit) && RelayRun(Do(s, steps[0], grace), steps[1..], s', limit, grace)
  }

  /** Leaving repeats out, the topic's ids only rise. */
  ghost predicate FirstsAscend(topic: seq<Scan>)
  {
    forall i, j :: 0 <= j < i < |topic| && !HasId(topic[..i], topic[i].id) ==> topic[j].id < topic[i].id
  }

  ghost predicate Covers(s: State, upto: int)
  {
    forall id :: id in s.log && id <= upto ==> HasId(s.topic, id)
  }

  ghost predicate RelayOk(s: State)
  {
    && (forall id :: id in s.log ==> id >= 1)
    && AllFrom(s.topic, s.log)
    && FirstsAscend(s.topic)
    && Covers(s, s.pos)
    && (forall i :: 0 <= i < |s.topic| ==> Covers(s, s.topic[i].id))
    && (s.pos == 0 || HasId(s.topic, s.pos))
  }

  lemma CommitKeeps(s: State, id: int, sku: Sku)
    requires RelayOk(s) && CommitsAhead(s, id)
    ensures RelayOk(s.(log := s.log[id := sku]))
  {
    var s' := s.(log := s.log[id := sku]);
    assert s.pos < id by {
      if s.pos != 0 { assert HasId(s.topic, s.pos); }
    }
    forall i | 0 <= i < |s'.topic| ensures Covers(s', s'.topic[i].id) {
      assert Covers(s, s.topic[i].id);
    }
  }

  lemma HasIdAppend(t: seq<Scan>, u: seq<Scan>, id: int)
    ensures HasId(t + u, id) <==> HasId(t, id) || HasId(u, id)
  {
    if HasId(t, id) {
      var i :| 0 <= i < |t| && t[i].id == id;
      assert (t + u)[i].id == id;
    }
    if HasId(u, id) {
      var i :| 0 <= i < |u| && u[i].id == id;
      assert (t + u)[|t| + i].id == id;
    }
  }

  /** Publishing a row all of whose predecessors are on the topic: either it is there too, or it is above them all. */
  lemma PublishOneKeeps(s: State, row: Scan)
    requires RelayOk(s) && row.id in s.log && s.log[row.id] == row.sku
    requires forall id :: id in s.log && id < row.id ==> HasId(s.topic, id)
    ensures RelayOk(s.(topic := s.topic + [row])) && Covers(s.(topic := s.topic + [row]), row.id)
  {
    var t, s' := s.topic, s.(topic := s.topic + [row]);
    var t' := s'.topic;
    assert t'[|t|] == row;
    assert forall id :: HasId(t', id) <==> HasId(t, id) || id == row.id by {
      forall id ensures HasId(t', id) <==> HasId(t, id) || id == row.id { HasIdAppend(t, [row], id); }
    }
    forall i | 0 <= i < |t'| ensures Covers(s', t'[i].id) {
      if i < |t| { assert Covers(s, t[i].id); }
    }
    forall i, j | 0 <= j < i < |t'| && !HasId(t'[..i], t'[i].id) ensures t'[j].id < t'[i].id {
      assert t'[..i] == t[..i];
      if i == |t| {
        assert t[..i] == t;
        assert Covers(s, t[j].id);
      }
    }
  }

  lemma BelowIsBefore(rows: seq<Scan>, n: nat, id: int)
    requires IdsAscend(rows) && n < |rows| && HasId(rows, id) && id < rows[n].id
    ensures HasId(rows[..n], id)
  {
    var i :| 0 <= i < |rows| && rows[i].id == id;
    assert rows[..n][i].id == id;
  }

  /** Everything below a row of the batch is on the topic once the rows before it are. */
  lemma PredecessorsOut(s: State, rows: seq<Scan>, limit: nat, n: nat)
    requires RelayOk(s) && FirstAbove(rows, s.log, s.pos, limit) && n < |rows|
    ensures rows[n].id in s.log && s.log[rows[n].id] == rows[n].sku
    ensures forall id :: id in s.log && id < rows[n].id ==> HasId(s.topic + rows[..n], id)
  {
    assert Covers(s, s.pos);
    hide RelayOk, HasId;
    forall id | id in s.log && id < rows[n].id ensures HasId(s.topic + rows[..n], id) {
      HasIdAppend(s.topic, rows[..n], id);
      if id > s.pos {
        assert HasId(rows, id);
        BelowIsBefore(rows, n, id);
      }
    }
  }

  lemma {:induction false} PublishKeeps(s: State, rows: seq<Scan>, limit: nat, n: nat)
    requires RelayOk(s) && n <= |rows| && FirstAbove(rows, s.log, s.pos, limit)
    ensures var s' := s.(topic := s.topic + rows[..n]);
      RelayOk(s') && (n > 0 ==> Covers(s', rows[n - 1].id))
  {
    hide RelayOk, FirstAbove, Covers, HasId;
    if n == 0 {
      assert s.topic + rows[..0] == s.topic;
    } else {
      PublishKeeps(s, rows, limit, n - 1);
      PredecessorsOut(s, rows, limit, n - 1);
      var before, row := s.(topic := s.topic + rows[..n - 1]), rows[n - 1];
      PublishOneKeeps(before, row);
      assert before.topic + [row] == s.topic + rows[..n];
    }
  }

  lemma LastHasId(rows: seq<Scan>)
    ensures rows != [] ==> HasId(rows, rows[|rows| - 1].id)
  {
  }

  lemma PassKeeps(s: State, step: Step, limit: nat, grace: int)
    requires RelayOk(s) && step.Pass? && CanStep(s, step, limit)
    ensures RelayOk(Do(s, step, grace))
  {
    var rows := step.rows;
    var n := Ready(rows, step.times, 0, s.pos + 1, s.gap, grace).0;
    var k := Min(n, step.accepted);
    PublishKeeps(s, rows, limit, k);
    hide FirstsAscend, FirstAbove, Covers, Ready, HasId, AllFrom;
    if n > 0 && n <= step.accepted && step.saves {
      HasIdAppend(s.topic, rows[..k], rows[n - 1].id);
      LastHasId(rows[..k]);
    }
    HasIdAppend(s.topic, rows[..k], s.pos);
    var mid, s' := s.(topic := s.topic + rows[..k]), Do(s, step, grace);
    assert s' == mid.(gap := s'.gap, pos := s'.pos);
    SameCover(mid, s');
  }

  lemma SameCover(s: State, s': State)
    requires s'.topic == s.topic && s'.log == s.log
    ensures forall id :: Covers(s', id) == Covers(s, id)
  {
  }

  lemma StepKeeps(s: State, step: Step, limit: nat, grace: int)
    requires RelayOk(s) && CanStep(s, step, limit)
    ensures RelayOk(Do(s, step, grace))
  {
    match step
    case Commit(id, sku) => CommitKeeps(s, id, sku);
    case Restart => SameCover(s, Do(s, step, grace));
    case Pass(rows, times, accepted, saves) => PassKeeps(s, step, limit, grace);
  }

  ghost predicate Untouched(s: State)
  {
    s.log == map[] && s.topic == [] && s.pos == 0
  }

  /** Under gap finality, after any passes, crashes, failed saves and restarts: leaving repeats out the topic's ids only
      rise, and every committed row up to the saved position, or below a published one, is on the topic. */
  lemma {:induction false} TopicCoversLog(s: State, steps: seq<Step>, s': State, limit: nat, grace: int)
    requires RelayOk(s) && RelayRun(s, steps, s', limit, grace)
    ensures RelayOk(s')
    decreases |steps|
  {
    if steps != [] {
      StepKeeps(s, steps[0], limit, grace);
      TopicCoversLog(Do(s, steps[0], grace), steps[1..], s', limit, grace);
    }
  }

  // ---- coverage, whenever rows commit ------------------------------------------------------

  /** As `CanStep`, but a row may commit under any id not yet taken. */
  ghost predicate CanStepFreely(s: State, step: Step, limit: nat)
  {
    if step.Commit? then step.id !in s.log else CanStep(s, step, limit)
  }

  ghost predicate FreeRun(s: State, steps: seq<Step>, s': State, limit: nat, grace: int)
    decreases |steps|
  {
    if steps == [] then s' == s else
      CanStepFreely(s, steps[0], limit) && FreeRun(Do(s, steps[0], grace), steps[1..], s', limit, grace)
  }

  function LateNow(s: State, step: Step): set<int>
  {
    if step.Commit? && step.id <= s.pos then {step.id} else {}
  }

  /** The ids that commit at or below the position saved by then. */
  ghost function Late(s: State, steps: seq<Step>, limit: nat, grace: int): set<int>
    decreases |steps|
  {
    if steps == [] || !CanStepFreely(s, steps[0], limit) then {} else
      LateNow(s, steps[0]) + Late(Do(s, steps[0], grace), steps[1..], limit, grace)
  }

  /** Up to the position, exactly the rows that were not late are on the topic. */
  ghost predicate CoversAllBut(s: State, late: set<int>)
  {
    && AllFrom(s.topic, s.log)
    && (forall id :: id in s.log && id <= s.pos ==> (HasId(s.topic, id) <==> id !in late))
    && (forall id :: id in late ==> id in s.log && id <= s.pos)
  }

  lemma AllFromGrows(topic: seq<Scan>, log: Log, id: int, sku: Sku)
    requires AllFrom(topic, log) && id !in log
    ensures AllFrom(topic, log[id := sku]) && !HasId(topic, id)
  {
  }

  /** A pass publishes rows above the position only, and moves it over rows it has published only. */
  lemma FreePassKeeps(s: State, step: Step, limit: nat, grace: int, late: set<int>)
    requires CoversAllBut(s, late) && step.Pass? && CanStep(s, step, limit)
    ensures CoversAllBut(Do(s, step, grace), late)
  {
    var rows, s' := step.rows, Do(s, step, grace);
    var n := Ready(rows, step.times, 0, s.pos + 1, s.gap, grace).0;
    var k := Min(n, step.accepted);
    hide Ready;
    forall id ensures HasId(s'.topic, id) <==> HasId(s.topic, id) || HasId(rows[..k], id) {
      HasIdAppend(s.topic, rows[..k], id);
    }
    forall id | id in s'.log && id <= s'.pos ensures HasId(s'.topic, id) <==> id !in late {
      if id > s.pos {
        assert HasId(rows, id);
        var i :| 0 <= i < |rows| && rows[i].id == id;
        assert rows[..k][i].id == id;
      } else {
        assert !HasId(rows[..k], id);
      }
    }
  }

  lemma FreeStepKeeps(s: State, step: Step, limit: nat, grace: int, late: set<int>)
    requires CoversAllBut(s, late) && CanStepFreely(s, step, limit)
    ensures CoversAllBut(Do(s, step, grace), late + LateNow(s, step))
  {
    match step
    case Commit(id, sku) => AllFromGrows(s.topic, s.log, id, sku);
    case Pass(_, _, _, _) => FreePassKeeps(s, step, limit, grace, late);
    case Restart =>
  }

  lemma {:induction false} FreeRunCovers(s: State, steps: seq<Step>, s': State, limit: nat, grace: int, late: set<int>)
    requires CoversAllBut(s, late) && FreeRun(s, steps, s', limit, grace)
    ensures CoversAllBut(s', late + Late(s, steps, limit, grace))
    decreases |steps|
  {
    if steps == [] {
      assert late + {} == late;
    } else {
      var next, now := Do(s, steps[0], grace), LateNow(s, steps[0]);
      FreeStepKeeps(s, steps[0], limit, grace, late);
      hide CoversAllBut, CanStepFreely, Do;
      FreeRunCovers(next, steps[1..], s', limit, grace, late + now);
      var rest := Late(next, steps[1..], limit, grace);
      assert late + now + rest == late + (now + rest);
    }
  }

  /** Coverage, with no premise on the order of commits: over any commits, passes, crashes, failed saves and restarts
      from an empty database, a committed row at or below the saved position is on the topic if and only if it
      committed above the position saved at that time. */
  lemma RelayCoverage(s: State, steps: seq<Step>, s': State, limit: nat, grace: int)
    requires Untouched(s) && FreeRun(s, steps, s', limit, grace)
    ensures AllFrom(s'.topic, s'.log)
    ensures forall id :: id in s'.log && id <= s'.pos ==> (HasId(s'.topic, id) <==> id !in Late(s, steps, limit, grace))
  {
    FreeRunCovers(s, steps, s', limit, grace, {});
    assert {} + Late(s, steps, limit, grace) == Late(s, steps, limit, grace);
  }

  /** A row not on the topic by the time the position has passed it never gets there. */
  lemma {:induction false} RowBelowPositionIsLost(s: State, steps: seq<Step>, s': State, limit: nat, grace: int,
                                                  id: int)
    requires id <= s.pos && !HasId(s.topic, id) && FreeRun(s, steps, s', limit, grace)
    ensures id <= s'.pos && !HasId(s'.topic, id)
    decreases |steps|
  {
    if steps != [] {
      var next := Do(s, steps[0], grace);
      if steps[0].Pass? {
        var rows := steps[0].rows;
        var k := Min(Ready(rows, steps[0].times, 0, s.pos + 1, s.gap, grace).0, steps[0].accepted);
        HasIdAppend(s.topic, rows[..k], id);
        assert !HasId(rows[..k], id);
      }
      RowBelowPositionIsLost(next, steps[1..], s', limit, grace, id);
    }
  }
}
