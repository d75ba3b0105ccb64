/** Relay, topic, buffer, tail and window as one machine: what is counted is the scan log. */
module ScanPipeline {
  import opened Collections
  import opened Skus
  import opened Relay
  import opened ScanSource
  import opened TailIngest
  import opened TailRuns
  import opened Windows

  /** Batch sizes, graces and capacities, and where this run of the pipeline started. */
  datatype Config = Config(batch: nat, relayGrace: int, keep: nat, limit: nat, grace: int,
                           window: int, slide: int, start: int, first: int)

  /** The relay's side, how many records of the topic have been consumed, the buffer, and the tail. */
  datatype Pipe = Pipe(relay: Relay.State, consumed: nat, buf: Buffer, tail: Tail)

  datatype Event =
    | RelaySide(step: Relay.Step)
    | Consume
    | PollOnce(rows: seq<Scan>, now: int)

  function Seen(p: Pipe): seq<Scan>
    requires p.consumed <= |p.relay.topic|
  {
    p.relay.topic[..p.consumed]
  }

  /** The reader's lag is within the buffer: what the next record pushes out has been read by the tail, which may still
      hold it pending. */
  ghost predicate WithinLag(p: Pipe, cfg: Config)
    requires p.consumed < |p.relay.topic|
  {
    var scan := p.relay.topic[p.consumed];
    var buf := Apply(p.buf, scan, cfg.keep);
    forall id :: (id in p.buf.rows || id == scan.id) && id !in buf.rows ==> id <= p.tail.lastId || id in p.tail.pending
  }

  ghost predicate Able(p: Pipe, event: Event, cfg: Config)
  {
    match event
    case RelaySide(step) => CanStep(p.relay, step, cfg.batch)
    case Consume => p.consumed < |p.relay.topic| && WithinLag(p, cfg)
    case PollOnce(rows, _) => p.tail.slide > 0 && FirstAbove(rows, p.buf.rows, p.tail.lastId, cfg.limit)
  }

  ghost function Next(p: Pipe, event: Event, cfg: Config): Pipe
    requires Able(p, event, cfg)
  {
    match event
    case RelaySide(step) => p.(relay := Relay.Do(p.relay, step, cfg.relayGrace))
    case Consume => p.(buf := Apply(p.buf, p.relay.topic[p.consumed], cfg.keep), consumed := p.consumed + 1)
    case PollOnce(rows, now) => p.(tail := Poll(p.tail, rows, now, cfg.grace))
  }

  ghost predicate PipeRun(p: Pipe, events: seq<Event>, p': Pipe, cfg: Config)
    decreases |events|
  {
    if events == [] then p' == p else
      Able(p, events[0], cfg) && PipeRun(Next(p, events[0], cfg), events[1..], p', cfg)
  }

  // ---- the invariant -----------------------------------------------------------------------

  /** The consumed scans above the start. */
  ghost function Revealed(p: Pipe, start: int): Log
    requires p.consumed <= |p.relay.topic|
  {
    map id | id in p.relay.log && HasId(Seen(p), id) && id > start :: p.relay.log[id]
  }

  /** The buffer holds only consumed scans, and all those above the tail's cursor that the tail does not hold itself. */
  ghost predicate BufferOk(p: Pipe, cfg: Config)
    requires p.consumed <= |p.relay.topic|
  {
    && Valid(p.buf) && |p.buf.order| <= cfg.keep
    && (forall id :: id in p.buf.rows ==> HasId(Seen(p), id) && id in p.relay.log && p.buf.rows[id] == p.relay.log[id])
    && (forall id :: id in Revealed(p, cfg.start) && id > p.tail.lastId ==> id in p.buf.rows || id in p.tail.pending)
    && (forall id :: id in Revealed(p, cfg.start) ==> id <= p.buf.maxId) && cfg.start <= p.buf.maxId
  }

  ghost predicate PipeOk(p: Pipe, cfg: Config)
  {
    && RelayOk(p.relay) && p.consumed <= |p.relay.topic| && cfg.start >= 0
    && BufferOk(p, cfg)
    && p.tail.slide == cfg.slide && Sound(p.tail, cfg.start, cfg.first)
    && InOrder(p.tail, cfg.start, Revealed(p, cfg.start))
  }

  /** The pipeline as the supervisor builds it over a source that has caught up: the tail at the start, the buffer
      holding every consumed scan above it. */
  ghost predicate Booted(p: Pipe, cfg: Config)
  {
    && RelayOk(p.relay) && p.consumed <= |p.relay.topic| && BufferOk(p, cfg)
    && p.tail == Start(cfg.start, cfg.first, cfg.slide) && cfg.slide > 0 && 0 <= cfg.start < cfg.first
  }

  lemma BootedIsOk(p: Pipe, cfg: Config)
    requires Booted(p, cfg)
    ensures PipeOk(p, cfg)
  {
  }

  lemma SeenIsLogged(s: Relay.State, consumed: nat, id: int)
    requires RelayOk(s) && consumed <= |s.topic| && HasId(s.topic[..consumed], id)
    ensures id in s.log
  {
    var i :| 0 <= i < |s.topic[..consumed]| && s.topic[..consumed][i].id == id;
    assert s.topic[i].id == id;
  }

  /** The relay's side only adds: the log and the topic grow, nothing in them changes. */
  lemma RelaySideGrows(s: Relay.State, step: Relay.Step, batch: nat, grace: int)
    requires CanStep(s, step, batch)
    ensures var s' := Relay.Do(s, step, grace);
      && s.topic <= s'.topic
      && (forall id :: id in s.log ==> id in s'.log && s'.log[id] == s.log[id])
  {
    hide FirstAbove, Ready;
  }

  lemma RevealedSame(p: Pipe, p': Pipe, start: int)
    requires p.consumed <= |p.relay.topic| && p'.consumed == p.consumed && p.relay.topic <= p'.relay.topic
    requires forall id :: HasId(Seen(p), id) ==> id in p.relay.log
    requires forall id :: id in p.relay.log ==> id in p'.relay.log && p'.relay.log[id] == p.relay.log[id]
    ensures Seen(p') == Seen(p) && Revealed(p', start) == Revealed(p, start)
  {
    assert Seen(p') == Seen(p);
    hide HasId;
    var was, now := Revealed(p, start), Revealed(p', start);
    assert forall id :: (id in was <==> id in now) && (id in was ==> was[id] == now[id]);
  }

  /** The relay's side never touches what has been consumed: rows that commit later are new, records only follow. */
  lemma RelaySideOnlyAdds(p: Pipe, step: Relay.Step, cfg: Config)
    requires RelayOk(p.relay) && p.consumed <= |p.relay.topic| && CanStep(p.relay, step, cfg.batch)
    ensures var p' := p.(relay := Relay.Do(p.relay, step, cfg.relayGrace));
      && p.consumed <= |p'.relay.topic| && Seen(p') == Seen(p)
      && (forall id :: id in p.relay.log ==> id in p'.relay.log && p'.relay.log[id] == p.relay.log[id])
      && Revealed(p', cfg.start) == Revealed(p, cfg.start)
  {
    hide RelayOk, HasId, FirstAbove, CommitsAhead, Seen, Revealed, Relay.Do;
    RelaySideGrows(p.relay, step, cfg.batch, cfg.relayGrace);
    forall id | HasId(Seen(p), id) ensures id in p.relay.log { SeenIsLoggedOf(p, id); }
    RevealedSame(p, p.(relay := Relay.Do(p.relay, step, cfg.relayGrace)), cfg.start);
  }

  lemma SeenIsLoggedOf(p: Pipe, id: int)
    requires RelayOk(p.relay) && p.consumed <= |p.relay.topic| && HasId(Seen(p), id)
    ensures id in p.relay.log
  {
    SeenIsLogged(p.relay, p.consumed, id);
  }

  lemma RelaySideKeeps(p: Pipe, step: Relay.Step, cfg: Config)
    requires PipeOk(p, cfg) && Able(p, RelaySide(step), cfg)
    ensures PipeOk(Next(p, RelaySide(step), cfg), cfg)
  {
    hide RelayOk, Sound, Valid, InOrder, HasId, Revealed, Seen, CanStep;
    RelaySideOnlyAdds(p, step, cfg);
    StepKeeps(p.relay, step, cfg.batch, cfg.relayGrace);
    hide Relay.Do;
  }

  lemma SeenOneMore(p: Pipe, id: int)
    requires p.consumed < |p.relay.topic|
    ensures HasId(p.relay.topic[..p.consumed + 1], id) <==> HasId(Seen(p), id) || id == p.relay.topic[p.consumed].id
  {
    var scan := p.relay.topic[p.consumed];
    assert p.relay.topic[..p.consumed + 1] == Seen(p) + [scan];
    HasIdAppend(Seen(p), [scan], id);
    assert [scan][0] == scan;
  }

  /** A record that does not repeat one consumed before is above them all. */
  lemma NewRecordIsAbove(s: Relay.State, consumed: nat, other: int)
    requires RelayOk(s) && consumed < |s.topic| && HasId(s.topic[..consumed], other)
    requires !HasId(s.topic[..consumed], s.topic[consumed].id)
    ensures other < s.topic[consumed].id
  {
    var j :| 0 <= j < |s.topic[..consumed]| && s.topic[..consumed][j].id == other;
    assert s.topic[j].id == other;
  }

  lemma ConsumeAddsOne(p: Pipe, start: int, buf: Buffer)
    requires p.consumed < |p.relay.topic|
    ensures var scan := p.relay.topic[p.consumed];
      var was, now := Revealed(p, start), Revealed(p.(buf := buf, consumed := p.consumed + 1), start);
      forall id :: id in now <==> id in was || (id == scan.id && id > start && id in p.relay.log)
  {
    forall id
      ensures HasId(p.relay.topic[..p.consumed + 1], id) <==> HasId(Seen(p), id) || id == p.relay.topic[p.consumed].id
    {
      SeenOneMore(p, id);
    }
    hide HasId;
  }

  lemma ConsumeReveals(p: Pipe, cfg: Config)
    requires RelayOk(p.relay) && p.consumed < |p.relay.topic|
    ensures var scan := p.relay.topic[p.consumed];
      var p' := p.(buf := Apply(p.buf, scan, cfg.keep), consumed := p.consumed + 1);
      var was := Revealed(p, cfg.start);
      && scan.id in p.relay.log && p.relay.log[scan.id] == scan.sku
      && Revealed(p', cfg.start) == (if scan.id > cfg.start then was[scan.id := scan.sku] else was)
      && (scan.id > cfg.start && scan.id !in was ==> RevealsNext(cfg.start, was, scan.id))
  {
    hide RelayOk, HasId, Apply;
    var scan := p.relay.topic[p.consumed];
    var was := Revealed(p, cfg.start);
    RecordIsLogged(p.relay, p.consumed);
    ConsumeAddsOne(p, cfg.start, Apply(p.buf, scan, cfg.keep));
    if scan.id > cfg.start && scan.id !in was {
      forall other | other in was ensures other < scan.id { NewRecordIsAbove(p.relay, p.consumed, other); }
    }
  }

  lemma RecordIsLogged(s: Relay.State, n: nat)
    requires RelayOk(s) && n < |s.topic|
    ensures s.topic[n].id in s.log && s.log[s.topic[n].id] == s.topic[n].sku
  {
  }

  lemma ConsumeKeepsBuffer(p: Pipe, cfg: Config)
    requires RelayOk(p.relay) && p.consumed < |p.relay.topic| && BufferOk(p, cfg) && WithinLag(p, cfg)
    ensures BufferOk(p.(buf := Apply(p.buf, p.relay.topic[p.consumed], cfg.keep), consumed := p.consumed + 1), cfg)
  {
    hide RelayOk, Valid, RevealsNext, HasId;
    var scan := p.relay.topic[p.consumed];
    ConsumeReveals(p, cfg);
    ApplyKeeps(p.buf, scan, cfg.keep);
    ApplyKeepsMax(p.buf, scan, cfg.keep);
    var p' := p.(buf := Apply(p.buf, scan, cfg.keep), consumed := p.consumed + 1);
    hide Apply, Revealed;
    forall id | id in p'.buf.rows ensures HasId(Seen(p'), id) {
      SeenOneMore(p, id);
    }
  }

  lemma ApplyKeepsMax(b: Buffer, scan: Scan, keep: nat)
    requires Valid(b) && |b.order| <= keep
    ensures Apply(b, scan, keep).maxId >= Max(b.maxId, scan.id)
  {
    ApplyKeeps(b, scan, keep);
  }

  lemma ConsumeKeeps(p: Pipe, cfg: Config)
    requires PipeOk(p, cfg) && Able(p, Consume, cfg)
    ensures PipeOk(Next(p, Consume, cfg), cfg)
  {
    hide RelayOk, BufferOk, InOrder, Sound, RevealsNext, Revealed, Apply, WithinLag;
    ConsumeKeepsBuffer(p, cfg);
    ConsumeReveals(p, cfg);
    var scan, was := p.relay.topic[p.consumed], Revealed(p, cfg.start);
    if scan.id > cfg.start {
      if scan.id in was {
        RevealedIsLog(p, cfg, scan.id);
        assert was[scan.id := scan.sku] == was;
      } else {
        RevealKeepsInOrder(p.tail, cfg.start, was, scan.id, scan.sku);
      }
    }
  }

  lemma RevealedIsLog(p: Pipe, cfg: Config, id: int)
    requires p.consumed <= |p.relay.topic| && id in Revealed(p, cfg.start)
    ensures id in p.relay.log && Revealed(p, cfg.start)[id] == p.relay.log[id]
  {
  }

  /** To the tail, the buffer is as good as everything revealed. */
  lemma BufferSupplies(p: Pipe, cfg: Config)
    requires p.consumed <= |p.relay.topic| && BufferOk(p, cfg) && cfg.start <= p.tail.lastId
    ensures Supplies(p.buf.rows, p.tail, Revealed(p, cfg.start))
  {
    hide Valid, HasId, Seen;
  }

  /** And it stays so after a poll. */
  lemma SuppliesIsBufferOk(p: Pipe, tail: Tail, cfg: Config)
    requires p.consumed <= |p.relay.topic| && BufferOk(p, cfg) && Supplies(p.buf.rows, tail, Revealed(p, cfg.start))
    ensures BufferOk(p.(tail := tail), cfg)
  {
    hide Valid, HasId;
    var p' := p.(tail := tail);
    assert Seen(p') == Seen(p) && Revealed(p', cfg.start) == Revealed(p, cfg.start);
  }

  lemma PollKeeps(p: Pipe, rows: seq<Scan>, now: int, cfg: Config)
    requires PipeOk(p, cfg) && Able(p, PollOnce(rows, now), cfg)
    ensures PipeOk(Next(p, PollOnce(rows, now), cfg), cfg)
  {
    assert p.tail.slide > 0 && cfg.start <= p.tail.lastId;
    hide FirstAbove, RelayOk, InOrder, Sound, BufferOk, Supplies, Poll, Revealed;
    BufferSupplies(p, cfg);
    var revealed, tail := Revealed(p, cfg.start), Poll(p.tail, rows, now, cfg.grace);
    PollKeepsInOrder(p.tail, cfg.start, cfg.first, revealed, p.buf.rows, rows, cfg.limit, now, cfg.grace);
    PollKeepsSupply(p.tail, revealed, p.buf.rows, rows, now, cfg.grace);
    PollKeepsSlide(p.tail, rows, now, cfg.grace);
    SuppliesIsBufferOk(p, tail, cfg);
    RevealedAsBefore(p, tail, cfg.start);
  }

  lemma RevealedAsBefore(p: Pipe, tail: Tail, start: int)
    requires p.consumed <= |p.relay.topic|
    ensures Revealed(p.(tail := tail), start) == Revealed(p, start)
  {
    assert Seen(p.(tail := tail)) == Seen(p);
  }

  lemma {:induction false} RunKeepsPipe(p: Pipe, events: seq<Event>, p': Pipe, cfg: Config)
    requires PipeOk(p, cfg) && PipeRun(p, events, p', cfg)
    ensures PipeOk(p', cfg)
    decreases |events|
  {
    if events != [] {
      var next := Next(p, events[0], cfg);
      assert PipeOk(next, cfg) by {
        match events[0]
        case RelaySide(step) => RelaySideKeeps(p, step, cfg);
        case Consume => ConsumeKeeps(p, cfg);
        case PollOnce(rows, now) => PollKeeps(p, rows, now, cfg);
      }
      hide PipeOk, Next, Able;
      RunKeepsPipe(next, events[1..], p', cfg);
    }
  }

  // ---- end to end --------------------------------------------------------------------------

  /** A committed scan at or below a consumed one has itself been consumed. */
  lemma BelowConsumedIsConsumed(s: Relay.State, consumed: nat, id: int, top: int)
    requires RelayOk(s) && consumed <= |s.topic| && id in s.log && id <= top && HasId(s.topic[..consumed], top)
    ensures HasId(s.topic[..consumed], id)
  {
    var j :| 0 <= j < consumed && s.topic[..consumed][j].id == top;
    assert Covers(s, s.topic[j].id);
    var i := FirstPlace(s.topic, id);
    if i >= consumed { assert false; }
    assert s.topic[..consumed][i].id == id;
  }

  lemma {:induction false} FirstPlace(topic: seq<Scan>, id: int) returns (i: nat)
    requires HasId(topic, id)
    ensures i < |topic| && topic[i].id == id && !HasId(topic[..i], id)
    decreases |topic|
  {
    i :| 0 <= i < |topic| && topic[i].id == id;
    if HasId(topic[..i], id) {
      var front := topic[..i];
      i := FirstPlace(front, id);
      assert front[..i] == topic[..i];
    }
  }

  /** Exactly once, end to end: over any commits, relay passes, crashes, failed saves and republished records, the
      window filter receives exactly the committed scans with id in `(start, cursor]`, each once and in id order. */
  lemma ExactlyOnce(p: Pipe, events: seq<Event>, p': Pipe, cfg: Config)
    requires Booted(p, cfg) && PipeRun(p, events, p', cfg)
    ensures InSequence(p'.tail.out)
    ensures forall scan :: Emit(scan) in p'.tail.out
              <==> scan.id in p'.relay.log && p'.relay.log[scan.id] == scan.sku && cfg.start < scan.id <= p'.tail.lastId
    ensures p'.tail.lastId <= p'.buf.maxId
  {
    BootedIsOk(p, cfg);
    RunKeepsPipe(p, events, p', cfg);
    hide Booted, PipeRun, HasId, RelayOk, Valid, InSequence, OnGrid, FirstsAscend, Seen;
    var revealed := Revealed(p', cfg.start);
    forall scan ensures Emit(scan) in p'.tail.out
      <==> scan.id in p'.relay.log && p'.relay.log[scan.id] == scan.sku && cfg.start < scan.id <= p'.tail.lastId
    {
      if scan.id in p'.relay.log && cfg.start < scan.id <= p'.tail.lastId {
        var top :| top in revealed && top >= p'.tail.lastId;
        BelowConsumedIsConsumed(p'.relay, p'.consumed, scan.id, top);
      }
    }
  }

  /** Scans of a SKU in the log itself, with id in `(lo, hi]`. */
  ghost function LogIds(log: Log, lo: int, hi: int, sku: Sku): set<int>
  {
    set id | id in log && lo < id <= hi && log[id] == sku
  }

  ghost function IdsOf(scans: seq<Scan>, lo: int, hi: int, sku: Sku): set<int>
  {
    if scans == [] then {} else
      IdsOf(scans[1..], lo, hi, sku) + (if lo < scans[0].id <= hi && scans[0].sku == sku then {scans[0].id} else {})
  }

  lemma {:induction false} InIdsOf(scans: seq<Scan>, lo: int, hi: int, sku: Sku, id: int)
    ensures id in IdsOf(scans, lo, hi, sku) <==> lo < id <= hi && Scan(id, sku) in scans
  {
    if scans != [] {
      assert scans == [scans[0]] + scans[1..];
      InIdsOf(scans[1..], lo, hi, sku, id);
    }
  }

  /** In id order, recounting a list is counting ids. */
  lemma {:induction false} RecountIsIds(scans: seq<Scan>, lo: int, hi: int, sku: Sku)
    requires IdsAscend(scans)
    ensures Recount(scans, lo, hi)[sku] == |IdsOf(scans, lo, hi, sku)|
  {
    if scans != [] {
      RecountIsIds(scans[1..], lo, hi, sku);
      InIdsOf(scans[1..], lo, hi, sku, scans[0].id);
    }
  }

  /** A published window is a recount of the scan log: each SKU's count is the number of committed rows of the log
      with id in `(max(0, b - W), b]`, and a SKU without such a row is absent. */
  ghost predicate CountsTheLog(w: WindowCounts, log: Log)
  {
    forall sku ::
      && (sku in w.counts <==> LogIds(log, w.start, w.end, sku) != {})
      && (sku in w.counts ==> w.counts[sku] == |LogIds(log, w.start, w.end, sku)|)
  }

  lemma WindowCountsTheLog(w: WindowCounts, scans: seq<Scan>, log: Log, start: int, last: int)
    requires IdsAscend(scans) && start <= w.start && w.end <= last && Holds(w.counts, Recount(scans, w.start, w.end))
    requires forall s :: s in scans <==> s.id in log && log[s.id] == s.sku && start < s.id <= last
    ensures CountsTheLog(w, log)
  {
    hide IdsAscend;
    forall sku ensures Recount(scans, w.start, w.end)[sku] == |LogIds(log, w.start, w.end, sku)| {
      RecountIsIds(scans, w.start, w.end, sku);
      forall id ensures id in IdsOf(scans, w.start, w.end, sku) <==> id in LogIds(log, w.start, w.end, sku) {
        InIdsOf(scans, w.start, w.end, sku, id);
      }
      assert IdsOf(scans, w.start, w.end, sku) == LogIds(log, w.start, w.end, sku);
    }
    hide Within;
    forall sku ensures sku in w.counts <==> LogIds(log, w.start, w.end, sku) != {} {
      assert Recount(scans, w.start, w.end)[sku] == |LogIds(log, w.start, w.end, sku)|;
    }
  }

  /** The tail's output holds exactly the log's scans with id in `(start, lastId]`. */
  ghost predicate EmittedLog(t: Tail, log: Log, start: int)
  {
    forall scan :: Emit(scan) in t.out <==> scan.id in log && log[scan.id] == scan.sku && start < scan.id <= t.lastId
  }

  lemma MarksOfSound(t: Tail, start: int, first: int)
    requires Sound(t, start, first)
    ensures t.slide > 0 && From(t.out, start)
    ensures forall b :: b in Marks(t.out) <==> OnGrid(first, t.slide, b) && b <= t.lastId
  {
    assert From(t.out, start);
    MarksFrom(t.out, start);
    hide InSequence, OnGrid;
    forall b ensures b in Marks(t.out) <==> OnGrid(first, t.slide, b) && b <= t.lastId {
      if Mark(b) in t.out {
        var i :| 0 <= i < |t.out| && t.out[i] == Mark(b);
        assert Rank(t.out[i]) <= 2 * t.lastId + 1;
      }
    }
  }

  ghost predicate WindowsCountLog(windows: seq<WindowCounts>, marks: seq<int>, log: Log, window: int)
  {
    && |windows| == |marks|
    && forall k :: 0 <= k < |windows| ==>
          && windows[k].end == marks[k] && windows[k].start == Max(0, marks[k] - window)
          && CountsTheLog(windows[k], log)
  }

  lemma EmittedAre(t: Tail, log: Log, start: int)
    requires From(t.out, start) && EmittedLog(t, log, start)
    ensures IdsAscend(Emitted(t.out))
    ensures forall s :: s in Emitted(t.out) <==> s.id in log && log[s.id] == s.sku && start < s.id <= t.lastId
  {
    EmittedFrom(t.out, start);
    hide From, Emitted, IdsAscend;
  }

  lemma WindowsRecount(out: seq<Item>, start: int, window: int)
    requires From(out, start) && start >= 0 && window >= 0
    ensures var windows, marks := FeedAll(Fresh(start), out, window).windows, Marks(out);
      && |windows| == |marks|
      && forall k :: 0 <= k < |windows| ==>
           && windows[k].end == marks[k] && windows[k].start == Max(0, marks[k] - window)
           && Holds(windows[k].counts, Recount(Emitted(out), windows[k].start, windows[k].end))
  {
    IncrementalEqualsRecount(out, start, window);
    hide From, FeedAll, Marks, Emitted, Recount, Holds;
  }

  lemma OneWindowCounts(t: Tail, log: Log, start: int, first: int, window: int, w: WindowCounts)
    requires From(t.out, start) && EmittedLog(t, log, start) && t.slide > 0
    requires start <= Max(0, first - window) && w.start == Max(0, w.end - window)
    requires OnGrid(first, t.slide, w.end) && w.end <= t.lastId
    requires Holds(w.counts, Recount(Emitted(t.out), w.start, w.end))
    ensures CountsTheLog(w, log)
  {
    hide From, Emitted, Holds, Recount, CountsTheLog, OnGrid, IdsAscend;
    EmittedAre(t, log, start);
    GridAtLeastFirst(first, t.slide, w.end);
    WindowCountsTheLog(w, Emitted(t.out), log, start, t.lastId);
  }

  lemma OutCountsTheLog(t: Tail, log: Log, start: int, first: int, window: int)
    requires Sound(t, start, first) && EmittedLog(t, log, start)
    requires window >= 0 && 0 <= start <= Max(0, first - window)
    ensures WindowsCountLog(FeedAll(Fresh(start), t.out, window).windows, Marks(t.out), log, window)
  {
    hide Sound, From, FeedAll, Holds, CountsTheLog, OnGrid, Marks, Emitted, Recount, EmittedLog;
    MarksOfSound(t, start, first);
    WindowsRecount(t.out, start, window);
    var windows, marks := FeedAll(Fresh(start), t.out, window).windows, Marks(t.out);
    forall k | 0 <= k < |windows| ensures CountsTheLog(windows[k], log) {
      assert marks[k] in marks;
      OneWindowCounts(t, log, start, first, window, windows[k]);
    }
  }

  /** Incremental equals recount, end to end: whatever the run, the filters produce one window per boundary passed,
      and each, its boundary at least a window above the start, is a recount of the scan log table. */
  lemma WindowsCountTheLog(p: Pipe, events: seq<Event>, p': Pipe, cfg: Config)
    requires Booted(p, cfg) && PipeRun(p, events, p', cfg) && cfg.window >= 0
    requires cfg.start <= Max(0, cfg.first - cfg.window)
    ensures var marks := Marks(p'.tail.out);
      && WindowsCountLog(FeedAll(Fresh(cfg.start), p'.tail.out, cfg.window).windows, marks, p'.relay.log, cfg.window)
      && forall b :: b in marks <==> OnGrid(cfg.first, cfg.slide, b) && b <= p'.tail.lastId
  {
    BootedIsOk(p, cfg);
    RunKeepsPipe(p, events, p', cfg);
    ExactlyOnce(p, events, p', cfg);
    hide Booted, PipeRun, InOrder, CountsTheLog, RelayOk, BufferOk, Sound, WindowsCountLog;
    assert EmittedLog(p'.tail, p'.relay.log, cfg.start);
    MarksOfSound(p'.tail, cfg.start, cfg.first);
    OutCountsTheLog(p'.tail, p'.relay.log, cfg.start, cfg.first, cfg.window);
  }

  lemma {:induction false} GridAtLeastFirst(first: int, slide: int, b: int)
    requires slide > 0 && OnGrid(first, slide, b)
    ensures b >= first
  {
  }
}
