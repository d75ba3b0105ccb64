/** What readers of the ranking see, against the scan log. */
module Published {
  import opened Collections
  import opened Skus
  import opened Relay
  import opened TailIngest
  import opened TailRuns
  import opened Windows
  import opened Ranking
  import opened ScanPipeline
  import opened Replay
  import PP = PipelineProgress
  import RP = RelayProgress
  import TP = TailProgress

  ghost function SkusIn(log: Log, lo: int, hi: int): set<Sku>
  {
    set id | id in log && lo < id <= hi :: log[id]
  }

  /** Each SKU scanned with an id in `(lo, hi]`, and how many such rows the log has. */
  ghost function LogCounter(log: Log, lo: int, hi: int): Counter
  {
    map sku | sku in SkusIn(log, lo, hi) :: |LogIds(log, lo, hi, sku)|
  }

  lemma CountsAreLogCounter(w: WindowCounts, log: Log)
    requires CountsTheLog(w, log)
    ensures w.counts == LogCounter(log, w.start, w.end)
  {
    forall sku ensures sku in w.counts <==> sku in SkusIn(log, w.start, w.end) {
      if sku in w.counts {
        var id :| id in LogIds(log, w.start, w.end, sku);
        assert log[id] == sku;
      }
      if sku in SkusIn(log, w.start, w.end) {
        var id :| id in log && w.start < id <= w.end && log[id] == sku;
        assert id in LogIds(log, w.start, w.end, sku);
      }
    }
    assert w.counts.Keys == SkusIn(log, w.start, w.end);
  }

  /** The windows put into the slot are the first of those produced, each through the ranking filter. */
  ghost predicate RankingsOf(puts: seq<RankedWindow>, windows: seq<WindowCounts>, depth: nat)
  {
    && |puts| <= |windows|
    && forall k :: 0 <= k < |puts| ==>
          && puts[k].start == windows[k].start && puts[k].end == windows[k].end
          && Ranks(puts[k].ranking, windows[k].counts, depth)
  }

  /** The window ending at `w.end`, ranked as the log's own rows rank. */
  ghost predicate RanksTheLog(w: RankedWindow, log: Log, window: int, depth: nat)
  {
    w.start == Max(0, w.end - window) && Ranks(w.ranking, LogCounter(log, w.start, w.end), depth)
  }

  lemma PutsRankTheLog(puts: seq<RankedWindow>, windows: seq<WindowCounts>, marks: seq<int>, log: Log,
                       window: int, depth: nat)
    requires WindowsCountLog(windows, marks, log, window) && RankingsOf(puts, windows, depth)
    requires Ascending(marks) && forall k :: 0 <= k < |marks| ==> marks[k] > 0
    ensures |puts| <= |marks| && Rising(puts, 0)
    ensures forall k :: 0 <= k < |puts| ==> puts[k].end == marks[k] && RanksTheLog(puts[k], log, window, depth)
  {
    hide CountsTheLog, Ranks, LogCounter;
    forall k | 0 <= k < |puts| ensures puts[k].end == marks[k] && RanksTheLog(puts[k], log, window, depth) {
      CountsAreLogCounter(windows[k], log);
    }
  }

  /** What the read path has been given so far. */
  ghost predicate Displays(o: Outlet, log: Log, window: int, depth: nat, first: int, slide: int, cursor: int)
    requires slide > 0
  {
    && Rising(o.published, 0)
    && (forall w :: w in o.published ==>
          RanksTheLog(w, log, window, depth) && OnGrid(first, slide, w.end) && w.end <= cursor)
    && (o.item == None && o.puts != [] ==>
          o.published != [] && o.published[|o.published| - 1] == o.puts[|o.puts| - 1])
  }

  /** Put in rising order, nothing is lost between the slot and the display. */
  lemma OutletKeepsNewest(steps: seq<OutletStep>, o: Outlet)
    requires OutletRun(QUIET, steps, o) && Rising(o.puts, 0)
    ensures Rising(o.published, 0) && forall w :: w in o.published ==> w in o.puts
    ensures o.item == None && o.puts != [] ==>
      o.published != [] && o.published[|o.published| - 1] == o.puts[|o.puts| - 1]
  {
    assert Newest(QUIET);
    hide OutletRun;
    NewestIsPublished(QUIET, steps, o);
  }

  /** What the tail's output puts into the slot. */
  lemma TailPuts(t: Tail, log: Log, start: int, first: int, window: int, depth: nat, puts: seq<RankedWindow>)
    requires Sound(t, start, first) && EmittedLog(t, log, start)
    requires window >= 0 && 0 <= start <= Max(0, first - window)
    requires RankingsOf(puts, FeedAll(Fresh(start), t.out, window).windows, depth)
    ensures |puts| <= |Marks(t.out)| && Rising(puts, 0)
    ensures forall k :: 0 <= k < |puts| ==> puts[k].end == Marks(t.out)[k] && RanksTheLog(puts[k], log, window, depth)
  {
    var windows, marks := FeedAll(Fresh(start), t.out, window).windows, Marks(t.out);
    OutCountsTheLog(t, log, start, first, window);
    MarksOfSound(t, start, first);
    MarksFrom(t.out, start);
    hide Sound, EmittedLog, FeedAll, Marks, From, WindowsCountLog, RanksTheLog, RankingsOf;
    PutsRankTheLog(puts, windows, marks, log, window, depth);
  }

  /** From the tail's output to the display. */
  lemma OutletDisplays(t: Tail, log: Log, start: int, first: int, window: int, depth: nat,
                       steps: seq<OutletStep>, o: Outlet)
    requires Sound(t, start, first) && EmittedLog(t, log, start)
    requires window >= 0 && 0 <= start <= Max(0, first - window)
    requires OutletRun(QUIET, steps, o)
    requires RankingsOf(o.puts, FeedAll(Fresh(start), t.out, window).windows, depth)
    ensures Displays(o, log, window, depth, first, t.slide, t.lastId)
  {
    hide FeedAll, From, EmittedLog, OutletRun, RanksTheLog, RankingsOf, Ranks, Newest;
    var marks := Marks(t.out);
    TailPuts(t, log, start, first, window, depth, o.puts);
    MarksOfSound(t, start, first);
    OutletKeepsNewest(steps, o);
    hide Sound, Marks, OnGrid, Rising;
    forall w | w in o.published
      ensures RanksTheLog(w, log, window, depth) && OnGrid(first, t.slide, w.end) && w.end <= t.lastId
    {
      var k :| 0 <= k < |o.puts| && o.puts[k] == w;
      assert marks[k] in marks;
    }
  }

  /** End to end, to the display. Any relay history under gap finality, a reader within the repeat bound, bootstrap, any
      further run of the pipeline, and any taking of windows from the slot: every window ever published ranks the rows
      of the scan log itself, boundaries only rise, and with the slot empty the newest is on display. */
  lemma DisplayRanksTheLog(empty: Relay.State, before: seq<Relay.Step>, p: Pipe, from: nat, span: nat,
                           events: seq<Event>, p': Pipe, cfg: Config, depth: nat, steps: seq<OutletStep>, o: Outlet)
    requires Untouched(empty) && RelayRun(empty, before, p.relay, cfg.batch, cfg.relayGrace)
    requires 0 < cfg.slide <= cfg.window && CoversWindow(p, from, span, cfg)
    requires (cfg.start, cfg.first) == Bootstrap(p.buf.maxId, cfg.window, cfg.slide)
    requires p.tail == Start(cfg.start, cfg.first, cfg.slide) && PipeRun(p, events, p', cfg)
    requires OutletRun(QUIET, steps, o)
    requires RankingsOf(o.puts, FeedAll(Fresh(cfg.start), p'.tail.out, cfg.window).windows, depth)
    ensures Displays(o, p'.relay.log, cfg.window, depth, cfg.first, cfg.slide, p'.tail.lastId)
  {
    StartedPipelineCountsTheLog(empty, before, p, from, span, events, p', cfg);
    TopicCoversLog(empty, before, p.relay, cfg.batch, cfg.relayGrace);
    hide RelayRun, RelayOk, CoversWindow, PipeRun, Bootstrap, WindowsCountLog, InSequence, OnGrid;
    hide OutletRun, RankingsOf;
    ReplayBoots(p, from, span, cfg);
    BootedIsOk(p, cfg);
    RunKeepsPipe(p, events, p', cfg);
    PipeTailIsSound(p', cfg);
    hide Booted, EmittedLog, FeedAll;
    OutletDisplays(p'.tail, p'.relay.log, cfg.start, cfg.first, cfg.window, depth, steps, o);
  }

  lemma PipeTailIsSound(p: Pipe, cfg: Config)
    requires PipeOk(p, cfg)
    ensures Sound(p.tail, cfg.start, cfg.first) && p.tail.slide == cfg.slide && cfg.start >= 0
  {
  }

  /** And in the end all of it is there: once commits stop and relay, reader and tail have caught up, with every window
      put and the slot empty, the window on display is that of the last boundary the log has passed, ranking the log. */
  lemma LastWindowIsDisplayed(p: Pipe, cfg: Config, passes: seq<seq<RP.Beat>>, clock: int, s': Relay.State,
                              events: seq<Event>, q: Pipe, polls: seq<seq<Answer>>, pollClock: int, t': Tail, top: int,
                              depth: nat, steps: seq<OutletStep>, o: Outlet)
    requires PipeOk(p, cfg) && cfg.batch > 0 && cfg.limit > 0 && cfg.grace >= 0
    requires top in p.relay.log && top > cfg.start && forall id :: id in p.relay.log ==> id <= top
    requires RP.SeenBy(p.relay.gap, clock) && |passes| >= |RP.Above(p.relay)|
    requires RP.Rounds(p.relay, passes, cfg.batch, cfg.relayGrace, clock, s')
    requires PipeRun(p.(relay := s'), events, q, cfg) && PP.NoCommits(events) && q.consumed == |q.relay.topic|
    requires TP.SeenBy(q.tail, pollClock)
    requires TP.Rounds(q.tail, polls, q.buf.rows, cfg.limit, cfg.grace, pollClock, t')
    requires |polls| >= top - q.tail.lastId
    requires cfg.window >= 0 && cfg.start <= Max(0, cfg.first - cfg.window) && cfg.first <= top
    requires OutletRun(QUIET, steps, o) && o.item == None
    requires var windows := FeedAll(Fresh(cfg.start), t'.out, cfg.window).windows;
      |o.puts| == |windows| && RankingsOf(o.puts, windows, depth)
    ensures o.published != []
    ensures var w := o.published[|o.published| - 1];
      && RanksTheLog(w, p.relay.log, cfg.window, depth)
      && (forall b :: cfg.slide > 0 && OnGrid(cfg.first, cfg.slide, b) && b <= top ==> b <= w.end)
  {
    PP.PipelineCatchesUp(p, cfg, passes, clock, s', events, q, polls, pollClock, t', top);
    PipeTailIsSound(p, cfg);
    hide PipeOk, PipeRun, RP.Rounds, TP.Rounds, PP.NoCommits;
    AllPutIsDisplayed(t', p.relay.log, cfg.start, cfg.first, cfg.window, depth, steps, o);
  }

  lemma AllPutIsDisplayed(t: Tail, log: Log, start: int, first: int, window: int, depth: nat,
                          steps: seq<OutletStep>, o: Outlet)
    requires Sound(t, start, first) && EmittedLog(t, log, start) && first <= t.lastId
    requires window >= 0 && 0 <= start <= Max(0, first - window)
    requires OutletRun(QUIET, steps, o) && o.item == None
    requires var windows := FeedAll(Fresh(start), t.out, window).windows;
      |o.puts| == |windows| && RankingsOf(o.puts, windows, depth)
    ensures o.published != []
    ensures var w := o.published[|o.published| - 1];
      && RanksTheLog(w, log, window, depth)
      && (forall b :: OnGrid(first, t.slide, b) && b <= t.lastId ==> b <= w.end)
  {
    hide FeedAll, From, EmittedLog, OutletRun, RanksTheLog, Ranks, CountsTheLog, Newest;
    var windows, marks := FeedAll(Fresh(start), t.out, window).windows, Marks(t.out);
    TailPuts(t, log, start, first, window, depth, o.puts);
    OutCountsTheLog(t, log, start, first, window);
    MarksOfSound(t, start, first);
    OutletKeepsNewest(steps, o);
    assert OnGrid(first, t.slide, first) && first in marks;
    hide Sound, Marks, OnGrid, Rising;
    assert |windows| == |marks|;
    forall b | b in marks ensures b <= marks[|marks| - 1] {
      var k :| 0 <= k < |marks| && marks[k] == b;
    }
  }
}
