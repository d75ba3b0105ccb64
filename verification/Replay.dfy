/** Where a pipeline starts, and why replaying the last `2 W` records of the topic is enough to start there. */
module Replay {
  import opened Collections
  import opened Skus
  import opened Relay
  import opened ScanSource
  import opened TailIngest
  import opened TailRuns
  import opened Windows
  import opened ScanPipeline

  // ---- the arithmetic ----------------------------------------------------------------------

  function FirstBoundaryAfter(startAfter: int, slide: int): int
    requires slide > 0
  {
    (startAfter / slide + 1) * slide
  }

  /** The smallest multiple of the slide strictly above `startAfter`. */
  lemma {:induction false} FirstBoundaryIsLeast(startAfter: int, slide: int, k: int)
    requires slide > 0
    ensures startAfter < FirstBoundaryAfter(startAfter, slide) <= startAfter + slide
    ensures k * slide > startAfter ==> k * slide >= FirstBoundaryAfter(startAfter, slide)
  {
    var q := startAfter / slide;
    assert startAfter == q * slide + startAfter % slide;
    assert (q + 1) * slide == q * slide + slide;
    if k * slide > startAfter && k <= q {
      assert k * slide <= q * slide by { MulMonotone(k, q, slide); }
    } else if k > q {
      MulMonotone(q + 1, k, slide);
    }
  }

  lemma MulMonotone(a: int, b: int, c: int)
    requires a <= b && c > 0
    ensures a * c <= b * c
  {
    assert (b - a) * c >= 0;
    assert b * c == a * c + (b - a) * c;
  }

  /** The id to start after, and the first boundary to publish, for the highest id the source has. */
  function Bootstrap(maxId: int, window: int, slide: int): (int, int)
    requires slide > 0
  {
    var b0 := maxId - maxId % slide;
    (Max(0, b0 - window), if b0 > 0 then b0 else slide)
  }

  /** The first window published is complete: it starts no lower than the tail does. */
  lemma BootstrapCoversFirst(maxId: int, window: int, slide: int)
    requires slide > 0 && window > 0 && maxId >= 0
    ensures var (start, first) := Bootstrap(maxId, window, slide);
      0 <= start < first && start <= maxId && start <= Max(0, first - window)
      && maxId - maxId % slide - window <= start
  {
  }

  /** The first boundary published is the last multiple of the slide the source has reached, or the first of all if it
      has reached none, and the tail starts one window below it. */
  lemma BootstrapIsLatest(maxId: int, window: int, slide: int)
    requires slide > 0 && window > 0 && maxId >= 0
    ensures var (start, first) := Bootstrap(maxId, window, slide);
      && first == Max(1, maxId / slide) * slide && first <= Max(slide, maxId) && maxId < first + slide
      && start == if maxId < slide then 0 else Max(0, first - window)
  {
    var q := maxId / slide;
    assert maxId == q * slide + maxId % slide;
    if q >= 1 { MulMonotone(1, q, slide); } else { MulMonotone(q, 0, slide); }
  }

  // ---- repeats -----------------------------------------------------------------------------

  /** The ids that occur for the first time from position `from` on, in order. */
  ghost function FirstIds(topic: seq<Scan>, from: nat): seq<int>
  {
    if |topic| <= from then [] else
      var front, last := topic[..|topic| - 1], topic[|topic| - 1];
      if HasId(front, last.id) then FirstIds(front, from) else FirstIds(front, from) + [last.id]
  }

  /** How many of the records from `from` on repeat an earlier one. */
  ghost function Repeats(topic: seq<Scan>, from: nat): nat
  {
    if |topic| <= from then 0 else
      var front, last := topic[..|topic| - 1], topic[|topic| - 1];
      Repeats(front, from) + if HasId(front, last.id) then 1 else 0
  }

  lemma FirstsAscendFront(topic: seq<Scan>)
    requires FirstsAscend(topic) && topic != []
    ensures FirstsAscend(topic[..|topic| - 1])
    ensures !HasId(topic[..|topic| - 1], topic[|topic| - 1].id) ==>
      forall j :: 0 <= j < |topic| - 1 ==> topic[j].id < topic[|topic| - 1].id
  {
    var front := topic[..|topic| - 1];
    forall i, j | 0 <= j < i < |front| && !HasId(front[..i], front[i].id) ensures front[j].id < front[i].id {
      assert front[..i] == topic[..i];
    }
  }

  lemma {:induction false} FirstIdsCount(topic: seq<Scan>, from: nat)
    requires from <= |topic|
    ensures |FirstIds(topic, from)| + Repeats(topic, from) == |topic| - from
    decreases |topic|
  {
    if |topic| > from { FirstIdsCount(topic[..|topic| - 1], from); }
  }

  lemma {:induction false} FirstIdsOccur(topic: seq<Scan>, from: nat, k: nat)
    requires k < |FirstIds(topic, from)|
    ensures exists i :: from <= i < |topic| && topic[i].id == FirstIds(topic, from)[k]
    decreases |topic|
  {
    var front, last := topic[..|topic| - 1], topic[|topic| - 1];
    if k < |FirstIds(front, from)| {
      FirstIdsOccur(front, from, k);
      var i :| from <= i < |front| && front[i].id == FirstIds(front, from)[k];
      assert topic[i].id == FirstIds(topic, from)[k];
    }
  }

  /** First occurrences rise, from above everything before `from` up to the highest. */
  lemma {:induction false} FirstIdsRise(topic: seq<Scan>, from: nat, low: nat, max: int)
    requires FirstsAscend(topic) && low < from <= |topic|
    requires forall i :: from <= i < |topic| ==> topic[i].id <= max
    ensures var ids := FirstIds(topic, from);
      Ascending(ids) && forall k :: 0 <= k < |ids| ==> topic[low].id < ids[k] <= max
    decreases |topic|
  {
    if |topic| > from {
      var front, last := topic[..|topic| - 1], topic[|topic| - 1];
      FirstsAscendFront(topic);
      FirstIdsRise(front, from, low, max);
      hide FirstsAscend, HasId;
      var ids := FirstIds(front, from);
      if !HasId(front, last.id) {
        forall k | 0 <= k < |ids| ensures ids[k] < last.id {
          FirstIdsOccur(front, from, k);
          var i :| from <= i < |front| && front[i].id == ids[k];
          assert topic[i].id == ids[k];
        }
      }
    }
  }

  /** Whatever the replay no longer shows lies far below what it shows: every new id in it has pushed it down. */
  lemma NotReplayedIsLow(topic: seq<Scan>, from: nat, low: nat, max: int)
    requires FirstsAscend(topic) && low < from <= |topic| && topic[low].id <= max
    requires forall i :: from <= i < |topic| ==> topic[i].id <= max
    ensures topic[low].id <= max - (|topic| - from - Repeats(topic, from))
  {
    FirstIdsCount(topic, from);
    FirstIdsRise(topic, from, low, max);
    AscendingFits(FirstIds(topic, from), topic[low].id, max);
  }

  /** If the record at `low` were above everything read, nothing read would be new. */
  lemma HighestIsReplayed(topic: seq<Scan>, from: nat, low: nat, max: int)
    requires FirstsAscend(topic) && low < from <= |topic| && Repeats(topic, from) < |topic| - from
    requires forall i :: from <= i < |topic| ==> topic[i].id <= max
    ensures topic[low].id < max
  {
    FirstIdsCount(topic, from);
    FirstIdsRise(topic, from, low, max);
    assert topic[low].id < FirstIds(topic, from)[0] <= max;
  }

  lemma TailIsPart(topic: seq<Scan>, from: nat, id: int)
    requires from <= |topic|
    ensures HasId(topic[from..], id) ==> HasId(topic, id)
  {
    if i :| 0 <= i < |topic[from..]| && topic[from..][i].id == id {
      assert topic[from + i].id == id;
    }
  }

  /** Among the last `span` records no more than `span - W - S + 1` repeats: then whatever first occurred before them
      lies below the window, at or below `b0 - W`. */
  lemma OlderIsBelowWindow(topic: seq<Scan>, last: nat, at: nat, window: int, slide: int, b0: int, max: int)
    requires FirstsAscend(topic) && 0 < slide <= window && at < last <= |topic|
    requires Repeats(topic, last) <= (|topic| - last) - window - slide + 1
    requires (forall i :: last <= i < |topic| ==> topic[i].id <= max) && b0 <= max < b0 + slide
    ensures topic[at].id <= b0 - window
  {
    HighestIsReplayed(topic, last, at, max);
    NotReplayedIsLow(topic, last, at, max);
  }

  /** So a scan of the window first occurred within those records. */
  lemma WindowIsRecent(topic: seq<Scan>, last: nat, window: int, slide: int, b0: int, max: int, id: int)
    returns (at: nat)
    requires FirstsAscend(topic) && 0 < slide <= window && last <= |topic|
    requires last > 0 ==> Repeats(topic, last) <= (|topic| - last) - window - slide + 1
    requires (forall i :: last <= i < |topic| ==> topic[i].id <= max) && b0 <= max < b0 + slide
    requires HasId(topic, id) && id > b0 - window
    ensures last <= at < |topic| && topic[at].id == id && !HasId(topic[..at], id)
  {
    at := FirstPlace(topic, id);
    hide HasId, FirstsAscend, Repeats;
    if at < last {
      OlderIsBelowWindow(topic, last, at, window, slide, b0, max);
      assert false;
    }
  }

  /** The replay bound. Read at least the last `2 W` records; with a slide no longer than the window and at most
      `W - S + 1` repeats among those, every published id in `(b0 - W, max]` is in what was read, `max` the highest
      id read and `b0` the boundary at or below it. */
  lemma ReplayHoldsTheWindow(topic: seq<Scan>, from: nat, window: int, slide: int, b0: int, max: int, id: int)
    requires FirstsAscend(topic) && 0 < slide <= window && from <= Max(0, |topic| - 2 * window)
    requires Repeats(topic, Max(0, |topic| - 2 * window)) <= window - slide + 1
    requires forall i :: from <= i < |topic| ==> topic[i].id <= max
    requires b0 <= max < b0 + slide && HasId(topic, id) && id > b0 - window
    ensures HasId(topic[from..], id) && id <= max
  {
    var last := Max(0, |topic| - 2 * window);
    var at :| 0 <= at < |topic| && topic[at].id == id;
    if at < last {
      OlderIsBelowWindow(topic, last, at, window, slide, b0, max);
      assert false;
    }
    assert topic[from..][at - from].id == id;
  }

  /** With a window of 1000 and a slide of 500, one republished relay batch of 500 rows stays within the bound. */
  lemma OneRepublishedBatchFits(topic: seq<Scan>, from: nat, b0: int, max: int, id: int)
    requires FirstsAscend(topic) && from <= Max(0, |topic| - 2000)
    requires Repeats(topic, Max(0, |topic| - 2000)) <= 500
    requires forall i :: from <= i < |topic| ==> topic[i].id <= max
    requires b0 <= max < b0 + 500 && HasId(topic, id) && id > b0 - 1000
    ensures HasId(topic[from..], id) && id <= max
  {
    hide FirstsAscend, HasId, Repeats;
    ReplayHoldsTheWindow(topic, from, 1000, 500, b0, max, id);
  }

  // ---- the bound is tight ------------------------------------------------------------------

  /** `1, 2, ..., n`, and then `n` again `copies` times. */
  function Stutter(n: nat, copies: nat, sku: Sku): seq<Scan>
  {
    seq(n + copies, i => Scan(if i < n then i + 1 else n, sku))
  }

  lemma {:induction false} StutterRepeats(n: nat, copies: nat, sku: Sku, from: nat)
    requires n > 0 && from <= n
    ensures Repeats(Stutter(n, copies, sku), from) == copies
    decreases copies, n
  {
    var topic := Stutter(n, copies, sku);
    if copies > 0 {
      var front := topic[..|topic| - 1];
      assert front == Stutter(n, copies - 1, sku);
      assert front[n - 1].id == n;
      StutterRepeats(n, copies - 1, sku, from);
    } else if from < n {
      var front := topic[..|topic| - 1];
      assert front == Stutter(n - 1, 0, sku);
      assert !HasId(front, n);
      if n > 1 { StutterRepeats(n - 1, 0, sku, from); }
    }
  }

  /** One repeat more is one too many: for every window and slide there is a topic with `W - S + 2` repeats among its
      last `2 W` records whose replay misses an id of the window. */
  lemma {:induction false} OneRepeatMoreMisses(window: int, slide: int, sku: Sku)
    returns (topic: seq<Scan>, max: int, id: int)
    requires 0 < slide <= window && window + slide > 2
    ensures FirstsAscend(topic) && |topic| >= 2 * window && Repeats(topic, |topic| - 2 * window) == window - slide + 2
    ensures (forall i :: 0 <= i < |topic| ==> topic[i].id <= max) && HasId(topic, max)
    ensures HasId(topic, id) && id > max - max % slide - window && !HasId(topic[|topic| - 2 * window..], id)
  {
    var n := 2 * window * slide + (slide - 1);
    LastBeforeBoundary(2 * window, slide);
    MulMonotone(1, slide, 2 * window);
    topic, max, id := StutteredTopic(n, window, slide, sku);
  }

  lemma {:induction false} StutteredTopic(n: int, window: int, slide: int, sku: Sku)
    returns (topic: seq<Scan>, max: int, id: int)
    requires 0 < slide <= window && window + slide > 2 && n >= 2 * window && n % slide == slide - 1
    ensures FirstsAscend(topic) && |topic| >= 2 * window && Repeats(topic, |topic| - 2 * window) == window - slide + 2
    ensures (forall i :: 0 <= i < |topic| ==> topic[i].id <= max) && HasId(topic, max)
    ensures HasId(topic, id) && id > max - max % slide - window && !HasId(topic[|topic| - 2 * window..], id)
  {
    var copies := window - slide + 2;
    topic, max, id := Stutter(n, copies, sku), n, n - window - slide + 2;
    StutterRepeats(n, copies, sku, |topic| - 2 * window);
    hide Repeats;
    StutterAscends(n, copies, sku);
    hide FirstsAscend;
    assert topic[n - 1].id == n && topic[id - 1].id == id;
    assert HasId(topic, n) && HasId(topic, id);
    assert !HasId(topic[|topic| - 2 * window..], id);
  }

  lemma StutterAscends(n: nat, copies: nat, sku: Sku)
    requires n > 0
    ensures FirstsAscend(Stutter(n, copies, sku))
  {
    var topic := Stutter(n, copies, sku);
    forall i | n <= i < |topic| ensures HasId(topic[..i], n) {
      assert topic[..i][n - 1].id == n;
    }
  }

  lemma LastBeforeBoundary(k: int, slide: int)
    requires slide > 0 && k >= 0
    ensures (k * slide + (slide - 1)) % slide == slide - 1
  {
    var m := k * slide + (slide - 1);
    var q := m / slide;
    assert m == q * slide + m % slide;
    assert (q + 1) * slide == q * slide + slide && (k + 1) * slide == k * slide + slide;
    if q < k { MulMonotone(q + 1, k, slide); }
    if q > k { MulMonotone(k + 1, q, slide); }
  }

  // ---- starting a pipeline over a source ---------------------------------------------------

  /** A source that joined at `from` and has read on from there, evicting as it must. It covers the window when the
      last `span` records, no more than the buffer has room for, hold at most `span - W - S + 1` repeats; or when it
      has not read more than `span`. A cold start has `span = 2 W`, its replay; rebuilding the pipeline later over
      the same source may use the whole buffer. */
  ghost predicate CoversWindow(p: Pipe, from: nat, span: nat, cfg: Config)
  {
    && from <= p.consumed <= |p.relay.topic| && span <= cfg.keep
    && p.buf == ApplyAll(EMPTY, p.relay.topic[from..p.consumed], cfg.keep)
    && from <= Max(0, p.consumed - span)
    && (p.consumed > span ==> Repeats(Seen(p), p.consumed - span) <= span - cfg.window - cfg.slide + 1)
  }

  lemma FirstsAscendPrefix(topic: seq<Scan>, n: nat)
    requires FirstsAscend(topic) && n <= |topic|
    ensures FirstsAscend(topic[..n])
  {
    var front := topic[..n];
    forall i, j | 0 <= j < i < |front| && !HasId(front[..i], front[i].id) ensures front[j].id < front[i].id {
      assert front[..i] == topic[..i];
    }
  }

  /** What the buffer is after reading from `from`, evictions and all. */
  lemma ReadFills(p: Pipe, from: nat, cfg: Config)
    requires RelayOk(p.relay) && from <= p.consumed <= |p.relay.topic|
    requires p.buf == ApplyAll(EMPTY, p.relay.topic[from..p.consumed], cfg.keep)
    ensures Valid(p.buf) && |p.buf.order| <= cfg.keep && p.buf.maxId >= 0
    ensures forall id :: id in p.buf.rows ==>
      HasId(Seen(p), id) && id in p.relay.log && p.buf.rows[id] == p.relay.log[id]
    ensures forall i :: from <= i < p.consumed ==> Seen(p)[i].id <= p.buf.maxId
  {
    var read := p.relay.topic[from..p.consumed];
    assert read == Seen(p)[from..];
    ReplayedIsLogged(p.relay, from, p.consumed);
    hide RelayOk;
    BufferIsTrue(read, p.relay.log, cfg.keep);
    hide ApplyAll, Valid;
    forall id | id in p.buf.rows ensures HasId(Seen(p), id) { TailIsPart(Seen(p), from, id); }
    forall i | from <= i < p.consumed ensures Seen(p)[i].id <= p.buf.maxId {
      assert read[i - from] == Seen(p)[i];
    }
  }

  lemma RecentInSlice(topic: seq<Scan>, log: Log, from: nat, at: nat, to: nat, keep: nat)
    requires from <= at < to <= |topic| && to - at <= keep && AllFrom(topic[from..to], log)
    requires !HasId(topic[..at], topic[at].id)
    ensures topic[at].id in ApplyAll(EMPTY, topic[from..to], keep).rows
  {
    hide ApplyAll, HasId, AllFrom;
    var read := topic[from..to];
    assert read[at - from] == topic[at] && read[..at - from] == topic[..at][from..];
    TailIsPart(topic[..at], from, topic[at].id);
    RecentIsHeld(read, log, keep, at - from);
  }

  /** A scan that first occurred within the last `keep` records read is in the buffer. */
  lemma RecentIsBuffered(p: Pipe, from: nat, cfg: Config, at: nat)
    requires RelayOk(p.relay) && from <= at < p.consumed <= |p.relay.topic| && p.consumed - at <= cfg.keep
    requires p.buf == ApplyAll(EMPTY, p.relay.topic[from..p.consumed], cfg.keep)
    requires !HasId(Seen(p)[..at], Seen(p)[at].id)
    ensures Seen(p)[at].id in p.buf.rows
  {
    ReplayedIsLogged(p.relay, from, p.consumed);
    hide RelayOk, ApplyAll, HasId, AllFrom;
    assert Seen(p)[..at] == p.relay.topic[..at];
    RecentInSlice(p.relay.topic, p.relay.log, from, at, p.consumed, cfg.keep);
  }

  lemma BufferCovers(p: Pipe, cfg: Config)
    requires p.consumed <= |p.relay.topic| && Valid(p.buf) && |p.buf.order| <= cfg.keep
    requires forall id :: id in p.buf.rows ==>
      HasId(Seen(p), id) && id in p.relay.log && p.buf.rows[id] == p.relay.log[id]
    requires forall id :: HasId(Seen(p), id) && id > cfg.start ==> id in p.buf.rows && id <= p.buf.maxId
    requires cfg.start <= p.buf.maxId && p.tail.lastId == cfg.start
    ensures BufferOk(p, cfg)
  {
    hide HasId, Valid, Seen;
  }

  lemma WindowIsBuffered(p: Pipe, from: nat, span: nat, cfg: Config, b0: int, id: int)
    requires RelayOk(p.relay) && 0 < cfg.slide <= cfg.window && CoversWindow(p, from, span, cfg)
    requires b0 <= p.buf.maxId < b0 + cfg.slide && HasId(Seen(p), id) && id > b0 - cfg.window
    ensures id in p.buf.rows && id <= p.buf.maxId
  {
    ReadFills(p, from, cfg);
    FirstsAscendPrefix(p.relay.topic, p.consumed);
    hide RelayOk, ApplyAll, FirstsAscend, Repeats, HasId;
    var at := WindowIsRecent(Seen(p), Max(0, p.consumed - span), cfg.window, cfg.slide, b0, p.buf.maxId, id);
    RecentIsBuffered(p, from, cfg, at);
  }

  /** Read, bootstrap, start: the pipeline begins with every consumed scan it will ever need in the buffer. */
  lemma ReplayBoots(p: Pipe, from: nat, span: nat, cfg: Config)
    requires RelayOk(p.relay) && 0 < cfg.slide <= cfg.window && CoversWindow(p, from, span, cfg)
    requires (cfg.start, cfg.first) == Bootstrap(p.buf.maxId, cfg.window, cfg.slide)
    requires p.tail == Start(cfg.start, cfg.first, cfg.slide)
    ensures Booted(p, cfg) && cfg.start <= Max(0, cfg.first - cfg.window)
  {
    ReadFills(p, from, cfg);
    var max := p.buf.maxId;
    var b0 := max - max % cfg.slide;
    BootstrapCoversFirst(max, cfg.window, cfg.slide);
    assert b0 <= max < b0 + cfg.slide;
    hide RelayOk, ApplyAll, Repeats, Valid, HasId, Bootstrap, BufferOk, Seen;
    forall id | HasId(Seen(p), id) && id > cfg.start ensures id in p.buf.rows && id <= max {
      WindowIsBuffered(p, from, span, cfg, b0, id);
    }
    BufferCovers(p, cfg);
  }

  lemma ReplayedIsLogged(s: Relay.State, from: nat, consumed: nat)
    requires RelayOk(s) && from <= consumed <= |s.topic|
    ensures AllFrom(s.topic[from..consumed], s.log)
  {
  }

  /** The whole path: any relay history from an empty log, a reader joining late, bootstrap over what it holds, at once
      or after any amount of reading, as long as repeats leave the window in reach, and any further run of commits,
      passes, crashes, reads and polls. Every window published is a recount of the scan log, and the scans counted are
      exactly the committed ones above the start up to the cursor. */
  lemma StartedPipelineCountsTheLog(empty: Relay.State, steps: seq<Relay.Step>, p: Pipe, from: nat, span: nat,
                                    events: seq<Event>, p': Pipe, cfg: Config)
    requires Untouched(empty) && RelayRun(empty, steps, p.relay, cfg.batch, cfg.relayGrace)
    requires 0 < cfg.slide <= cfg.window && CoversWindow(p, from, span, cfg)
    requires (cfg.start, cfg.first) == Bootstrap(p.buf.maxId, cfg.window, cfg.slide)
    requires p.tail == Start(cfg.start, cfg.first, cfg.slide)
    requires PipeRun(p, events, p', cfg)
    ensures EmittedLog(p'.tail, p'.relay.log, cfg.start) && InSequence(p'.tail.out)
    ensures WindowsCountLog(FeedAll(Fresh(cfg.start), p'.tail.out, cfg.window).windows, Marks(p'.tail.out),
                            p'.relay.log, cfg.window)
    ensures forall b :: b in Marks(p'.tail.out) <==> OnGrid(cfg.first, cfg.slide, b) && b <= p'.tail.lastId
  {
    TopicCoversLog(empty, steps, p.relay, cfg.batch, cfg.relayGrace);
    hide RelayRun, RelayOk, CoversWindow, PipeRun, Bootstrap, WindowsCountLog, InSequence, OnGrid;
    ReplayBoots(p, from, span, cfg);
    hide Booted;
    ExactlyOnce(p, events, p', cfg);
    WindowsCountTheLog(p, events, p', cfg);
  }
}
