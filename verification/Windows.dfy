/** The incremental window over the tail's output, and the running count per SKU that each slide updates. */
module Windows {
  import opened Collections
  import opened Skus
  import opened Relay
  import opened TailIngest
  import opened TailRuns

  datatype Slide = Slide(start: int, end: int, added: seq<Sku>, evicted: seq<Sku>)

  type Counter = map<Sku, int>

  datatype WindowCounts = WindowCounts(start: int, end: int, counts: Counter)

  // ---- recounting --------------------------------------------------------------------------

  /** The SKUs of the scans with id in `(lo, hi]`. */
  function Within(scans: seq<Scan>, lo: int, hi: int): seq<Sku>
  {
    if scans == [] then [] else
      (if lo < scans[0].id <= hi then [scans[0].sku] else []) + Within(scans[1..], lo, hi)
  }

  function Above(scans: seq<Scan>, lo: int): seq<Scan>
  {
    if scans == [] then [] else (if scans[0].id > lo then [scans[0]] else []) + Above(scans[1..], lo)
  }

  /** How often each SKU was scanned with an id in `(lo, hi]`: a plain recount. */
  ghost function Recount(scans: seq<Scan>, lo: int, hi: int): multiset<Sku>
  {
    multiset(Within(scans, lo, hi))
  }

  lemma {:induction false} WithinAppend(a: seq<Scan>, b: seq<Scan>, lo: int, hi: int)
    ensures Within(a + b, lo, hi) == Within(a, lo, hi) + Within(b, lo, hi)
  {
    if a == [] {
      assert a + b == b;
    } else {
      assert (a + b)[1..] == a[1..] + b;
      WithinAppend(a[1..], b, lo, hi);
    }
  }

  lemma {:induction false} AboveAppend(a: seq<Scan>, b: seq<Scan>, lo: int)
    ensures Above(a + b, lo) == Above(a, lo) + Above(b, lo)
  {
    if a == [] {
      assert a + b == b;
    } else {
      assert (a + b)[1..] == a[1..] + b;
      AboveAppend(a[1..], b, lo);
    }
  }

  /** Two adjacent windows recount to their union. */
  lemma {:induction false} RecountSplits(scans: seq<Scan>, lo: int, mid: int, hi: int)
    requires lo <= mid <= hi
    ensures Recount(scans, lo, hi) == Recount(scans, lo, mid) + Recount(scans, mid, hi)
  {
    if scans != [] { RecountSplits(scans[1..], lo, mid, hi); }
  }

  /** Dropping scans below a window does not change its contents. */
  lemma {:induction false} WithinOfAbove(scans: seq<Scan>, cut: int, lo: int, hi: int)
    requires cut <= lo
    ensures Within(Above(scans, cut), lo, hi) == Within(scans, lo, hi)
  {
    if scans != [] {
      WithinOfAbove(scans[1..], cut, lo, hi);
      WithinAppend(if scans[0].id > cut then [scans[0]] else [], Above(scans[1..], cut), lo, hi);
      WithinOne(scans[0], lo, hi);
    }
  }

  lemma WithinOne(scan: Scan, lo: int, hi: int)
    ensures Within([scan], lo, hi) == if lo < scan.id <= hi then [scan.sku] else []
  {
    assert Within([scan][1..], lo, hi) == [];
  }

  lemma {:induction false} WithinNone(scans: seq<Scan>, lo: int, hi: int)
    requires forall i :: 0 <= i < |scans| ==> !(lo < scans[i].id <= hi)
    ensures Within(scans, lo, hi) == []
  {
    if scans != [] { WithinNone(scans[1..], lo, hi); }
  }

  lemma {:induction false} AboveTwice(scans: seq<Scan>, lo: int, lo': int)
    requires lo <= lo'
    ensures Above(Above(scans, lo), lo') == Above(scans, lo')
  {
    if scans != [] {
      AboveTwice(scans[1..], lo, lo');
      AboveAppend(if scans[0].id > lo then [scans[0]] else [], Above(scans[1..], lo), lo');
      assert Above([scans[0]][1..], lo') == [];
    }
  }

  lemma {:induction false} AboveAll(scans: seq<Scan>, lo: int)
    requires forall i :: 0 <= i < |scans| ==> scans[i].id > lo
    ensures Above(scans, lo) == scans
  {
    if scans != [] { AboveAll(scans[1..], lo); }
  }

  lemma {:induction false} AboveKeepsOrder(scans: seq<Scan>, lo: int)
    requires IdsAscend(scans)
    ensures IdsAscend(Above(scans, lo))
    ensures forall i :: 0 <= i < |Above(scans, lo)| ==> Above(scans, lo)[i].id > lo && Above(scans, lo)[i] in scans
  {
    if scans != [] {
      AboveKeepsOrder(scans[1..], lo);
      var rest := Above(scans[1..], lo);
      forall i | 0 <= i < |rest| ensures rest[i].id > scans[0].id {
        var j :| 0 <= j < |scans[1..]| && scans[1..][j] == rest[i];
        assert scans[j + 1] == rest[i];
      }
    }
  }

  // ---- the window filter -------------------------------------------------------------------

  /** Pop from the front while the front is at or below `upto`: what was popped, and what remains. */
  function PopOld(buffer: seq<Scan>, upto: int): (seq<Sku>, seq<Scan>)
  {
    if buffer != [] && buffer[0].id <= upto then
      var (popped, rest) := PopOld(buffer[1..], upto);
      ([buffer[0].sku] + popped, rest)
    else ([], buffer)
  }

  /** In id order, popping the front removes exactly the scans at or below `upto`. */
  lemma {:induction false} PopOldIsExact(buffer: seq<Scan>, lo: int, upto: int)
    requires IdsAscend(buffer) && forall i :: 0 <= i < |buffer| ==> buffer[i].id > lo
    ensures PopOld(buffer, upto) == (Within(buffer, lo, upto), Above(buffer, upto))
  {
    if buffer != [] {
      if buffer[0].id <= upto {
        PopOldIsExact(buffer[1..], lo, upto);
        var rest := Above(buffer[1..], upto);
        assert [] + rest == rest;
      } else {
        assert forall i :: 0 <= i < |buffer| ==> buffer[i].id > upto;
        WithinNone(buffer, lo, upto);
        AboveAll(buffer, upto);
      }
    }
  }

  class WindowFilter {
    const window: int
    var buffer: seq<Scan>
    var lastBoundary: int

    constructor (startAfter: int, window: int)
      ensures buffer == [] && lastBoundary == startAfter && this.window == window
    {
      this.window, buffer, lastBoundary := window, [], startAfter;
    }

    method OnScan(scan: Scan)
      modifies this`buffer
      ensures buffer == old(buffer) + [scan]
    {
      buffer := buffer + [scan];
    }

    /** The SKUs of the buffered scans with id in `(lastBoundary, b]`. */
    method AddedSince(b: int) returns (added: seq<Sku>)
      ensures added == Within(buffer, lastBoundary, b)
    {
      added := [];
      for n := 0 to |buffer|
        invariant added == Within(buffer[..n], lastBoundary, b)
      {
        assert buffer[..n + 1] == buffer[..n] + [buffer[n]];
        WithinAppend(buffer[..n], [buffer[n]], lastBoundary, b);
        WithinOne(buffer[n], lastBoundary, b);
        if lastBoundary < buffer[n].id <= b {
          added := added + [buffer[n].sku];
        }
      }
      assert buffer[..|buffer|] == buffer;
    }

    method OnWatermark(b: int) returns (slide: Slide)
      modifies this
      ensures lastBoundary == b && buffer == PopOld(old(buffer), b - window).1
      ensures slide == Slide(Max(0, b - window), b, Within(old(buffer), old(lastBoundary), b),
                             PopOld(old(buffer), b - window).0)
    {
      var added := AddedSince(b);
      var evicted: seq<Sku> := [];
      ghost var before := PopOld(buffer, b - window);
      assert evicted + before.0 == before.0;
      while buffer != [] && buffer[0].id <= b - window
        invariant before == (evicted + PopOld(buffer, b - window).0, PopOld(buffer, b - window).1)
        decreases |buffer|
      {
        assert evicted + PopOld(buffer, b - window).0
            == (evicted + [buffer[0].sku]) + PopOld(buffer[1..], b - window).0;
        evicted := evicted + [buffer[0].sku];
        buffer := buffer[1..];
      }
      lastBoundary := b;
      slide := Slide(Max(0, b - window), b, added, evicted);
    }
  }

  // ---- the aggregation filter --------------------------------------------------------------

  /** Add `step` for every occurrence of a SKU in the list. */
  function Tally(counts: Counter, skus: seq<Sku>, step: int): Counter
  {
    if skus == [] then counts else
      var c := Tally(counts, skus[..|skus| - 1], step);
      var sku := skus[|skus| - 1];
      c[sku := At(c, sku) + step]
  }

  function Positive(counts: Counter): Counter
  {
    map sku | sku in counts && counts[sku] > 0 :: counts[sku]
  }

  class AggregationFilter {
    var counts: Counter

    constructor ()
      ensures counts == map[]
    {
      counts := map[];
    }

    method Tallied(skus: seq<Sku>, step: int)
      modifies this
      ensures counts == Tally(old(counts), skus, step)
    {
      for n := 0 to |skus|
        invariant counts == Tally(old(counts), skus[..n], step)
      {
        assert skus[..n + 1][..n] == skus[..n];
        counts := counts[skus[n] := At(counts, skus[n]) + step];
      }
      assert skus[..|skus|] == skus;
    }

    method OnSlide(slide: Slide) returns (w: WindowCounts)
      modifies this
      ensures counts == Positive(Tally(Tally(old(counts), slide.added, 1), slide.evicted, -1))
      ensures w == WindowCounts(slide.start, slide.end, counts)
    {
      Tallied(slide.added, 1);
      Tallied(slide.evicted, -1);
      ghost var all := counts;
      var spent := set sku | sku in counts && counts[sku] <= 0;
      while spent != {}
        invariant forall sku :: sku in spent ==> sku in all && all[sku] <= 0
        invariant forall sku :: sku in counts <==> sku in all && (all[sku] > 0 || sku in spent)
        invariant forall sku :: sku in counts ==> counts[sku] == all[sku]
        decreases |spent|
      {
        var sku :| sku in spent;
        spent := spent - {sku};
        counts := counts - {sku};
      }
      assert counts == Positive(all);
      w := WindowCounts(slide.start, slide.end, counts);
    }
  }

  lemma {:induction false} TallyCounts(counts: Counter, skus: seq<Sku>, step: int, sku: Sku)
    requires step == 1 || step == -1
    ensures step == 1 ==> At(Tally(counts, skus, step), sku) == At(counts, sku) + multiset(skus)[sku]
    ensures step == -1 ==> At(Tally(counts, skus, step), sku) == At(counts, sku) - multiset(skus)[sku]
  {
    if skus != [] {
      var front, last := skus[..|skus| - 1], skus[|skus| - 1];
      TallyCounts(counts, front, step, sku);
      assert skus == front + [last];
      var n := multiset(front)[sku];
      assert multiset(skus)[sku] == if sku == last then n + 1 else n;
    }
  }

  // ---- the two filters over the tail's output ----------------------------------------------

  datatype Flow = Flow(buffer: seq<Scan>, lastBoundary: int, counts: Counter, windows: seq<WindowCounts>)

  function Fresh(startAfter: int): Flow
  {
    Flow([], startAfter, map[], [])
  }

  function SlideCounts(f: Flow, b: int, window: int): Counter
  {
    Tally(Tally(f.counts, Within(f.buffer, f.lastBoundary, b), 1), PopOld(f.buffer, b - window).0, -1)
  }

  /** One item through both filters, as `OnScan`, `OnWatermark` and `OnSlide` state it. */
  function Feed(f: Flow, item: Item, window: int): Flow
  {
    match item
    case Emit(scan) => f.(buffer := f.buffer + [scan])
    case Mark(b) =>
      var counts := Positive(SlideCounts(f, b, window));
      Flow(PopOld(f.buffer, b - window).1, b, counts, f.windows + [WindowCounts(Max(0, b - window), b, counts)])
  }

  function FeedAll(f: Flow, out: seq<Item>, window: int): Flow
  {
    if out == [] then f else Feed(FeedAll(f, out[..|out| - 1], window), out[|out| - 1], window)
  }

  /** The classes and the value form agree. */
  method Through(w: WindowFilter, a: AggregationFilter, item: Item, ghost windows: seq<WindowCounts>)
    returns (r: Option<WindowCounts>)
    modifies w, a
    ensures var f := Feed(Flow(old(w.buffer), old(w.lastBoundary), old(a.counts), windows), item, w.window);
      && w.buffer == f.buffer && w.lastBoundary == f.lastBoundary && a.counts == f.counts
      && (if r.Some? then f.windows == windows + [r.value] else f.windows == windows)
  {
    match item
    case Emit(scan) =>
      w.OnScan(scan);
      r := None;
    case Mark(b) =>
      var slide := w.OnWatermark(b);
      var counts := a.OnSlide(slide);
      r := Some(counts);
  }

  /** The scans emitted, in order. */
  function Emitted(out: seq<Item>): seq<Scan>
  {
    if out == [] then [] else
      Emitted(out[..|out| - 1]) + (if out[|out| - 1].Emit? then [out[|out| - 1].scan] else [])
  }

  function Marks(out: seq<Item>): seq<int>
  {
    if out == [] then [] else
      Marks(out[..|out| - 1]) + (if out[|out| - 1].Mark? then [out[|out| - 1].boundary] else [])
  }

  /** A counter holds exactly the SKUs of `m`, each with its multiplicity. */
  ghost predicate Holds(counts: Counter, m: multiset<Sku>)
  {
    forall sku :: (sku in counts <==> sku in m) && (sku in counts ==> counts[sku] == m[sku])
  }

  /** A multiset of SKUs as a counter. */
  ghost function Counting(m: multiset<Sku>): Counter
  {
    map sku | sku in m :: m[sku]
  }

  lemma HoldsOne(counts: Counter, m: multiset<Sku>)
    ensures Holds(counts, m) <==> counts == Counting(m)
  {
    if Holds(counts, m) {
      assert counts.Keys == Counting(m).Keys;
    } else {
      assert exists sku :: !((sku in counts <==> sku in m) && (sku in counts ==> counts[sku] == m[sku]));
    }
  }

  /** The tail's output from `start` on: in rank order, and nothing at or below the start. */
  ghost predicate From(out: seq<Item>, start: int)
  {
    InSequence(out) && forall i :: 0 <= i < |out| ==> Rank(out[i]) > 2 * start + 1
  }

  lemma FromFront(out: seq<Item>, start: int)
    requires From(out, start) && out != []
    ensures var front, last := out[..|out| - 1], out[|out| - 1];
      From(front, start) && forall i :: 0 <= i < |front| ==> Rank(front[i]) < Rank(last)
  {
  }

  /** The emitted scans rise in id and are the items emitted. */
  lemma {:induction false} EmittedFrom(out: seq<Item>, start: int)
    requires From(out, start)
    ensures IdsAscend(Emitted(out))
    ensures forall s :: s in Emitted(out) <==> Emit(s) in out
    ensures forall i :: 0 <= i < |Emitted(out)| ==> Emitted(out)[i].id > start
  {
    if out != [] {
      var front, last := out[..|out| - 1], out[|out| - 1];
      FromFront(out, start);
      EmittedFrom(front, start);
      assert out == front + [last];
      var scans := Emitted(front);
      if last.Emit? {
        forall i | 0 <= i < |scans| ensures scans[i].id < last.scan.id {
          assert Emit(scans[i]) in front;
        }
      }
      forall s ensures s in Emitted(out) <==> Emit(s) in out {
        InAppend(front, last, Emit(s));
      }
    }
  }

  /** The running state after any prefix: the buffer is the emitted scans above the window's lower edge, and the
      counts are a recount of the window. */
  ghost predicate Current(f: Flow, scans: seq<Scan>, start: int, window: int)
  {
    && f.lastBoundary >= start
    && f.buffer == Above(scans, f.lastBoundary - window)
    && Holds(f.counts, Recount(scans, f.lastBoundary - window, f.lastBoundary))
  }

  /** A counter holding `was`, updated by `added` and then by minus `evicted`, counts `now`. */
  lemma TallyBalance(counts: Counter, added: seq<Sku>, evicted: seq<Sku>, was: multiset<Sku>, now: multiset<Sku>)
    requires Holds(counts, was) && was + multiset(added) == multiset(evicted) + now
    ensures var raw := Tally(Tally(counts, added, 1), evicted, -1);
      (forall sku :: At(raw, sku) == now[sku]) && Holds(Positive(raw), now)
  {
    var mid := Tally(counts, added, 1);
    var raw := Tally(mid, evicted, -1);
    forall sku ensures At(raw, sku) == now[sku] {
      TallyCounts(counts, added, 1, sku);
      TallyCounts(mid, evicted, -1, sku);
      assert (was + multiset(added))[sku] == (multiset(evicted) + now)[sku];
    }
    hide Tally;
    forall sku
      ensures (sku in Positive(raw) <==> sku in now) && (sku in Positive(raw) ==> Positive(raw)[sku] == now[sku])
    {
      assert At(raw, sku) == now[sku];
    }
  }

  /** The slide's added and evicted turn the recount of one window into that of the next; no count goes negative. */
  lemma SlideIsRecount(f: Flow, scans: seq<Scan>, start: int, window: int, b: int)
    requires Current(f, scans, start, window) && IdsAscend(scans) && window >= 0 && b > f.lastBoundary
    ensures var raw := SlideCounts(f, b, window);
      (forall sku :: At(raw, sku) == Recount(scans, b - window, b)[sku])
      && Holds(Positive(raw), Recount(scans, b - window, b))
    ensures PopOld(f.buffer, b - window).1 == Above(scans, b - window)
  {
    hide Within, Above, PopOld, Tally, Holds, IdsAscend, At, Positive;
    var last := f.lastBoundary;
    WithinOfAbove(scans, last - window, last, b);
    AboveKeepsOrder(scans, last - window);
    PopOldIsExact(f.buffer, last - window, b - window);
    WithinOfAbove(scans, last - window, last - window, b - window);
    AboveTwice(scans, last - window, b - window);
    RecountSplits(scans, last - window, last, b);
    RecountSplits(scans, last - window, b - window, b);
    TallyBalance(f.counts, Within(f.buffer, last, b), PopOld(f.buffer, b - window).0,
      Recount(scans, last - window, last), Recount(scans, b - window, b));
  }

  lemma WindowUnmoved(scans: seq<Scan>, scan: Scan, lo: int, hi: int)
    requires scan.id > hi
    ensures Within(scans + [scan], lo, hi) == Within(scans, lo, hi)
  {
    WithinAppend(scans, [scan], lo, hi);
    WithinOne(scan, lo, hi);
  }

  /** Counting from 0 or from a negative lower edge is the same: ids are positive. */
  lemma WindowFromZero(scans: seq<Scan>, lo: int, hi: int)
    requires forall i :: 0 <= i < |scans| ==> scans[i].id > 0
    ensures Within(scans, lo, hi) == Within(scans, Max(0, lo), hi)
  {
    if lo < 0 { WithinShift(scans, lo, hi); }
  }

  lemma {:induction false} WithinShift(scans: seq<Scan>, lo: int, hi: int)
    requires lo < 0 && forall i :: 0 <= i < |scans| ==> scans[i].id > 0
    ensures Within(scans, lo, hi) == Within(scans, 0, hi)
  {
    if scans != [] { WithinShift(scans[1..], lo, hi); }
  }

  /** Each published window, against everything the tail has emitted, before and after it. */
  ghost predicate Exact(windows: seq<WindowCounts>, marks: seq<int>, scans: seq<Scan>, window: int)
  {
    && |windows| == |marks|
    && forall k :: 0 <= k < |windows| ==>
          && windows[k].end == marks[k] && windows[k].start == Max(0, marks[k] - window)
          && Holds(windows[k].counts, Recount(scans, windows[k].start, windows[k].end))
  }

  lemma ScanFeeds(f: Flow, scans: seq<Scan>, marks: seq<int>, scan: Scan, start: int, window: int)
    requires start >= 0 && window >= 0 && f.lastBoundary < scan.id
    requires forall k :: 0 <= k < |marks| ==> marks[k] < scan.id
    requires Current(f, scans, start, window) && Exact(f.windows, marks, scans, window)
    ensures var f' := Feed(f, Emit(scan), window);
      && f'.lastBoundary == f.lastBoundary
      && Current(f', scans + [scan], start, window) && Exact(f'.windows, marks, scans + [scan], window)
  {
    hide Within, Holds;
    var b := f.lastBoundary;
    AboveAppend(scans, [scan], b - window);
    assert Above([scan], b - window) == [scan] by { AboveAll([scan], b - window); }
    hide Above;
    WindowUnmoved(scans, scan, b - window, b);
    forall k | 0 <= k < |f.windows|
      ensures Recount(scans + [scan], f.windows[k].start, f.windows[k].end)
           == Recount(scans, f.windows[k].start, f.windows[k].end)
    {
      WindowUnmoved(scans, scan, f.windows[k].start, f.windows[k].end);
    }
  }

  lemma MarkFeeds(f: Flow, scans: seq<Scan>, marks: seq<int>, b: int, start: int, window: int)
    requires start >= 0 && window >= 0 && IdsAscend(scans) && f.lastBoundary < b
    requires forall i :: 0 <= i < |scans| ==> scans[i].id > start
    requires Current(f, scans, start, window) && Exact(f.windows, marks, scans, window)
    ensures var f' := Feed(f, Mark(b), window);
      f'.lastBoundary == b && Current(f', scans, start, window) && Exact(f'.windows, marks + [b], scans, window)
  {
    hide PopOld, SlideCounts, Within, Above, Holds, Positive;
    SlideIsRecount(f, scans, start, window, b);
    WindowFromZero(scans, b - window, b);
  }

  /** The boundaries marked are the marks, rising, and below whatever comes next. */
  lemma {:induction false} MarksFrom(out: seq<Item>, start: int)
    requires From(out, start)
    ensures Ascending(Marks(out))
    ensures forall b :: b in Marks(out) <==> Mark(b) in out
    ensures forall k :: 0 <= k < |Marks(out)| ==> Marks(out)[k] > start
  {
    if out != [] {
      var front, last := out[..|out| - 1], out[|out| - 1];
      FromFront(out, start);
      MarksFrom(front, start);
      assert out == front + [last];
      var marks := Marks(front);
      if last.Mark? {
        forall k | 0 <= k < |marks| ensures marks[k] < last.boundary {
          assert Mark(marks[k]) in front;
        }
      }
      forall b ensures b in Marks(out) <==> Mark(b) in out {
        InAppend(front, last, Mark(b));
      }
    }
  }

  lemma MarksBelow(front: seq<Item>, last: Item, start: int, k: nat)
    requires From(front, start) && k < |Marks(front)|
    requires forall i :: 0 <= i < |front| ==> Rank(front[i]) < Rank(last)
    ensures 2 * Marks(front)[k] + 1 < Rank(last)
  {
    MarksFrom(front, start);
    assert Mark(Marks(front)[k]) in front;
  }

  function LastMark(marks: seq<int>, start: int): int
  {
    if marks == [] then start else marks[|marks| - 1]
  }

  /** Where the two filters stand after the tail's output so far. */
  ghost predicate UpToDate(f: Flow, out: seq<Item>, start: int, window: int)
  {
    && Current(f, Emitted(out), start, window)
    && Exact(f.windows, Marks(out), Emitted(out), window)
    && f.lastBoundary == LastMark(Marks(out), start)
  }

  lemma FeedKeeps(f: Flow, out: seq<Item>, start: int, window: int)
    requires From(out, start) && start >= 0 && window >= 0 && out != []
    requires UpToDate(f, out[..|out| - 1], start, window)
    ensures UpToDate(Feed(f, out[|out| - 1], window), out, start, window)
  {
    var front, last := out[..|out| - 1], out[|out| - 1];
    var marks := Marks(front);
    assert Rank(last) > 2 * start + 1;
    FromFront(out, start);
    EmittedFrom(front, start);
    var scans := Emitted(front);
    assert Emitted(out) == if last.Emit? then scans + [last.scan] else scans;
    assert Marks(out) == if last.Mark? then marks + [last.boundary] else marks;
    hide Current, Exact, From, IdsAscend, Feed, Emitted, Marks;
    forall k | 0 <= k < |marks| ensures 2 * marks[k] + 1 < Rank(last) {
      MarksBelow(front, last, start, k);
    }
    match last
    case Emit(scan) =>
      ScanFeeds(f, scans, marks, scan, start, window);
    case Mark(b) =>
      MarkFeeds(f, scans, marks, b, start, window);
  }

  /** Every window produced for a boundary equals a plain recount of the scans emitted with an id in
      `(max(0, b - W), b]`, whatever the tail emitted and however the slide compares with the window. */
  lemma {:induction false} IncrementalEqualsRecount(out: seq<Item>, start: int, window: int)
    requires From(out, start) && start >= 0 && window >= 0
    ensures UpToDate(FeedAll(Fresh(start), out, window), out, start, window)
    decreases |out|
  {
    if out != [] {
      FromFront(out, start);
      hide From, UpToDate;
      IncrementalEqualsRecount(out[..|out| - 1], start, window);
      FeedKeeps(FeedAll(Fresh(start), out[..|out| - 1], window), out, start, window);
    }
  }
}
