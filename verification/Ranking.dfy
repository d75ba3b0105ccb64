/** Ranking a window's counts, and handing the newest ranking to the read path. */
module Ranking {
  import opened Collections
  import opened Skus
  import opened Windows

  datatype Entry = Entry(sku: Sku, count: int)

  /** More scans first; among equals, the lower SKU: the order of the key `(-count, sku)`. */
  predicate Before(a: Entry, b: Entry)
  {
    a.count > b.count || (a.count == b.count && Less(a.sku, b.sku))
  }

  lemma BeforeTransitive(a: Entry, b: Entry, c: Entry)
    requires Before(a, b) && Before(b, c)
    ensures Before(a, c)
  {
    if a.count == b.count == c.count { LessTransitive(a.sku, b.sku, c.sku); }
  }

  lemma BeforeIrreflexive(a: Entry)
    ensures !Before(a, a)
  {
    LessIrreflexive(a.sku);
  }

  lemma BeforeTotal(a: Entry, b: Entry)
    requires a.sku != b.sku
    ensures Before(a, b) || Before(b, a)
  {
    LessTotal(a.sku, b.sku);
  }

  ghost predicate InOrder(s: seq<Entry>)
  {
    forall i, j :: 0 <= i < j < |s| ==> Before(s[i], s[j])
  }

  ghost predicate Names(s: seq<Entry>, sku: Sku)
  {
    exists i :: 0 <= i < |s| && s[i].sku == sku
  }

  /** The ranking of `counts` cut at `depth`: in order, true to the counts, and everything left out comes after
      everything listed, and only for want of room. */
  ghost predicate Ranks(top: seq<Entry>, counts: Counter, depth: nat)
  {
    && InOrder(top) && |top| <= depth
    && (forall i :: 0 <= i < |top| ==> top[i].sku in counts && top[i].count == counts[top[i].sku])
    && (forall sku :: sku in counts ==>
          Names(top, sku) || (|top| == depth && forall i :: 0 <= i < |top| ==> Before(top[i], Entry(sku, counts[sku]))))
  }

  lemma FirstIsBest(top: seq<Entry>, counts: Counter, depth: nat, sku: Sku)
    requires Ranks(top, counts, depth) && depth > 0 && sku in counts
    ensures |top| > 0 && (top[0].sku == sku || Before(top[0], Entry(sku, counts[sku])))
  {
    if Names(top, sku) {
      var i :| 0 <= i < |top| && top[i].sku == sku;
      assert top[i] == Entry(sku, counts[sku]);
    }
  }

  lemma DropBest(top: seq<Entry>, counts: Counter, depth: nat)
    requires Ranks(top, counts, depth) && |top| > 0
    ensures Ranks(top[1..], counts - {top[0].sku}, depth - 1)
  {
    var rest, left := top[1..], counts - {top[0].sku};
    forall i | 0 <= i < |rest| ensures rest[i].sku in left {
      if rest[i].sku == top[0].sku { BeforeIrreflexive(top[0]); }
    }
    forall sku | sku in left
      ensures Names(rest, sku) ||
        (|rest| == depth - 1 && forall i :: 0 <= i < |rest| ==> Before(rest[i], Entry(sku, left[sku])))
    {
      if Names(top, sku) {
        var i :| 0 <= i < |top| && top[i].sku == sku;
        assert rest[i - 1].sku == sku;
      }
    }
  }

  /** The ranking is determined by the counts. */
  lemma {:induction false} RankingUnique(s: seq<Entry>, t: seq<Entry>, counts: Counter, depth: nat)
    requires Ranks(s, counts, depth) && Ranks(t, counts, depth)
    ensures s == t
    decreases depth
  {
    if depth > 0 && |s| > 0 {
      FirstIsBest(t, counts, depth, s[0].sku);
      FirstIsBest(s, counts, depth, t[0].sku);
      if s[0].sku != t[0].sku {
        BeforeTransitive(s[0], t[0], s[0]);
        BeforeIrreflexive(s[0]);
      }
      DropBest(s, counts, depth);
      DropBest(t, counts, depth);
      RankingUnique(s[1..], t[1..], counts - {s[0].sku}, depth - 1);
    } else if |t| > 0 {
      FirstIsBest(s, counts, depth, t[0].sku);
    }
  }

  /** Every SKU counted, in order. */
  ghost predicate RanksAll(all: seq<Entry>, counts: Counter)
  {
    && InOrder(all)
    && (forall i :: 0 <= i < |all| ==> all[i].sku in counts && all[i].count == counts[all[i].sku])
    && (forall sku :: sku in counts ==> Names(all, sku))
  }

  /** `sorted(counts.items(), key=(-count, sku))[:depth]`. */
  method Rank(counts: Counter, depth: nat) returns (top: seq<Entry>)
    ensures Ranks(top, counts, depth)
    ensures forall i :: 0 <= i < |top| ==> top[i].sku in counts && top[i].count == counts[top[i].sku]
    ensures forall i, j :: 0 <= i < j < |top| ==>
      top[i].count > top[j].count || (top[i].count == top[j].count && Less(top[i].sku, top[j].sku))
    ensures forall sku :: sku in counts && (forall i :: 0 <= i < |top| ==> top[i].sku != sku) ==>
      && |top| == depth
      && forall i :: 0 <= i < |top| ==>
           top[i].count > counts[sku] || (top[i].count == counts[sku] && Less(top[i].sku, sku))
  {
    var all: seq<Entry> := [];
    var left := counts.Keys;
    while left != {}
      invariant left <= counts.Keys
      invariant RanksAll(all, counts - left)
      decreases left
    {
      var sku :| sku in left;
      all := Insert(all, Entry(sku, counts[sku]), counts - left);
      assert (counts - left)[sku := counts[sku]] == counts - (left - {sku});
      left := left - {sku};
    }
    assert counts - left == counts;
    top := all[..Min(depth, |all|)];
    CutRanks(all, counts, depth);
    RanksMeans(top, counts, depth);
  }

  lemma RanksMeans(top: seq<Entry>, counts: Counter, depth: nat)
    requires Ranks(top, counts, depth)
    ensures forall i :: 0 <= i < |top| ==> top[i].sku in counts && top[i].count == counts[top[i].sku]
    ensures forall i, j :: 0 <= i < j < |top| ==>
      top[i].count > top[j].count || (top[i].count == top[j].count && Less(top[i].sku, top[j].sku))
    ensures forall sku :: sku in counts && (forall i :: 0 <= i < |top| ==> top[i].sku != sku) ==>
      && |top| == depth
      && forall i :: 0 <= i < |top| ==>
           top[i].count > counts[sku] || (top[i].count == counts[sku] && Less(top[i].sku, sku))
  {
    forall i, j | 0 <= i < j < |top|
      ensures top[i].count > top[j].count || (top[i].count == top[j].count && Less(top[i].sku, top[j].sku))
    {
      assert Before(top[i], top[j]);
    }
    hide Less;
  }

  lemma CutRanks(all: seq<Entry>, counts: Counter, depth: nat)
    requires RanksAll(all, counts)
    ensures Ranks(all[..Min(depth, |all|)], counts, depth)
  {
    var top := all[..Min(depth, |all|)];
    forall sku | sku in counts
      ensures Names(top, sku) ||
        (|top| == depth && forall i :: 0 <= i < |top| ==> Before(top[i], Entry(sku, counts[sku])))
    {
      assert Names(all, sku);
      var i :| 0 <= i < |all| && all[i].sku == sku;
      assert all[i] == Entry(sku, counts[sku]);
      if i < |top| { assert top[i].sku == sku; }
    }
  }

  method Insert(s: seq<Entry>, e: Entry, ghost counts: Counter) returns (r: seq<Entry>)
    requires e.sku !in counts && RanksAll(s, counts)
    ensures RanksAll(r, counts[e.sku := e.count])
  {
    var n := 0;
    while n < |s| && Before(s[n], e)
      invariant 0 <= n <= |s|
      invariant forall i :: 0 <= i < n ==> Before(s[i], e)
    {
      n := n + 1;
    }
    r := s[..n] + [e] + s[n..];
    forall i | n <= i < |s| ensures Before(e, s[i]) {
      BeforeTotal(s[n], e);
      if n < i { BeforeTransitive(e, s[n], s[i]); }
    }
    InsertedNames(s, n, e, counts);
    InsertedInOrder(s, n, e);
  }

  lemma InsertedNames(s: seq<Entry>, n: nat, e: Entry, counts: Counter)
    requires n <= |s| && forall sku :: sku in counts ==> Names(s, sku)
    ensures forall sku :: sku in counts[e.sku := e.count] ==> Names(s[..n] + [e] + s[n..], sku)
  {
    var r := s[..n] + [e] + s[n..];
    forall sku | sku in counts[e.sku := e.count] ensures Names(r, sku) {
      if sku == e.sku {
        assert r[n].sku == sku;
      } else {
        var i :| 0 <= i < |s| && s[i].sku == sku;
        assert r[if i < n then i else i + 1].sku == sku;
      }
    }
  }

  lemma InsertedInOrder(s: seq<Entry>, n: nat, e: Entry)
    requires n <= |s| && InOrder(s)
    requires forall i :: 0 <= i < n ==> Before(s[i], e)
    requires forall i :: n <= i < |s| ==> Before(e, s[i])
    ensures InOrder(s[..n] + [e] + s[n..])
  {
    var r := s[..n] + [e] + s[n..];
    forall i, j | 0 <= i < j < |r| ensures Before(r[i], r[j]) {
      if i == n {
        assert r[j] == s[j - 1];
      } else if j == n {
        assert r[i] == s[i];
      } else {
        assert r[i] == s[if i < n then i else i - 1];
        assert r[j] == s[if j < n then j else j - 1];
      }
    }
  }

  // ---- publishing the newest window --------------------------------------------------------

  datatype RankedWindow = RankedWindow(start: int, end: int, ranking: seq<Entry>)

  /** One window through the ranking filter. */
  method RankWindow(w: WindowCounts, depth: nat) returns (data: RankedWindow)
    ensures data.start == w.start && data.end == w.end && Ranks(data.ranking, w.counts, depth)
  {
    var top := Rank(w.counts, depth);
    data := RankedWindow(w.start, w.end, top);
  }

  datatype Mail = Window(data: RankedWindow) | Ended | Waits

  /** A one-item mailbox: a newer item replaces one not yet taken. */
  class LatestSlot {
    var item: Option<RankedWindow>
    var closed: bool

    constructor ()
      ensures item == None && !closed
    {
      item, closed := None, false;
    }

    /** None is the end of the stream, kept apart so that it never displaces a window. */
    method Put(data: Option<RankedWindow>)
      modifies this
      ensures data.Some? ==> item == data && closed == old(closed)
      ensures data.None? ==> item == old(item) && closed
    {
      if data.None? {
        closed := true;
      } else {
        item := data;
      }
    }

    /** The window waiting, or else the end of the stream, or else the caller waits. */
    method Get() returns (mail: Mail)
      modifies this`item
      ensures item == None
      ensures mail == if old(item).Some? then Window(old(item).value) else if closed then Ended else Waits
    {
      mail := if item.Some? then Window(item.value) else if closed then Ended else Waits;
      item := None;
    }
  }

  class OutputFilter {
    var lastWrittenEnd: int
    var published: seq<RankedWindow>

    constructor ()
      ensures lastWrittenEnd == 0 && published == []
    {
      lastWrittenEnd, published := 0, [];
    }

    /** Publish a window unless one at least as new is out already. */
    method Take(data: RankedWindow)
      modifies this
      ensures (lastWrittenEnd, published) == Publish(old(lastWrittenEnd), old(published), data)
      ensures data.end > old(lastWrittenEnd) ==> published == old(published) + [data] && lastWrittenEnd == data.end
      ensures data.end <= old(lastWrittenEnd) ==> published == old(published) && lastWrittenEnd == old(lastWrittenEnd)
    {
      if data.end <= lastWrittenEnd { return; }
      lastWrittenEnd := data.end;
      published := published + [data];
    }
  }

  function Publish(lastEnd: int, published: seq<RankedWindow>, data: RankedWindow): (int, seq<RankedWindow>)
  {
    if data.end <= lastEnd then (lastEnd, published) else (data.end, published + [data])
  }

  /** The slot and the output, with everything put so far. */
  datatype Outlet = Outlet(item: Option<RankedWindow>, closed: bool, lastEnd: int, published: seq<RankedWindow>,
                           puts: seq<RankedWindow>)

  datatype OutletStep = Put(data: RankedWindow) | Close | Take

  function Do(o: Outlet, step: OutletStep): Outlet
    requires step.Take? ==> o.item.Some?
  {
    match step
    case Put(data) => o.(item := Some(data), puts := o.puts + [data])
    case Close => o.(closed := true)
    case Take =>
      var (lastEnd, published) := Publish(o.lastEnd, o.published, o.item.value);
      o.(item := None, lastEnd := lastEnd, published := published)
  }

  predicate OutletRun(o: Outlet, steps: seq<OutletStep>, o': Outlet)
    decreases |steps|
  {
    if steps == [] then o' == o else (steps[0].Take? ==> o.item.Some?) && OutletRun(Do(o, steps[0]), steps[1..], o')
  }

  const QUIET: Outlet := Outlet(None, false, 0, [], [])

  ghost predicate Rising(windows: seq<RankedWindow>, floor: int)
  {
    && (forall i, j :: 0 <= i < j < |windows| ==> windows[i].end < windows[j].end)
    && (forall i :: 0 <= i < |windows| ==> floor < windows[i].end)
  }

  function LastEnd(windows: seq<RankedWindow>): int
  {
    if windows == [] then 0 else windows[|windows| - 1].end
  }

  /** What every step keeps. The last clause: the newest window put is out, or in the slot. */
  ghost predicate Newest(o: Outlet)
  {
    && Rising(o.published, 0) && o.lastEnd == LastEnd(o.published)
    && (forall w :: w in o.published ==> w in o.puts)
    && (o.item.Some? ==> o.item.value in o.puts)
    && (Rising(o.puts, 0) && o.puts != [] ==>
          var last := o.puts[|o.puts| - 1];
          o.item == Some(last) || (o.item == None && o.published != [] && o.published[|o.published| - 1] == last))
  }

  lemma PutKeeps(o: Outlet, data: RankedWindow)
    requires Newest(o)
    ensures Newest(Do(o, Put(data)))
  {
    var o' := Do(o, Put(data));
    assert o'.puts[|o.puts|] == data;
  }

  lemma TakeKeeps(o: Outlet)
    requires Newest(o) && o.item.Some?
    ensures Newest(Do(o, Take))
  {
    var data, o' := o.item.value, Do(o, Take);
    if o.puts != [] && Rising(o.puts, 0) && o.published != [] {
      var shown := o.published[|o.published| - 1];
      assert shown in o.puts;
      var i :| 0 <= i < |o.puts| && o.puts[i] == shown;
      assert o.item == Some(o.puts[|o.puts| - 1]);
      if i == |o.puts| - 1 { assert data == shown; }
    }
  }

  /** Readers never see an older window after a newer one, whatever was put; and when windows are put in boundary
      order, the newest is never lost: with the slot empty, it is the one on display. */
  lemma {:induction false} NewestIsPublished(o: Outlet, steps: seq<OutletStep>, o': Outlet)
    requires Newest(o) && OutletRun(o, steps, o')
    ensures Newest(o')
    decreases |steps|
  {
    if steps != [] {
      match steps[0] {
        case Put(data) => PutKeeps(o, data);
        case Close => assert Newest(Do(o, Close));
        case Take => TakeKeeps(o);
      }
      NewestIsPublished(Do(o, steps[0]), steps[1..], o');
    }
  }
}
