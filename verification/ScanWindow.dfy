/** The bounded window the read path counts before a full window has been published. */
module ScanWindow {
  import opened Collections
  import opened Skus
  import opened Relay
  import opened Windows
  import opened Ranking

  /** The last `n` of `s`. */
  function LastOf(s: seq<Scan>, n: nat): seq<Scan>
  {
    if |s| > n then s[|s| - n..] else s
  }

  lemma SeenOneMore(history: seq<Scan>, scan: Scan, last: int)
    ensures HasId(history + [scan], last) <==> HasId(history, last) || scan.id == last
  {
    HasIdAppend(history, [scan], last);
    assert [scan][0].id == scan.id;
  }

  class Window {
    const size: nat
    const slide: nat
    var scans: seq<Scan>
    var lastScanId: int
    /** Everything appended since the last clear. */
    ghost var history: seq<Scan>

    ghost predicate Valid()
      reads this
    {
      && scans == LastOf(history, size + slide)
      && (forall i :: 0 <= i < |history| ==> history[i].id <= lastScanId)
      && (lastScanId == 0 || HasId(history, lastScanId))
    }

    constructor (size: nat, slide: nat)
      ensures Valid() && history == [] && this.size == size && this.slide == slide
    {
      this.size, this.slide := size, slide;
      scans, lastScanId, history := [], 0, [];
    }

    /** A deque with room for the window plus one slide: a full one drops its oldest entry. */
    method Append(scan: Scan)
      requires Valid()
      modifies this
      ensures Valid() && history == old(history) + [scan]
    {
      scans := scans + [scan];
      if |scans| > size + slide { scans := scans[1..]; }
      if scan.id > lastScanId { lastScanId := scan.id; }
      SeenOneMore(history, scan, lastScanId);
      history := history + [scan];
    }

    method Clear()
      modifies this
      ensures Valid() && history == []
    {
      scans, lastScanId, history := [], 0, [];
    }

    method Bounds() returns (start: int, end: int)
      ensures end == lastScanId && start == Max(0, end - size)
    {
      start, end := Max(0, lastScanId - size), lastScanId;
    }

    /** The ranking of the current window. In id order, the bounded deque answers as a recount of everything
        appended would. */
    method Counts(depth: nat) returns (top: seq<Entry>)
      requires Valid()
      ensures Ranks(top, Counting(Recount(scans, Max(0, lastScanId - size), lastScanId)), depth)
      ensures IdsAscend(history) ==>
        Ranks(top, Counting(Recount(history, Max(0, lastScanId - size), lastScanId)), depth)
    {
      hide Ranks, Holds, Within, IdsAscend;
      var start, end := Bounds();
      var counter := CountWithin(scans, start, end);
      HoldsOne(counter, Recount(scans, start, end));
      top := Rank(counter, depth);
      if IdsAscend(history) { DequeRecounts(history, size, slide, end); }
    }
  }

  /** `Counter(sku for id, sku in scans if start < id <= end)`. */
  method CountWithin(scans: seq<Scan>, start: int, end: int) returns (counter: Counter)
    ensures Holds(counter, Recount(scans, start, end))
  {
    counter := map[];
    hide Holds, Within, At;
    assert Holds(counter, multiset{}) by { EmptyHolds(); }
    assert Recount(scans[..0], start, end) == multiset{} by { WithinNone(scans[..0], start, end); }
    for n := 0 to |scans|
      invariant Holds(counter, Recount(scans[..n], start, end))
    {
      RecountOneMore(scans, n, start, end);
      if start < scans[n].id <= end {
        CountOneMore(counter, Recount(scans[..n], start, end), scans[n].sku);
        counter := counter[scans[n].sku := At(counter, scans[n].sku) + 1];
      }
    }
    assert scans[..|scans|] == scans;
  }

  lemma RecountOneMore(scans: seq<Scan>, n: nat, start: int, end: int)
    requires n < |scans|
    ensures var before := Recount(scans[..n], start, end);
      Recount(scans[..n + 1], start, end)
        == if start < scans[n].id <= end then before + multiset{scans[n].sku} else before
  {
    assert scans[..n + 1] == scans[..n] + [scans[n]];
    WithinAppend(scans[..n], [scans[n]], start, end);
    WithinOne(scans[n], start, end);
  }

  lemma EmptyHolds()
    ensures Holds(map[], multiset{})
  {
  }

  lemma CountOneMore(counter: Counter, m: multiset<Sku>, sku: Sku)
    requires Holds(counter, m)
    ensures Holds(counter[sku := At(counter, sku) + 1], m + multiset{sku})
  {
  }

  /** Ascending ids below the last `size` of them are below the window. */
  lemma OlderAreOutside(history: seq<Scan>, size: nat, room: nat, end: int, i: nat)
    requires IdsAscend(history) && size <= room && i < |history| - room
    requires forall k :: 0 <= k < |history| ==> history[k].id <= end
    ensures history[i].id <= end - size
  {
    var ids := seq(|history| - i - 1, k requires 0 <= k < |history| - i - 1 => history[i + 1 + k].id);
    AscendingFits(ids, history[i].id, end);
  }

  /** The deque holds the whole window: counting it is counting everything appended. */
  lemma DequeRecounts(history: seq<Scan>, size: nat, slide: nat, end: int)
    requires IdsAscend(history) && forall i :: 0 <= i < |history| ==> history[i].id <= end
    ensures Recount(LastOf(history, size + slide), Max(0, end - size), end) == Recount(history, Max(0, end - size), end)
  {
    var room := size + slide;
    if |history| > room {
      var gone, kept := history[..|history| - room], history[|history| - room..];
      assert history == gone + kept;
      forall i | 0 <= i < |gone| ensures gone[i].id <= end - size {
        OlderAreOutside(history, size, room, end, i);
      }
      WithinNone(gone, Max(0, end - size), end);
      WithinAppend(gone, kept, Max(0, end - size), end);
    }
  }

  /** A shorter deque would not do: with room for one scan fewer than the window, a scan of the window is missing. */
  lemma {:induction false} ShorterDequeMiscounts(size: nat, sku: Sku)
    requires size > 0
    ensures var history := seq(size, i => Scan(i + 1, sku));
      |Recount(LastOf(history, size - 1), 0, size)| == size - 1 && |Recount(history, 0, size)| == size
  {
    var history := seq(size, i => Scan(i + 1, sku));
    WithinAll(history, 0, size);
    WithinAll(LastOf(history, size - 1), 0, size);
  }

  lemma {:induction false} WithinAll(scans: seq<Scan>, lo: int, hi: int)
    requires forall i :: 0 <= i < |scans| ==> lo < scans[i].id <= hi
    ensures |Within(scans, lo, hi)| == |scans|
  {
    if scans != [] { WithinAll(scans[1..], lo, hi); }
  }
}
