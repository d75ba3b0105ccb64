/** The tail never gives up on an id early, whatever its source answers. */
module TailGrace {
  import opened Collections
  import opened Skus
  import opened Relay
  import opened TailIngest
  import opened TailRuns

  /** The hole noted by a poll at `now`: all that lies between the cursor and the lowest row held. */
  ghost predicate NotedNow(t: Tail, now: int)
  {
    t.hole.Some? && t.hole.value.since == now && IsLeast(t.pending, t.hole.value.upto + 1)
  }

  /** An id passed without being held, or shown by this very poll, lay in a hole noted before and waited out. */
  ghost predicate PassedFairly(t: Tail, rows: seq<Scan>, now: int, grace: int, id: int)
  {
    id in t.pending || HasId(rows, id)
    || (t.hole.Some? && now - t.hole.value.since > grace && id <= t.hole.value.upto)
  }

  /** A look drains rows that are held, and forgets the hole if any was. */
  lemma LookPasses(t: Tail, rows: seq<Scan>)
    requires t.slide > 0
    ensures var looked := Looked(t, rows);
      && looked.lastId >= t.lastId
      && looked.hole == (if looked.lastId == t.lastId then t.hole else None)
      && (forall id :: t.lastId < id <= looked.lastId || id in looked.pending ==> id in t.pending || HasId(rows, id))
  {
    AcceptKeepsRest(t, rows);
    var held := Accept(t, rows);
    DrainPasses(held);
    forall id ensures id in held.pending ==> id in t.pending || HasId(rows, id) { AcceptHolds(t, rows, id); }
    hide Accept, Drain, HasId;
  }

  lemma OnePoll(t: Tail, rows: seq<Scan>, now: int, grace: int)
    requires t.slide > 0
    ensures var t' := Poll(t, rows, now, grace);
      && t'.lastId >= t.lastId
      && (t'.hole.Some? ==> (t'.hole == t.hole && t'.lastId == t.lastId) || NotedNow(t', now))
      && forall id :: t.lastId < id <= t'.lastId ==> PassedFairly(t, rows, now, grace, id)
  {
    PollStages(t, rows, now, grace);
    LookPasses(t, rows);
    var looked := Looked(t, rows);
    var (skipped, over) := SkipExpired(looked, now, grace);
    if looked.hole.Some? { SkipToKeepsRest(looked, looked.hole.value.upto); }
    if over { DrainPasses(skipped); }
    hide Looked, HasId, Drain, SkipTo, Poll;
  }

  lemma PollsStep(t: Tail, answers: seq<Answer>, grace: int, n: nat)
    requires t.slide > 0 && n < |answers|
    ensures Polls(t, answers[..n + 1], grace)
         == Poll(Polls(t, answers[..n], grace), answers[n].rows, answers[n].now, grace)
  {
    assert answers[..n + 1][..n] == answers[..n];
  }

  /** Since poll `m` noted it, the hole has stood, and the cursor with it. */
  ghost predicate Stood(t: Tail, answers: seq<Answer>, grace: int, m: nat, n: nat)
    requires t.slide > 0 && m < n <= |answers|
  {
    && NotedNow(Polls(t, answers[..m + 1], grace), answers[m].now)
    && forall j :: m < j <= n ==>
         var at, end := Polls(t, answers[..j], grace), Polls(t, answers[..n], grace);
         at.hole == end.hole && at.lastId == end.lastId
  }

  lemma StandsOn(t: Tail, answers: seq<Answer>, grace: int, m: nat, n: nat)
    requires t.slide > 0 && m < n < |answers| && Stood(t, answers, grace, m, n)
    requires Polls(t, answers[..n + 1], grace).hole == Polls(t, answers[..n], grace).hole
    requires Polls(t, answers[..n + 1], grace).lastId == Polls(t, answers[..n], grace).lastId
    ensures Stood(t, answers, grace, m, n + 1)
  {
    hide Polls, NotedNow;
  }

  lemma JustNoted(t: Tail, answers: seq<Answer>, grace: int, n: nat)
    requires t.slide > 0 && n < |answers| && NotedNow(Polls(t, answers[..n + 1], grace), answers[n].now)
    ensures Stood(t, answers, grace, n, n + 1)
  {
  }

  /** A hole waited for was noted by some poll, and has stood since. */
  lemma {:induction false} HoleWasNoted(t: Tail, answers: seq<Answer>, grace: int, n: nat) returns (m: nat)
    requires t.slide > 0 && t.hole == None && n <= |answers| && Polls(t, answers[..n], grace).hole.Some?
    ensures m < n && Stood(t, answers, grace, m, n)
    decreases n
  {
    assert answers[..0] == [] && Polls(t, [], grace) == t;
    hide Poll, Polls, NotedNow, Stood;
    if n > 0 {
      var before, last := Polls(t, answers[..n - 1], grace), answers[n - 1];
      PollsStep(t, answers, grace, n - 1);
      OnePoll(before, last.rows, last.now, grace);
      if NotedNow(Polls(t, answers[..n], grace), last.now) {
        m := n - 1;
        JustNoted(t, answers, grace, m);
      } else {
        m := HoleWasNoted(t, answers, grace, n - 1);
        StandsOn(t, answers, grace, m, n - 1);
      }
    }
  }

  /** Giving up waits out the grace. On any source at all: if a poll takes the cursor past an id that was neither held
      nor in its own answer, then an earlier poll, more than the grace before, noted a hole that covers the id, from
      the cursor to the lowest row held; and neither hole nor cursor has moved since. */
  lemma GivingUpWaits(t: Tail, answers: seq<Answer>, grace: int, n: nat, id: int) returns (m: nat)
    requires t.slide > 0 && t.hole == None && n < |answers|
    requires Polls(t, answers[..n], grace).lastId < id <= Polls(t, answers[..n + 1], grace).lastId
    requires id !in Polls(t, answers[..n], grace).pending && !HasId(answers[n].rows, id)
    ensures m < n && answers[n].now - answers[m].now > grace
    ensures var noted := Polls(t, answers[..m + 1], grace);
      && noted.hole.Some? && noted.hole.value.since == answers[m].now
      && noted.lastId < id <= noted.hole.value.upto && IsLeast(noted.pending, noted.hole.value.upto + 1)
      && forall j :: m < j <= n ==>
           Polls(t, answers[..j], grace).lastId == noted.lastId && Polls(t, answers[..j], grace).hole == noted.hole
  {
    hide Poll, Polls, HasId;
    var before, last := Polls(t, answers[..n], grace), answers[n];
    PollsStep(t, answers, grace, n);
    OnePoll(before, last.rows, last.now, grace);
    assert PassedFairly(before, last.rows, last.now, grace, id);
    m := HoleWasNoted(t, answers, grace, n);
  }
}
