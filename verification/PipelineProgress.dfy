/** Once commits stop, relay, reader and tail catch up with the scan log. */
module PipelineProgress {
  import opened Relay
  import opened ScanSource
  import opened TailIngest
  import opened TailRuns
  import opened TailProgress
  import opened ScanPipeline
  import RP = RelayProgress

  /** The relay's position is at the end of the log, and the whole topic has been consumed. */
  ghost predicate Quiescent(p: Pipe)
  {
    p.consumed == |p.relay.topic| && !RP.RowsAbove(p.relay)
  }

  lemma AllOnTopic(s: Relay.State)
    requires RelayOk(s) && !RP.RowsAbove(s)
    ensures forall id :: id in s.log ==> HasId(s.topic, id)
  {
    assert Covers(s, s.pos);
  }

  /** From a state gone quiet, polling for longer than the grace, again and again, brings the cursor to the highest id
      of the scan log and emits every row above the start. */
  lemma TailCatchesUp(p: Pipe, cfg: Config, rounds: seq<seq<Answer>>, clock: int, t': Tail, top: int)
    requires PipeOk(p, cfg) && Quiescent(p) && SeenBy(p.tail, clock) && cfg.grace >= 0 && cfg.limit > 0
    requires top in p.relay.log && top > cfg.start && forall id :: id in p.relay.log ==> id <= top
    requires Rounds(p.tail, rounds, p.buf.rows, cfg.limit, cfg.grace, clock, t') && |rounds| >= top - p.tail.lastId
    ensures t'.lastId == top && t'.slide == cfg.slide && Sound(t', cfg.start, cfg.first)
    ensures EmittedLog(t', p.relay.log, cfg.start)
  {
    AllOnTopic(p.relay);
    var revealed := Revealed(p, cfg.start);
    assert Seen(p) == p.relay.topic;
    TailIsAtOrAboveStart(p.tail, cfg.start, cfg.first);
    hide HasId, Rounds, InOrder, Sound, RelayOk, Supplies;
    BufferSupplies(p, cfg);
    CatchUp(p.tail, cfg.start, cfg.first, revealed, p.buf.rows, rounds, cfg.limit, cfg.grace, clock, t', top);
    assert forall id :: id in p.relay.log && id > cfg.start <==> id in revealed;
    assert forall id :: id in revealed ==> revealed[id] == p.relay.log[id];
    RevealedIsEmitted(t', revealed, p.relay.log, cfg.start);
  }

  lemma RevealedIsEmitted(t: Tail, revealed: Log, log: Log, start: int)
    requires InOrder(t, start, revealed)
    requires forall id :: id in log && id > start <==> id in revealed
    requires forall id :: id in revealed ==> revealed[id] == log[id]
    ensures EmittedLog(t, log, start)
  {
  }

  lemma TailIsAtOrAboveStart(t: Tail, start: int, first: int)
    requires Sound(t, start, first)
    ensures t.lastId >= start && t.slide > 0
  {
  }

  // ---- the relay's part --------------------------------------------------------------------

  lemma {:induction false} BeatsKeepPipe(p: Pipe, beats: seq<RP.Beat>, cfg: Config, clock: int)
    requires PipeOk(p, cfg) && RP.AllDue(p.relay, beats, cfg.batch, cfg.relayGrace, clock)
    ensures PipeOk(p.(relay := RP.Played(p.relay, beats, cfg.relayGrace)), cfg)
    decreases |beats|
  {
    if beats == [] {
      assert p.(relay := p.relay) == p;
    } else {
      var front, b := beats[..|beats| - 1], beats[|beats| - 1];
      BeatsKeepPipe(p, front, cfg, clock);
      hide PipeOk;
      RelaySideKeeps(p.(relay := RP.Played(p.relay, front, cfg.relayGrace)), RP.Pass(b), cfg);
    }
  }

  lemma {:induction false} RoundsKeepPipe(p: Pipe, rounds: seq<seq<RP.Beat>>, cfg: Config, clock: int, s': Relay.State)
    requires PipeOk(p, cfg) && RP.Rounds(p.relay, rounds, cfg.batch, cfg.relayGrace, clock, s')
    ensures PipeOk(p.(relay := s'), cfg)
    decreases |rounds|
  {
    hide PipeOk, RP.AllDue, RP.Played;
    if rounds == [] {
      assert p.(relay := s') == p;
    } else {
      var round := rounds[0];
      var played := RP.Played(p.relay, round, cfg.relayGrace);
      BeatsKeepPipe(p, round, cfg, clock);
      RoundsKeepPipe(p.(relay := played), rounds[1..], cfg, RP.EndOf(round[|round| - 1]), s');
    }
  }

  /** Commits have stopped. */
  ghost predicate NoCommits(events: seq<Event>)
  {
    forall i :: 0 <= i < |events| && events[i].RelaySide? ==> !events[i].step.Commit?
  }

  lemma {:induction false} LogStands(p: Pipe, events: seq<Event>, p': Pipe, cfg: Config)
    requires PipeRun(p, events, p', cfg) && NoCommits(events)
    ensures p'.relay.log == p.relay.log && p'.relay.pos >= p.relay.pos
    decreases |events|
  {
    if events != [] {
      assert events[0].RelaySide? ==> !events[0].step.Commit?;
      hide Apply, Poll;
      LogStands(Next(p, events[0], cfg), events[1..], p', cfg);
    }
  }

  /** The whole pipeline catches up. From any reachable state in which commits have stopped: rounds of relay passes, as
      many as there are rows still to publish, then any reads, polls, passes and crashes that consume the topic, then
      rounds of polls. The cursor reaches the highest id and exactly the committed scans above the start are emitted. */
  lemma PipelineCatchesUp(p: Pipe, cfg: Config, passes: seq<seq<RP.Beat>>, clock: int, s': Relay.State,
                          events: seq<Event>, q: Pipe, polls: seq<seq<Answer>>, pollClock: int, t': Tail, top: int)
    requires PipeOk(p, cfg) && cfg.batch > 0 && cfg.limit > 0 && cfg.grace >= 0
    requires top in p.relay.log && top > cfg.start && forall id :: id in p.relay.log ==> id <= top
    requires RP.SeenBy(p.relay.gap, clock) && |passes| >= |RP.Above(p.relay)|
    requires RP.Rounds(p.relay, passes, cfg.batch, cfg.relayGrace, clock, s')
    requires PipeRun(p.(relay := s'), events, q, cfg) && NoCommits(events) && q.consumed == |q.relay.topic|
    requires SeenBy(q.tail, pollClock) && Rounds(q.tail, polls, q.buf.rows, cfg.limit, cfg.grace, pollClock, t')
    requires |polls| >= top - q.tail.lastId
    ensures t'.lastId == top && t'.slide == cfg.slide && Sound(t', cfg.start, cfg.first)
    ensures EmittedLog(t', p.relay.log, cfg.start)
  {
    var published := p.(relay := s');
    RP.RelayCatchesUp(p.relay, passes, cfg.batch, cfg.relayGrace, clock, s');
    RoundsKeepPipe(p, passes, cfg, clock, s');
    hide PipeOk, PipeRun, RP.Rounds, Rounds, NoCommits;
    RunKeepsPipe(published, events, q, cfg);
    LogStands(published, events, q, cfg);
    TailCatchesUp(q, cfg, polls, pollClock, t', top);
  }
}
