/** The oracle's verdict on a system that has been left to drain. */
module Verdict {
  import opened Collections
  import opened Checkout
  import opened Inventory
  import opened Saga
  import opened SagaSteps
  import opened RecoveryPass
  import opened Drain
  import opened Oracle
  import Outbox
  import Relay
  import RelayProgress
  import TailIngest
  import TailRuns
  import TailProgress
  import opened ScanPipeline
  import opened PipelineProgress

  /** Commits have stopped with `top` the highest id of the scan log. First the relay publishes, ending at `s'`; then
      anything but a commit happens until the topic is consumed, ending at `q`; then the tail polls, ending at `t'`. */
  ghost predicate ScansDrain(p: Pipe, cfg: Config, top: int,
                             passes: seq<seq<RelayProgress.Beat>>, clock: int, s': Relay.State,
                             events: seq<Event>, q: Pipe,
                             polls: seq<seq<TailRuns.Answer>>, pollClock: int, t': TailIngest.Tail)
  {
    && (top in p.relay.log && top > cfg.start && forall id :: id in p.relay.log ==> id <= top)
    && (cfg.batch > 0 && cfg.limit > 0 && cfg.grace >= 0)
    && RelayProgress.SeenBy(p.relay.gap, clock) && |passes| >= |RelayProgress.Above(p.relay)|
    && RelayProgress.Rounds(p.relay, passes, cfg.batch, cfg.relayGrace, clock, s')
    && PipeRun(p.(relay := s'), events, q, cfg) && NoCommits(events) && q.consumed == |q.relay.topic|
    && TailProgress.SeenBy(q.tail, pollClock) && |polls| >= top - q.tail.lastId
    && TailProgress.Rounds(q.tail, polls, q.buf.rows, cfg.limit, cfg.grace, pollClock, t')
  }

  /** The saved relay position and the tail's cursor both end at the highest id. */
  lemma ScansCaughtUp(p: Pipe, cfg: Config, top: int, passes: seq<seq<RelayProgress.Beat>>, clock: int, s': Relay.State,
                      events: seq<Event>, q: Pipe, polls: seq<seq<TailRuns.Answer>>, pollClock: int,
                      t': TailIngest.Tail)
    requires PipeOk(p, cfg) && ScansDrain(p, cfg, top, passes, clock, s', events, q, polls, pollClock, t')
    ensures q.relay.pos == top && t'.lastId == top
  {
    hide PipeOk, PipeRun, NoCommits;
    hide RelayProgress.Rounds, TailProgress.Rounds, RelayProgress.SeenBy, TailProgress.SeenBy;
    PipelineCatchesUp(p, cfg, passes, clock, s', events, q, polls, pollClock, t', top);
    RelayProgress.RelayCatchesUp(p.relay, passes, cfg.batch, cfg.relayGrace, clock, s');
    RoundsKeepPipe(p, passes, cfg, clock, s');
    var published := p.(relay := s');
    RunKeepsPipe(published, events, q, cfg);
    LogStands(published, events, q, cfg);
    PositionIsInLog(q, cfg);
    assert top in s'.log && s'.pos >= top;
  }

  lemma PositionIsInLog(p: Pipe, cfg: Config)
    requires PipeOk(p, cfg)
    ensures p.relay.pos != 0 ==> p.relay.pos in p.relay.log
    ensures forall id :: id in p.relay.log ==> id >= 1
  {
    if p.relay.pos != 0 {
      var i :| 0 <= i < |p.relay.topic| && p.relay.topic[i].id == p.relay.pos;
      assert p.relay.topic[i].id in p.relay.log;
    }
  }

  /** A system left to drain gets a PASS. Take any reachable state whose drivers are all dead, any state of the scan
      path that a run can reach, and any two outboxes. After enough recovery passes beyond the horizon, relay rounds,
      a reading of the topic, polls and sweeps, the reports meet every condition of the check. */
  lemma DrainedSystemGetsAPass(w: World, limit: nat, recoveries: seq<Drain.Pass>, db': Db, store': Store, horizon: int,
                               p: Pipe, cfg: Config, top: int,
                               passes: seq<seq<RelayProgress.Beat>>, clock: int, s': Relay.State,
                               events: seq<Event>, q: Pipe,
                               polls: seq<seq<TailRuns.Answer>>, pollClock: int, t': TailIngest.Tail,
                               requests: Outbox.State, requestSweeps: seq<Outbox.Step>, requests': Outbox.State,
                               outcomes: Outbox.State, outcomeSweeps: seq<Outbox.Step>, outcomes': Outbox.State,
                               batch: nat)
    requires Reachable(w) && Quiet(w) && w.lease > 0 && w.store.stock != map[] && LapsedBy(w.db, w.lease, horizon)
    requires Passes(w.db, w.store, w.clock, w.lease, limit, recoveries, db', store')
    requires MadeBy(recoveries, horizon) * limit >= |Unfinished(w.db)|
    requires PipeOk(p, cfg) && ScansDrain(p, cfg, top, passes, clock, s', events, q, polls, pollClock, t')
    requires Outbox.Kept(requests) && Outbox.Sweeps(requests, requestSweeps, requests', batch)
    requires |requestSweeps| * batch >= |Outbox.Waiting(requests.table)|
    requires Outbox.Kept(outcomes) && Outbox.Sweeps(outcomes, outcomeSweeps, outcomes', batch)
    requires |outcomeSweeps| * batch >= |Outbox.Waiting(outcomes.table)|
    ensures store'.stock.Keys == store'.initial.Keys
    ensures var inventory := StockReport(store', |Outbox.Waiting(outcomes'.table)|);
      var scans := ScanReport(top, Some(q.relay.pos), |Outbox.Waiting(requests'.table)|);
      StoresPass(ReportOf(db'), inventory) && CaughtUp(scans, inventory.unpublished, t'.lastId)
  {
    hide Reachable, Quiet, LapsedBy, Passes, MadeBy, PipeOk, ScansDrain, StoresPass, ReportOf;
    Outbox.SweepsDrain(requests, requestSweeps, requests', batch);
    Outbox.SweepsDrain(outcomes, outcomeSweeps, outcomes', batch);
    ScansCaughtUp(p, cfg, top, passes, clock, s', events, q, polls, pollClock, t');
    DrainedSystemPasses(w, limit, recoveries, db', store', horizon, |Outbox.Waiting(outcomes'.table)|);
  }
}
