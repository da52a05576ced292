// One probe of one indexer: it records the result, prunes the history, updates the score, and
// records a contradiction when an indexer that declares snapshots does not answer.
module Prober {
  import opened Common
  import opened Timestamps
  import opened ProbeHistory
  import opened Reliability
  import C = Contradictions

  datatype Status = Active | Inactive

  // `lastHeartbeat` is in whole seconds; None stands for a missing or unreadable one.
  datatype Indexer = Indexer(reliability: real, currentTip: int, lastHeartbeat: Option<int>, status: Status,
                             declaresSnapshots: bool)

  datatype ProberConfig = ProberConfig(historyLimit: nat, inactiveAfter: int)

  // What a probe at `now` makes of the indexer's record. `tip` is None when it does not answer;
  // the registry then stores tip 0, and it refreshes the heartbeat whether it answers or not.
  function Probed(cfg: ProberConfig, i: Indexer, tip: Option<int>, now: int): Indexer {
    Indexer(UpdateEMA(i.reliability, tip.Some?),
            if tip.Some? then tip.value else 0,
            Some(Stamp(now)),
            if i.lastHeartbeat.Some? && now - i.lastHeartbeat.value * SECOND > cfg.inactiveAfter && i.status == Active
            then Inactive else i.status,
            i.declaresSnapshots)
  }

  class Prober {
    const cfg: ProberConfig
    const probeSt: ProbeStore
    const contradictionSt: C.Aggregator  // shared with the slashing loop
    var indexers: map<string, Indexer>

    ghost predicate Valid()
      reads this, probeSt
    {
      probeSt.Valid()
    }

    constructor (cfg: ProberConfig, contradictionSt: C.Aggregator, indexers: map<string, Indexer>)
      ensures Valid() && this.cfg == cfg && this.contradictionSt == contradictionSt && this.indexers == indexers
      ensures fresh(probeSt) && probeSt.records == []
    {
      this.cfg, this.contradictionSt, this.indexers := cfg, contradictionSt, indexers;
      probeSt := new ProbeStore();
    }

    // `start` is the instant of the probe in seconds (any fixed epoch with four-digit years), `now`
    // the wall clock in nanoseconds after it, and `walk` the order in which the store then visits
    // its records.
    method ProbeOne(x: string, tip: Option<int>, start: nat, latencyMs: int, walk: seq<Probe>, now: int)
      requires Valid() && x in indexers && FourDigitYear(start)
      requires var p := Probe(probeSt.nextId, x, Rfc3339(start), tip.Some?,
                              if tip.Some? then tip.value else 0, latencyMs);
               Walks(probeSt.records + [p], walk)
      modifies this, probeSt, contradictionSt`records
      ensures Valid()
      ensures indexers == old(indexers)[x := Probed(cfg, old(indexers)[x], tip, now)]
      ensures contradictionSt.records ==
                if tip.None? && old(indexers)[x].declaresSnapshots
                then C.AddRecord(old(contradictionSt.records), x, now / 1_000_000)
                else old(contradictionSt.records)
      ensures var p := Probe(old(probeSt.nextId), x, Rfc3339(start), tip.Some?,
                             if tip.Some? then tip.value else 0, latencyMs);
              && Prunes(old(probeSt.records) + [p], walk, x, cfg.historyLimit, probeSt.records)
              && Probes(old(probeSt.records), p, cfg.historyLimit, probeSt.records)
      ensures |OfIndexer(probeSt.records, x)| <= cfg.historyLimit
      ensures forall y :: y != x ==> OfIndexer(probeSt.records, y) == OfIndexer(old(probeSt.records), y)
    {
      var idx := indexers[x];
      var success := tip.Some?;
      var reported := if success then tip.value else 0;
      RecordProbe(x, success, reported, start, latencyMs, walk);

      if !success && idx.declaresSnapshots {
        var _ := contradictionSt.RecordContradiction(x, now / 1_000_000);
      }
      var updated := UpdateReliability(idx, tip, now);
      indexers := indexers[x := updated];
    }

    // The new score and status, and the columns the registry writes.
    method UpdateReliability(idx: Indexer, tip: Option<int>, now: int) returns (updated: Indexer)
      ensures updated == Probed(cfg, idx, tip, now)
    {
      var newScore := UpdateEMA(idx.reliability, tip.Some?);
      var newStatus := None;
      if idx.lastHeartbeat.Some? {
        if now - idx.lastHeartbeat.value * SECOND > cfg.inactiveAfter && idx.status == Active {
          newStatus := Some(Inactive);
        }
      }
      var reported := if tip.Some? then tip.value else 0;
      updated := idx.(reliability := newScore, currentTip := reported, lastHeartbeat := Some(Stamp(now)));
      if newStatus.Some? {
        updated := updated.(status := newStatus.value);
      }
    }

    // The part of a probe that touches the history.
    method RecordProbe(x: string, success: bool, tip: int, start: nat, latencyMs: int, walk: seq<Probe>)
      requires Valid() && FourDigitYear(start)
      requires Walks(probeSt.records + [Probe(probeSt.nextId, x, Rfc3339(start), success, tip, latencyMs)], walk)
      modifies probeSt
      ensures Valid()
      ensures Prunes(old(probeSt.records + [Probe(probeSt.nextId, x, Rfc3339(start), success, tip, latencyMs)]),
                     walk, x, cfg.historyLimit, probeSt.records)
      ensures Probes(old(probeSt.records), old(Probe(probeSt.nextId, x, Rfc3339(start), success, tip, latencyMs)),
                     cfg.historyLimit, probeSt.records)
      ensures |OfIndexer(probeSt.records, x)| <= cfg.historyLimit
      ensures forall y :: y != x ==> OfIndexer(probeSt.records, y) == OfIndexer(old(probeSt.records), y)
    {
      ghost var before := probeSt.records;
      probeSt.Insert(x, Rfc3339(start), success, tip, latencyMs);
      ghost var inserted := probeSt.records;
      probeSt.PruneOldest(x, cfg.historyLimit, walk);
      HistoryStaysBounded(before, inserted, walk, x, cfg.historyLimit, probeSt.records);
    }
  }

  // Whatever was stored before, recording a probe leaves the indexer's history within the limit
  // and everybody else's as it was.
  lemma {:induction false} HistoryStaysBounded(before: seq<Probe>, inserted: seq<Probe>, walk: seq<Probe>, x: string,
                                               limit: nat, after: seq<Probe>)
    requires inserted != [] && inserted[..|inserted| - 1] == before && inserted[|inserted| - 1].indexerId == x
    requires UniqueIds(inserted) && Walks(inserted, walk) && Prunes(inserted, walk, x, limit, after)
    ensures |OfIndexer(after, x)| <= limit
    ensures forall y :: y != x ==> OfIndexer(after, y) == OfIndexer(before, y)
  {
    PruneKeepsTheNewest(inserted, walk, x, limit, after);
    forall y | y != x ensures OfIndexer(after, y) == OfIndexer(before, y) {
      PruneTouchesNobodyElse(inserted, walk, x, y, limit, after);
      assert OfIndexer(before, y) + [] == OfIndexer(before, y);
    }
  }

  // For records the prober writes, the store's notion of older is older in time: what pruning
  // deletes was probed no later than what it keeps.
  lemma {:induction false} OlderMeansEarlier(p: Probe, q: Probe, m: nat, n: nat)
    requires FourDigitYear(m) && FourDigitYear(n) && p.probedAt == Rfc3339(m) && q.probedAt == Rfc3339(n)
    ensures Older(p, q) <==> m < n
  {
    StringOrderIsChronological(m, n);
  }

  // ----- Runs of one indexer's record -------------------------------------------------------

  // What writes to an indexer's record: a probe, and the indexer's own calls to the registry.
  datatype Event =
    | ProbeRun(tip: Option<int>, now: int)
    | HeartbeatSent(ownTip: int, declaresSnapshots: bool, now: int)
    | Reregistered
    | Deregistered

  function Apply(cfg: ProberConfig, i: Indexer, e: Event): Indexer {
    match e
    case ProbeRun(tip, now) => Probed(cfg, i, tip, now)
    case HeartbeatSent(ownTip, declares, now) =>
      i.(currentTip := ownTip, declaresSnapshots := declares, lastHeartbeat := Some(Stamp(now)), status := Active)
    case Reregistered => i.(status := Active)
    case Deregistered => i.(status := Inactive)
  }

  function Run(cfg: ProberConfig, i: Indexer, es: seq<Event>): Indexer {
    if es == [] then i else Apply(cfg, Run(cfg, i, es[..|es| - 1]), es[|es| - 1])
  }

  function Outcomes(es: seq<Event>): seq<bool> {
    if es == [] then []
    else
      var front, last := Outcomes(es[..|es| - 1]), es[|es| - 1];
      if last.ProbeRun? then front + [last.tip.Some?] else front
  }

  // The stored score is the fold over all probe outcomes, also those pruned from the history;
  // nothing the indexer itself sends changes it.
  lemma {:induction false} ScoreIsTheFold(cfg: ProberConfig, i: Indexer, es: seq<Event>)
    ensures Run(cfg, i, es).reliability == Score(i.reliability, Outcomes(es))
    decreases |es|
  {
    if es != [] {
      ScoreIsTheFold(cfg, i, es[..|es| - 1]);
      if es[|es| - 1].ProbeRun? {
        assert Outcomes(es)[..|Outcomes(es)| - 1] == Outcomes(es[..|es| - 1]);
      }
    }
  }

  // The whole second of the latest probe or heartbeat, answered or not; without any, what the
  // record held before.
  function LastSeen(i: Indexer, es: seq<Event>): Option<int> {
    if es == [] then i.lastHeartbeat
    else
      match es[|es| - 1]
      case ProbeRun(_, now) => Some(Stamp(now))
      case HeartbeatSent(_, _, now) => Some(Stamp(now))
      case _ => LastSeen(i, es[..|es| - 1])
  }

  lemma {:induction false} HeartbeatIsLastSeen(cfg: ProberConfig, i: Indexer, es: seq<Event>)
    ensures Run(cfg, i, es).lastHeartbeat == LastSeen(i, es)
    decreases |es|
  {
    if es != [] {
      HeartbeatIsLastSeen(cfg, i, es[..|es| - 1]);
    }
  }

  // The tip of the latest probe, 0 if it found none, or of the latest heartbeat.
  function LastTip(i: Indexer, es: seq<Event>): int {
    if es == [] then i.currentTip
    else
      match es[|es| - 1]
      case ProbeRun(tip, _) => if tip == None then 0 else tip.value
      case HeartbeatSent(ownTip, _, _) => ownTip
      case _ => LastTip(i, es[..|es| - 1])
  }

  function LastDeclaration(i: Indexer, es: seq<Event>): bool {
    if es == [] then i.declaresSnapshots
    else if es[|es| - 1].HeartbeatSent? then es[|es| - 1].declaresSnapshots
    else LastDeclaration(i, es[..|es| - 1])
  }

  // The stored tip is what the latest probe or heartbeat told, and only heartbeats declare
  // snapshots.
  lemma {:induction false} TipIsLastTold(cfg: ProberConfig, i: Indexer, es: seq<Event>)
    ensures Run(cfg, i, es).currentTip == LastTip(i, es)
    ensures Run(cfg, i, es).declaresSnapshots == LastDeclaration(i, es)
    decreases |es|
  {
    if es != [] {
      TipIsLastTold(cfg, i, es[..|es| - 1]);
    }
  }

  // Heartbeats and registrations make an indexer active and a deregistration makes it inactive; a
  // probe never makes it active.
  lemma {:induction false} StatusMoves(cfg: ProberConfig, i: Indexer, e: Event)
    ensures e.HeartbeatSent? || e.Reregistered? ==> Apply(cfg, i, e).status == Active
    ensures e.Deregistered? ==> Apply(cfg, i, e).status == Inactive
    ensures e.ProbeRun? && i.status == Inactive ==> Apply(cfg, i, e).status == Inactive
  {
  }

  // An active indexer is marked inactive by a probe if and only if the probe comes too late after
  // the latest probe or heartbeat, whatever that probe and this one found.
  lemma {:induction false} DeactivatedIffUnseen(cfg: ProberConfig, i: Indexer, es: seq<Event>, tip: Option<int>,
                                                now: int)
    requires Run(cfg, i, es).status == Active
    ensures Run(cfg, i, es + [ProbeRun(tip, now)]).status == Inactive <==>
            LastSeen(i, es).Some? && now - LastSeen(i, es).value * 1_000_000_000 > cfg.inactiveAfter
  {
    assert (es + [ProbeRun(tip, now)])[..|es|] == es;
    HeartbeatIsLastSeen(cfg, i, es);
  }

  // How long before the k-th event the indexer was last seen, when that event is a probe.
  ghost predicate ComesTooLate(cfg: ProberConfig, i: Indexer, es: seq<Event>, k: nat)
    requires k < |es|
  {
    && es[k].ProbeRun? && LastSeen(i, es[..k]).Some?
    && es[k].now - LastSeen(i, es[..k]).value * SECOND > cfg.inactiveAfter
  }

  // An active indexer that only the prober ever sees stays active if and only if no probe comes
  // too late after the one before it. The outcomes do not matter: one that never answers again
  // stays active for as long as it is probed often enough.
  lemma {:induction false} UnansweredProbesKeepActiveIff(cfg: ProberConfig, i: Indexer, es: seq<Event>)
    requires i.status == Active && forall k :: 0 <= k < |es| ==> es[k].ProbeRun?
    ensures Run(cfg, i, es).status == Active <==> forall k :: 0 <= k < |es| ==> !ComesTooLate(cfg, i, es, k)
    decreases |es|
  {
    if es != [] {
      var front, last := es[..|es| - 1], es[|es| - 1];
      UnansweredProbesKeepActiveIff(cfg, i, front);
      HeartbeatIsLastSeen(cfg, i, front);
      forall k | 0 <= k < |front| ensures ComesTooLate(cfg, i, front, k) == ComesTooLate(cfg, i, es, k) {
        assert front[..k] == es[..k];
      }
      assert es[..|front|] == front;
      assert Run(cfg, i, es).status == Active <==>
             Run(cfg, i, front).status == Active && !ComesTooLate(cfg, i, es, |front|);
    }
  }
}
