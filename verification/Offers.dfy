// What the answers to tip and snapshot queries contain, in terms of the indexers' columns and the
// host's match history: who is offered, with which score and price, and in which order.
module Offers {
  import opened Common
  import opened Pricing
  import opened Discovery

  // ----- Scores ---------------------------------------------------------------------------------

  // The host's latest readable match with this indexer was at second `t`.
  ghost predicate LastMatched(history: Option<seq<PastMatch>>, id: string, t: int) {
    && history.Some?
    && PastMatch(id, Some(t)) in history.value
    && forall u :: PastMatch(id, Some(u)) in history.value ==> u <= t
  }

  // The latest match lies inside the window.
  ghost predicate IsRecent(cfg: DiscoveryConfig, history: Option<seq<PastMatch>>, id: string, now: int) {
    exists t :: LastMatched(history, id, t) && now - t * 1_000_000_000 < cfg.recencyWindow
  }

  // In a pool of more than three, a recent match costs all but a tenth of the score at first and
  // less and less until the window closes. Otherwise the score is the reliability.
  ghost predicate IsScore(cfg: DiscoveryConfig, history: Option<seq<PastMatch>>, poolSize: nat, now: int, x: Indexer,
                          score: real)
  {
    if poolSize > 3 && cfg.recencyWindow > 0 && IsRecent(cfg, history, x.peerId, now) then
      forall t :: LastMatched(history, x.peerId, t) ==>
        score == x.reliability * (0.1 + 0.9 * ((now - t * 1_000_000_000) as real / cfg.recencyWindow as real))
    else score == x.reliability
  }

  lemma {:induction false} RecencyIsLastMatch(history: Option<seq<PastMatch>>, id: string)
    ensures var recency := RecencyOf(history);
            forall t :: LastMatched(history, id, t) <==> recency.Some? && id in recency.value && recency.value[id] == t
  {
    var recency := RecencyOf(history);
    if recency.Some? {
      var h, m := history.value, recency.value;
      forall t | LastMatched(history, id, t) ensures id in m && m[id] == t {
        assert PastMatch(id, Some(t)) in h;
        assert id in m && t <= m[id];
        assert PastMatch(id, Some(m[id])) in h;
      }
      if id in m {
        assert PastMatch(id, Some(m[id])) in h;
      }
    }
  }

  lemma {:induction false} DiversityScores(cfg: DiscoveryConfig, history: Option<seq<PastMatch>>, poolSize: nat,
                                           now: int, x: Indexer)
    ensures IsScore(cfg, history, poolSize, now, x,
                    ApplyDiversity(cfg, x.peerId, x.reliability, RecencyOf(history), poolSize, now))
  {
    RecencyIsLastMatch(history, x.peerId);
    var recency := RecencyOf(history);
    if recency.Some? && x.peerId in recency.value {
      assert LastMatched(history, x.peerId, recency.value[x.peerId]);
    }
  }

  // ----- Prices ---------------------------------------------------------------------------------

  // What a deal clears at: nearer to the ask the more reliable the indexer is.
  function Clearing(ask: real, bid: real, reliability: real): real {
    if reliability <= 0.0 then bid else (ask * reliability + bid) / (1.0 + reliability)
  }

  function TipClearing(x: Indexer, budget: Option<Budget>): real {
    if x.pricing.Some? && budget.Some?
    then Clearing(x.pricing.value.tipPer1kBlocks, budget.value.maxTipPer1kBlocks, x.reliability) else 0.0
  }

  function SnapshotClearing(x: Indexer, budget: Option<Budget>): real {
    if x.pricing.Some? && budget.Some?
    then Clearing(x.pricing.value.snapshotPerRange, budget.value.maxSnapshotPerRange, x.reliability) else 0.0
  }

  lemma {:induction false} MatchesClear(x: Indexer, budget: Option<Budget>)
    ensures PriceMatch(x.pricing, budget, TipSub, x.reliability) == TipClearing(x, budget)
    ensures PriceMatch(x.pricing, budget, SnapshotSub, x.reliability) == SnapshotClearing(x, budget)
  {
  }

  // ----- Who is offered ----------------------------------------------------------------------------

  // The window is off, or the heartbeat is missing or no older than the window.
  predicate IsTimely(cfg: DiscoveryConfig, x: Indexer, now: int) {
    || cfg.stalenessWindow <= 0
    || x.lastHeartbeat.Missing?
    || (x.lastHeartbeat.At? && now - x.lastHeartbeat.seconds * 1_000_000_000 <= cfg.stalenessWindow)
  }

  predicate IsWanted(cfg: DiscoveryConfig, q: TipQuery, x: Indexer, now: int) {
    && IsTimely(cfg, x, now)
    && (q.minReliability <= 0.0 || q.minReliability <= x.reliability)
    && (x.pricing.Some? && q.budget.Some? && q.budget.value.maxTipPer1kBlocks > 0.0 ==>
          x.pricing.value.tipPer1kBlocks <= q.budget.value.maxTipPer1kBlocks)
  }

  // Some wanted indexer, or tip 0, is more than `gap` ahead.
  ghost predicate IsBehind(cfg: DiscoveryConfig, q: TipQuery, all: seq<Indexer>, now: int, x: Indexer, gap: int) {
    || 0 - x.currentTip > gap
    || exists y :: y in all && IsWanted(cfg, q, y, now) && y.currentTip - x.currentTip > gap
  }

  // Wanted, and not behind by more than the threshold unless so far that the difference wraps.
  ghost predicate IsTipCandidate(cfg: DiscoveryConfig, q: TipQuery, all: seq<Indexer>, now: int, x: Indexer) {
    && IsWanted(cfg, q, x, now)
    && (cfg.tipExclusionThreshold > 0 && IsBehind(cfg, q, all, now, x, cfg.tipExclusionThreshold) ==>
          IsBehind(cfg, q, all, now, x, 0x7fff_ffff_ffff_ffff))
  }

  predicate IsSnapshotCandidate(cfg: DiscoveryConfig, q: SnapshotQuery, x: Indexer, now: int) {
    && IsTimely(cfg, x, now)
    && (x.pricing.Some? && q.budget.Some? && q.budget.value.maxSnapshotPerRange > 0.0 ==>
          x.pricing.value.snapshotPerRange <= q.budget.value.maxSnapshotPerRange)
  }

  predicate Meets(q: SnapshotQuery, r: Range) {
    r.start <= q.blockTo && q.blockFrom <= r.end
  }

  ghost predicate HasSnapshot(q: SnapshotQuery, x: Indexer) {
    exists r :: r in x.ranges && Meets(q, r)
  }

  lemma {:induction false} WantedIff(cfg: DiscoveryConfig, q: TipQuery, x: Indexer, now: int)
    ensures SurvivesFirstPass(cfg, q, x, now) <==> IsWanted(cfg, q, x, now)
  {
  }

  lemma {:induction false} CandidateIff(cfg: DiscoveryConfig, q: TipQuery, all: seq<Indexer>, now: int, x: Indexer)
    ensures Eligible(cfg, q, all, now, x) <==> x in all && IsTipCandidate(cfg, q, all, now, x)
  {
    forall y ensures SurvivesFirstPass(cfg, q, y, now) <==> IsWanted(cfg, q, y, now) {
      WantedIff(cfg, q, y, now);
    }
    forall gap ensures Behind(cfg, q, all, now, x, gap) <==> IsBehind(cfg, q, all, now, x, gap) {
    }
    if Behind(cfg, q, all, now, x, MAX_INT64) && cfg.tipExclusionThreshold > 0 {
      assert IsBehind(cfg, q, all, now, x, MAX_INT64);
    }
  }

  lemma {:induction false} FirstPassKeeps(cfg: DiscoveryConfig, q: TipQuery, all: seq<Indexer>, now: int)
    ensures FirstPass(cfg, q, all, now) == Filtered(all, x => IsWanted(cfg, q, x, now))
  {
    if all != [] {
      FirstPassKeeps(cfg, q, all[..|all| - 1], now);
      WantedIff(cfg, q, all[|all| - 1], now);
    }
  }

  lemma {:induction false} SecondPassKeeps(cfg: DiscoveryConfig, reference: Int64, s: seq<Indexer>)
    requires reference >= 0
    ensures SecondPass(cfg, reference, s) == Filtered(s, x => !LagsBehind(cfg, reference, x))
  {
    if s != [] {
      SecondPassKeeps(cfg, reference, s[..|s| - 1]);
    }
  }

  lemma {:induction false} EligibleAreKept(cfg: DiscoveryConfig, q: TipQuery, all: seq<Indexer>, now: int)
    ensures TipEligible(cfg, q, all, now) == Filtered(all, x => IsTipCandidate(cfg, q, all, now, x))
  {
    var candidates := FirstPass(cfg, q, all, now);
    var reference := ReferenceTip(candidates);
    FirstPassKeeps(cfg, q, all, now);
    SecondPassKeeps(cfg, reference, candidates);
    forall x | x in all
      ensures IsTipCandidate(cfg, q, all, now, x) <==> IsWanted(cfg, q, x, now) && !LagsBehind(cfg, reference, x)
    {
      CandidateIff(cfg, q, all, now, x);
      TipEligibleIff(cfg, q, all, now, x);
      WantedIff(cfg, q, x, now);
    }
    FilteredTwice(all, x => IsWanted(cfg, q, x, now), x => !LagsBehind(cfg, reference, x),
              x => IsTipCandidate(cfg, q, all, now, x));
  }

  // ----- Tip answers ---------------------------------------------------------------------------------

  ghost predicate IsTipOffer(cfg: DiscoveryConfig, q: TipQuery, history: Option<seq<PastMatch>>, poolSize: nat,
                             now: int, x: Indexer, m: Match)
  {
    && m.peerId == x.peerId && m.currentTip == x.currentTip && m.pricing == x.pricing
    && m.snapshots == [] && !m.creationRequired
    && IsScore(cfg, history, poolSize, now, x, m.score)
    && m.clearingPrice == TipClearing(x, q.budget)
  }

  // No worse in score, and at equal scores no worse in tip.
  predicate TipOrder(a: Match, b: Match) {
    a.score > b.score || (a.score == b.score && a.currentTip >= b.currentTip)
  }

  lemma {:induction false} TipMatchIsOffer(cfg: DiscoveryConfig, q: TipQuery, history: Option<seq<PastMatch>>,
                                           poolSize: nat, now: int, x: Indexer)
    ensures IsTipOffer(cfg, q, history, poolSize, now, x, TipMatch(cfg, q, RecencyOf(history), poolSize, now, x))
  {
    DiversityScores(cfg, history, poolSize, now, x);
    MatchesClear(x, q.budget);
  }

  // A tip answer comes from one offer for each candidate. It has as many of them as the limit asks
  // for, in order, and none of those left out is better.
  lemma {:induction false} TipAnswer(cfg: DiscoveryConfig, q: TipQuery, all: seq<Indexer>,
                                     history: Option<seq<PastMatch>>, now: int, r: seq<Match>)
    returns (candidates: seq<Indexer>, offers: seq<Match>)
    requires IsTopOf(true, TipPool(cfg, q, all, RecencyOf(history), now), q.limit, r)
    ensures candidates == Filtered(all, x => IsTipCandidate(cfg, q, all, now, x))
    ensures |offers| == |candidates|
    ensures forall i :: 0 <= i < |offers| ==>
              IsTipOffer(cfg, q, history, |candidates|, now, candidates[i], offers[i])
    ensures |r| == if 0 < q.limit < |offers| then q.limit else |offers|
    ensures multiset(r) <= multiset(offers)
    ensures forall i, j :: 0 <= i < j < |r| ==> TipOrder(r[i], r[j])
    ensures forall a, b :: a in r && b in multiset(offers) - multiset(r) ==> TipOrder(a, b)
  {
    candidates := TipEligible(cfg, q, all, now);
    offers := TipPool(cfg, q, all, RecencyOf(history), now);
    EligibleAreKept(cfg, q, all, now);
    forall i | 0 <= i < |offers| ensures IsTipOffer(cfg, q, history, |candidates|, now, candidates[i], offers[i]) {
      TipMatchIsOffer(cfg, q, history, |candidates|, now, candidates[i]);
    }
    forall a, b ensures TipOrder(a, b) <==> !Outranks(true, b, a) {
    }
  }

  // Of two indexers that are equally reliable, the one matched recently has the lower score.
  lemma {:induction false} RecentScoresLower(cfg: DiscoveryConfig, history: Option<seq<PastMatch>>, poolSize: nat,
                                             now: int, x: Indexer, y: Indexer, s: real, t: real)
    requires IsScore(cfg, history, poolSize, now, x, s) && IsScore(cfg, history, poolSize, now, y, t)
    requires poolSize > 3 && cfg.recencyWindow > 0 && x.reliability == y.reliability > 0.0
    requires IsRecent(cfg, history, x.peerId, now) && !IsRecent(cfg, history, y.peerId, now)
    ensures s < t
  {
    var at :| LastMatched(history, x.peerId, at) && now - at * 1_000_000_000 < cfg.recencyWindow;
    var elapsed, w := (now - at * 1_000_000_000) as real, cfg.recencyWindow as real;
    FractionOrder(elapsed, w, w);
    var weight := 0.1 + 0.9 * (elapsed / w);
    assert weight < 1.0;
    assert s == x.reliability * weight;
    assert x.reliability * (1.0 - weight) > 0.0;
  }

  // So in a pool of more than three it never comes first.
  lemma {:induction false} RecentlyMatchedYield(cfg: DiscoveryConfig, q: TipQuery, history: Option<seq<PastMatch>>,
                                                poolSize: nat, now: int, x: Indexer, y: Indexer, r: seq<Match>, i: nat,
                                                j: nat)
    requires i < |r| && j < |r| && forall k, l :: 0 <= k < l < |r| ==> TipOrder(r[k], r[l])
    requires IsTipOffer(cfg, q, history, poolSize, now, x, r[i]) && IsTipOffer(cfg, q, history, poolSize, now, y, r[j])
    requires poolSize > 3 && cfg.recencyWindow > 0 && x.reliability == y.reliability > 0.0
    requires IsRecent(cfg, history, x.peerId, now) && !IsRecent(cfg, history, y.peerId, now)
    ensures j < i
  {
    RecentScoresLower(cfg, history, poolSize, now, x, y, r[i].score, r[j].score);
    assert !TipOrder(r[i], r[j]);
  }

  // ----- Snapshot answers --------------------------------------------------------------------------

  ghost predicate IsSnapshotOffer(cfg: DiscoveryConfig, q: SnapshotQuery, history: Option<seq<PastMatch>>,
                                  poolSize: nat, now: int, x: Indexer, m: Match)
  {
    && m.peerId == x.peerId && m.currentTip == x.currentTip && m.pricing == x.pricing
    && m.snapshots == Filtered(x.ranges, r => Meets(q, r))
    && (m.creationRequired <==> !HasSnapshot(q, x))
    && IsScore(cfg, history, poolSize, now, x, m.score)
    && m.clearingPrice == SnapshotClearing(x, q.budget)
  }

  lemma {:induction false} OverlappingAreKept(q: SnapshotQuery, ranges: seq<Range>)
    ensures OverlappingRanges(ranges, q.blockFrom, q.blockTo) == Filtered(ranges, r => Meets(q, r))
  {
    if ranges != [] {
      OverlappingAreKept(q, ranges[..|ranges| - 1]);
    }
  }

  lemma {:induction false} HolderHasSnapshot(q: SnapshotQuery, x: Indexer)
    ensures IsHolder(q, x) <==> HasSnapshot(q, x)
  {
    var out := OverlappingRanges(x.ranges, q.blockFrom, q.blockTo);
    OverlappingAreKept(q, x.ranges);
    if out != [] {
      assert out[0] in out;
    }
    if r :| r in x.ranges && Meets(q, r) {
      assert r in out;
    }
  }

  lemma {:induction false} SnapshotMatchIsOffer(cfg: DiscoveryConfig, q: SnapshotQuery,
                                                history: Option<seq<PastMatch>>, poolSize: nat, now: int, x: Indexer)
    ensures IsSnapshotOffer(cfg, q, history, poolSize, now, x,
                            SnapshotMatch(cfg, q, RecencyOf(history), poolSize, now, x))
  {
    var m := SnapshotMatch(cfg, q, RecencyOf(history), poolSize, now, x);
    DiversityScores(cfg, history, poolSize, now, x);
    MatchesClear(x, q.budget);
    OverlappingAreKept(q, x.ranges);
    HolderHasSnapshot(q, x);
    assert IsScore(cfg, history, poolSize, now, x, m.score) && m.clearingPrice == SnapshotClearing(x, q.budget);
  }

  // The candidates of one tier: those with a range that meets the query, or those without.
  ghost function TierOf(cfg: DiscoveryConfig, q: SnapshotQuery, all: seq<Indexer>, now: int, holders: bool)
    : seq<Indexer>
  {
    Filtered(all, x => IsSnapshotCandidate(cfg, q, x, now) && HasSnapshot(q, x) == holders)
  }

  lemma {:induction false} TierIsOffers(cfg: DiscoveryConfig, q: SnapshotQuery, history: Option<seq<PastMatch>>,
                                        poolSize: nat, now: int, all: seq<Indexer>, holders: bool)
    ensures var tier := Tier(cfg, q, RecencyOf(history), poolSize, now, all, holders);
            var xs := TierOf(cfg, q, all, now, holders);
            && |tier| == |xs|
            && forall i :: 0 <= i < |xs| ==> IsSnapshotOffer(cfg, q, history, poolSize, now, xs[i], tier[i])
  {
    if all != [] {
      var front, last := all[..|all| - 1], all[|all| - 1];
      TierIsOffers(cfg, q, history, poolSize, now, front, holders);
      SnapshotMatchIsOffer(cfg, q, history, poolSize, now, last);
      HolderHasSnapshot(q, last);
      assert Offered(cfg, q, last, now) <==> IsSnapshotCandidate(cfg, q, last, now);
    }
  }

  ghost predicate ScoreOrder(s: seq<Match>) {
    forall i, j :: 0 <= i < j < |s| ==> s[i].score >= s[j].score
  }

  // A snapshot answer comes from one offer for each candidate: first those of the holders by score,
  // then those of the others by score, up to the limit.
  lemma {:induction false} SnapshotAnswer(cfg: DiscoveryConfig, q: SnapshotQuery, all: seq<Indexer>,
                                          history: Option<seq<PastMatch>>, now: int, r: seq<Match>)
    returns (holders: seq<Match>, others: seq<Match>, h: seq<Match>, f: seq<Match>)
    requires IsTiered(Tier(cfg, q, RecencyOf(history), |all|, now, all, true),
                      Tier(cfg, q, RecencyOf(history), |all|, now, all, false), q.limit, r)
    ensures var xs := TierOf(cfg, q, all, now, true);
            |holders| == |xs| && forall i :: 0 <= i < |xs| ==>
              IsSnapshotOffer(cfg, q, history, |all|, now, xs[i], holders[i])
    ensures var xs := TierOf(cfg, q, all, now, false);
            |others| == |xs| && forall i :: 0 <= i < |xs| ==>
              IsSnapshotOffer(cfg, q, history, |all|, now, xs[i], others[i])
    ensures multiset(h) == multiset(holders) && multiset(f) == multiset(others)
    ensures ScoreOrder(h) && ScoreOrder(f)
    ensures r <= h + f && |r| == if 0 < q.limit < |h + f| then q.limit else |h + f|
  {
    holders := Tier(cfg, q, RecencyOf(history), |all|, now, all, true);
    others := Tier(cfg, q, RecencyOf(history), |all|, now, all, false);
    TierIsOffers(cfg, q, history, |all|, now, all, true);
    TierIsOffers(cfg, q, history, |all|, now, all, false);
    h, f :| IsTieredBy(holders, others, q.limit, r, h, f);
    RankedIsScoreOrder(h);
    RankedIsScoreOrder(f);
  }

  lemma {:induction false} RankedIsScoreOrder(s: seq<Match>)
    ensures Ranked(false, s) <==> ScoreOrder(s)
  {
    if ScoreOrder(s) {
      forall i, j | 0 <= i < j < |s| ensures !Outranks(false, s[j], s[i]) {
      }
    }
    if Ranked(false, s) {
      forall i, j | 0 <= i < j < |s| ensures s[i].score >= s[j].score {
        assert !Outranks(false, s[j], s[i]);
      }
    }
  }

  // With more than three indexers in the store, a recently matched one never comes before an equally
  // reliable other of its tier.
  lemma {:induction false} RecentlyMatchedYieldInTheirTier(cfg: DiscoveryConfig, q: SnapshotQuery,
                                                           history: Option<seq<PastMatch>>, poolSize: nat, now: int,
                                                           x: Indexer, y: Indexer, tier: seq<Match>, i: nat, j: nat)
    requires i < |tier| && j < |tier| && ScoreOrder(tier)
    requires IsSnapshotOffer(cfg, q, history, poolSize, now, x, tier[i])
    requires IsSnapshotOffer(cfg, q, history, poolSize, now, y, tier[j])
    requires poolSize > 3 && cfg.recencyWindow > 0 && x.reliability == y.reliability > 0.0
    requires IsRecent(cfg, history, x.peerId, now) && !IsRecent(cfg, history, y.peerId, now)
    ensures j < i
  {
    RecentScoresLower(cfg, history, poolSize, now, x, y, tier[i].score, tier[j].score);
  }
}
