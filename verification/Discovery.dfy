// Tip and snapshot discovery: filter, weigh, sort, truncate. Records come with their JSON
// columns decoded; an empty or unreadable column decodes to None or to no ranges.
module Discovery {
  import opened Common
  import opened Pricing

  datatype Range = Range(start: int, end: int)

  datatype Heartbeat = Missing | Unreadable | At(seconds: int)

  datatype Indexer = Indexer(peerId: string, currentTip: Int64, reliability: real, pricing: Option<Price>,
                             ranges: seq<Range>, lastHeartbeat: Heartbeat)

  datatype Match = Match(peerId: string, currentTip: int, score: real, pricing: Option<Price>,
                         snapshots: seq<Range>, clearingPrice: real, creationRequired: bool)

  datatype TipQuery = TipQuery(minReliability: real, limit: int, budget: Option<Budget>)

  datatype SnapshotQuery = SnapshotQuery(blockFrom: int, blockTo: int, limit: int, budget: Option<Budget>)

  // Windows are in nanoseconds.
  datatype DiscoveryConfig = DiscoveryConfig(stalenessWindow: int, tipExclusionThreshold: Int64, recencyWindow: int)

  datatype PastMatch = PastMatch(indexerId: string, matchedAt: Option<int>)

  // ----- Weights -----------------------------------------------------------------------

  function DiversityWeight(elapsed: int, recencyWindow: int): real {
    if recencyWindow <= 0 || elapsed >= recencyWindow then 1.0
    else 0.1 + 0.9 * (elapsed as real / recencyWindow as real)
  }

  // When each indexer was last matched with the host; None switches weighting off.
  type Recency = Option<map<string, int>>

  function ApplyDiversity(cfg: DiscoveryConfig, id: string, score: real, recency: Recency, poolSize: nat, now: int)
    : real
  {
    if recency.None? || poolSize <= 3 || id !in recency.value then score
    else score * DiversityWeight(now - recency.value[id] * SECOND, cfg.recencyWindow)
  }

  predicate IsStale(cfg: DiscoveryConfig, idx: Indexer, now: int) {
    if cfg.stalenessWindow <= 0 || idx.lastHeartbeat.Missing? then false
    else idx.lastHeartbeat.Unreadable? || now - idx.lastHeartbeat.seconds * SECOND > cfg.stalenessWindow
  }

  // The latest readable match of each indexer.
  ghost predicate IsLatest(history: seq<PastMatch>, m: map<string, int>) {
    && (forall id :: id in m ==> exists i :: 0 <= i < |history| && history[i] == PastMatch(id, Some(m[id])))
    && (forall i :: 0 <= i < |history| && history[i].matchedAt.Some? ==>
          history[i].indexerId in m && history[i].matchedAt.value <= m[history[i].indexerId])
  }

  function Noted(m: map<string, int>, p: PastMatch): map<string, int> {
    if p.matchedAt.Some? && (p.indexerId !in m || p.matchedAt.value > m[p.indexerId])
    then m[p.indexerId := p.matchedAt.value] else m
  }

  function Latest(history: seq<PastMatch>): (m: map<string, int>)
    ensures IsLatest(history, m)
  {
    if history == [] then map[]
    else
      var n := |history| - 1;
      var before := Latest(history[..n]);
      ExtendLatest(history, n, before);
      assert history[..n + 1] == history;
      Noted(before, history[n])
  }

  // `history` is what the match store answers for the host; None stands for weighting being
  // disabled, an anonymous host, or a failing store.
  function RecencyOf(history: Option<seq<PastMatch>>): (recency: Recency)
    ensures recency.Some? <==> history.Some? && history.value != []
    ensures recency.Some? ==> IsLatest(history.value, recency.value)
  {
    if history.None? || history.value == [] then None else Some(Latest(history.value))
  }

  method LoadDiversityMap(history: Option<seq<PastMatch>>) returns (recency: Recency)
    ensures recency == RecencyOf(history)
  {
    if history.None? || |history.value| == 0 {
      return None;
    }
    var h := history.value;
    var m: map<string, int> := map[];
    for i := 0 to |h|
      invariant m == Latest(h[..i])
    {
      assert h[..i + 1] == h[..i] + [h[i]];
      LatestSnoc(h[..i], h[i]);
      if h[i].matchedAt.Some? {
        var id, t := h[i].indexerId, h[i].matchedAt.value;
        if id !in m || t > m[id] {
          m := m[id := t];
        }
      }
    }
    assert h[..|h|] == h;
    return Some(m);
  }

  lemma {:induction false} LatestSnoc(history: seq<PastMatch>, p: PastMatch)
    ensures Latest(history + [p]) == Noted(Latest(history), p)
  {
    assert (history + [p])[..|history|] == history;
  }

  // The latest times are determined by the history.
  lemma {:induction false} LatestIsUnique(history: seq<PastMatch>, m: map<string, int>)
    requires IsLatest(history, m)
    ensures m == Latest(history)
  {
    var r := Latest(history);
    assert IsLatest(history, r);
    forall id ensures (id in m <==> id in r) && (id in m ==> m[id] == r[id]) {
      if id in m {
        var i :| 0 <= i < |history| && history[i] == PastMatch(id, Some(m[id]));
        assert id in r && m[id] <= r[id];
      }
      if id in r {
        var i :| 0 <= i < |history| && history[i] == PastMatch(id, Some(r[id]));
        assert id in m && r[id] <= m[id];
      }
    }
  }

  lemma {:induction false} ExtendLatest(h: seq<PastMatch>, i: nat, before: map<string, int>)
    requires i < |h| && IsLatest(h[..i], before)
    ensures IsLatest(h[..i + 1], Noted(before, h[i]))
  {
    var m := Noted(before, h[i]);
    var next := h[..i + 1];
    assert forall j :: 0 <= j < i ==> next[j] == h[..i][j];
    forall id | id in m ensures exists j :: 0 <= j < |next| && next[j] == PastMatch(id, Some(m[id])) {
      if id in before && before[id] == m[id] {
        var j :| 0 <= j < |h[..i]| && h[..i][j] == PastMatch(id, Some(before[id]));
        assert next[j] == PastMatch(id, Some(m[id]));
      } else {
        assert next[i] == PastMatch(id, Some(m[id]));
      }
    }
  }

  // ----- Ranking -------------------------------------------------------------------------

  // Strictly better in the tip order (score, then tip) or, without tips, in the score order.
  predicate Outranks(byTip: bool, a: Match, b: Match) {
    a.score > b.score || (byTip && a.score == b.score && a.currentTip > b.currentTip)
  }

  ghost predicate Ranked(byTip: bool, s: seq<Match>) {
    forall i, j :: 0 <= i < j < |s| ==> !Outranks(byTip, s[j], s[i])
  }

  // Any sorting procedure; equally ranked matches may come out in any order.
  method SortMatches(byTip: bool, s: seq<Match>) returns (r: seq<Match>)
    ensures Ranked(byTip, r) && multiset(r) == multiset(s)
  {
    r := [];
    for i := 0 to |s|
      invariant Ranked(byTip, r) && multiset(r) == multiset(s[..i])
    {
      assert s[..i + 1] == s[..i] + [s[i]];
      r := InsertMatch(byTip, r, s[i]);
    }
    assert s[..|s|] == s;
  }

  method InsertMatch(byTip: bool, s: seq<Match>, x: Match) returns (r: seq<Match>)
    requires Ranked(byTip, s)
    ensures Ranked(byTip, r) && multiset(r) == multiset(s) + multiset{x}
  {
    var k := |s|;
    while k > 0 && Outranks(byTip, x, s[k - 1])
      invariant 0 <= k <= |s|
      invariant forall j :: k <= j < |s| ==> Outranks(byTip, x, s[j])
    {
      k := k - 1;
    }
    InsertRanked(byTip, s, k, x);
    assert s == s[..k] + s[k..];
    r := s[..k] + [x] + s[k..];
  }

  lemma {:induction false} InsertRanked(byTip: bool, r: seq<Match>, k: nat, x: Match)
    requires Ranked(byTip, r) && k <= |r|
    requires forall j :: k <= j < |r| ==> Outranks(byTip, x, r[j])
    requires k > 0 ==> !Outranks(byTip, x, r[k - 1])
    ensures Ranked(byTip, r[..k] + [x] + r[k..])
  {
    var t := r[..k] + [x] + r[k..];
    forall i, j | 0 <= i < j < |t| ensures !Outranks(byTip, t[j], t[i]) {
      if j == k && i < k - 1 {
        assert !Outranks(byTip, r[k - 1], r[i]);
      }
    }
  }

  function Truncate(s: seq<Match>, limit: int): (r: seq<Match>)
    ensures r <= s && |r| == if 0 < limit < |s| then limit else |s|
  {
    if limit > 0 && |s| > limit then s[..limit] else s
  }

  // The best of a pool: ranked, as long as the limit dictates, and nothing left out outranks
  // anything kept.
  ghost predicate IsTopOf(byTip: bool, pool: seq<Match>, limit: int, r: seq<Match>) {
    && Ranked(byTip, r)
    && |r| == (if 0 < limit < |pool| then limit else |pool|)
    && multiset(r) <= multiset(pool)
    && forall a, b :: a in r && b in multiset(pool) - multiset(r) ==> !Outranks(byTip, b, a)
  }

  lemma {:induction false} RankedAcross(byTip: bool, r: seq<Match>, rest: seq<Match>)
    requires Ranked(byTip, r + rest)
    ensures Ranked(byTip, r)
    ensures forall a, b :: a in r && b in rest ==> !Outranks(byTip, b, a)
  {
    var sorted := r + rest;
    forall i, j | 0 <= i < j < |r| ensures !Outranks(byTip, r[j], r[i]) {
      assert !Outranks(byTip, sorted[j], sorted[i]);
    }
    forall a, b | a in r && b in rest ensures !Outranks(byTip, b, a) {
      var i :| 0 <= i < |r| && r[i] == a;
      var j :| 0 <= j < |rest| && rest[j] == b;
      assert sorted[i] == a && sorted[|r| + j] == b;
    }
  }

  lemma {:induction false} SortedPrefixIsTop(byTip: bool, pool: seq<Match>, limit: int, sorted: seq<Match>)
    requires Ranked(byTip, sorted) && multiset(sorted) == multiset(pool)
    ensures IsTopOf(byTip, pool, limit, Truncate(sorted, limit))
  {
    var r := Truncate(sorted, limit);
    var rest := sorted[|r|..];
    assert sorted == r + rest;
    RankedAcross(byTip, r, rest);
    assert |multiset(sorted)| == |sorted| && |multiset(pool)| == |pool|;
    assert multiset(pool) == multiset(r) + multiset(rest);
    assert multiset(pool) - multiset(r) == multiset(rest);
    assert forall b :: b in multiset(rest) <==> b in rest;
  }

  // ----- Tip discovery ------------------------------------------------------------------------

  predicate SurvivesFirstPass(cfg: DiscoveryConfig, q: TipQuery, idx: Indexer, now: int) {
    && !IsStale(cfg, idx, now)
    && !(q.minReliability > 0.0 && idx.reliability < q.minReliability)
    && PriceOverlaps(idx.pricing, q.budget, TipSub)
  }

  function FirstPass(cfg: DiscoveryConfig, q: TipQuery, all: seq<Indexer>, now: int): (r: seq<Indexer>)
    ensures forall x :: x in r <==> x in all && SurvivesFirstPass(cfg, q, x, now)
  {
    if all == [] then []
    else
      assert all == all[..|all| - 1] + [all[|all| - 1]];
      var front, last := FirstPass(cfg, q, all[..|all| - 1], now), all[|all| - 1];
      if SurvivesFirstPass(cfg, q, last, now) then front + [last] else front
  }

  // The largest tip of the candidates, or 0 if none is positive.
  function ReferenceTip(s: seq<Indexer>): (tip: Int64)
    ensures tip >= 0 && forall x :: x in s ==> x.currentTip <= tip
    ensures tip == 0 || exists x :: x in s && x.currentTip == tip
  {
    if s == [] then 0
    else
      assert s == s[..|s| - 1] + [s[|s| - 1]];
      var tip, last := ReferenceTip(s[..|s| - 1]), s[|s| - 1];
      if last.currentTip > tip then last.currentTip else tip
  }

  // The difference is one of 64-bit integers.
  predicate LagsBehind(cfg: DiscoveryConfig, reference: Int64, idx: Indexer)
    requires reference >= 0
  {
    cfg.tipExclusionThreshold > 0 && Wrapped(reference - idx.currentTip) > cfg.tipExclusionThreshold
  }

  function SecondPass(cfg: DiscoveryConfig, reference: Int64, s: seq<Indexer>): (r: seq<Indexer>)
    requires reference >= 0
    ensures forall x :: x in r <==> x in s && !LagsBehind(cfg, reference, x)
  {
    if s == [] then []
    else
      assert s == s[..|s| - 1] + [s[|s| - 1]];
      var front, last := SecondPass(cfg, reference, s[..|s| - 1]), s[|s| - 1];
      if LagsBehind(cfg, reference, last) then front else front + [last]
  }

  function PriceMatch(p: Option<Price>, b: Option<Budget>, t: SubType, reliability: real): real {
    if b.Some? && p.Some? then ClearingPrice(AskForType(p, t), BidForType(b, t), reliability) else 0.0
  }

  function TipMatch(cfg: DiscoveryConfig, q: TipQuery, recency: Recency, poolSize: nat, now: int, idx: Indexer): Match {
    Match(idx.peerId, idx.currentTip, ApplyDiversity(cfg, idx.peerId, idx.reliability, recency, poolSize, now),
          idx.pricing, [], PriceMatch(idx.pricing, q.budget, TipSub, idx.reliability), false)
  }

  function TipMatches(cfg: DiscoveryConfig, q: TipQuery, recency: Recency, poolSize: nat, now: int, s: seq<Indexer>)
    : (r: seq<Match>)
    ensures |r| == |s|
    ensures forall i :: 0 <= i < |s| ==> r[i] == TipMatch(cfg, q, recency, poolSize, now, s[i])
  {
    if s == [] then []
    else
      TipMatches(cfg, q, recency, poolSize, now, s[..|s| - 1]) + [TipMatch(cfg, q, recency, poolSize, now, s[|s| - 1])]
  }

  function TipEligible(cfg: DiscoveryConfig, q: TipQuery, all: seq<Indexer>, now: int): seq<Indexer> {
    var candidates := FirstPass(cfg, q, all, now);
    SecondPass(cfg, ReferenceTip(candidates), candidates)
  }

  function TipPool(cfg: DiscoveryConfig, q: TipQuery, all: seq<Indexer>, recency: Recency, now: int): seq<Match> {
    var eligible := TipEligible(cfg, q, all, now);
    TipMatches(cfg, q, recency, |eligible|, now, eligible)
  }

  method FindForTip(cfg: DiscoveryConfig, q: TipQuery, all: seq<Indexer>, history: Option<seq<PastMatch>>, now: int)
    returns (matches: seq<Match>)
    ensures IsTopOf(true, TipPool(cfg, q, all, RecencyOf(history), now), q.limit, matches)
  {
    var candidates, referenceTip := CollectCandidates(cfg, q, all, now);
    var filtered := ExcludeLaggards(cfg, referenceTip, candidates);
    var diversity := LoadDiversityMap(history);
    var pool := BuildTipMatches(cfg, q, diversity, now, filtered);
    var sorted := SortMatches(true, pool);
    SortedPrefixIsTop(true, pool, q.limit, sorted);
    matches := Truncate(sorted, q.limit);
  }

  method CollectCandidates(cfg: DiscoveryConfig, q: TipQuery, all: seq<Indexer>, now: int)
    returns (candidates: seq<Indexer>, referenceTip: Int64)
    ensures candidates == FirstPass(cfg, q, all, now) && referenceTip == ReferenceTip(candidates)
  {
    candidates, referenceTip := [], 0;
    for i := 0 to |all|
      invariant Collected(cfg, q, all[..i], now) == (candidates, referenceTip)
    {
      assert all[..i + 1] == all[..i] + [all[i]];
      CollectedSnoc(cfg, q, all[..i], all[i], now);
      var survives := PassesFilters(cfg, q, all[i], now);
      if !survives {
        continue;
      }
      if all[i].currentTip > referenceTip {
        referenceTip := all[i].currentTip;
      }
      candidates := candidates + [all[i]];
    }
    assert all[..|all|] == all;
  }

  function Collected(cfg: DiscoveryConfig, q: TipQuery, all: seq<Indexer>, now: int): (seq<Indexer>, Int64) {
    (FirstPass(cfg, q, all, now), ReferenceTip(FirstPass(cfg, q, all, now)))
  }

  lemma {:induction false} CollectedSnoc(cfg: DiscoveryConfig, q: TipQuery, all: seq<Indexer>, idx: Indexer, now: int)
    ensures var (candidates, tip) := Collected(cfg, q, all, now);
            Collected(cfg, q, all + [idx], now)
            == if SurvivesFirstPass(cfg, q, idx, now)
               then (candidates + [idx], if idx.currentTip > tip then idx.currentTip else tip)
               else (candidates, tip)
  {
    FirstPassSnoc(cfg, q, all, idx, now);
    ReferenceTipSnoc(FirstPass(cfg, q, all, now), idx);
  }

  // The filters of the first pass, in order.
  method PassesFilters(cfg: DiscoveryConfig, q: TipQuery, idx: Indexer, now: int) returns (survives: bool)
    ensures survives == SurvivesFirstPass(cfg, q, idx, now)
  {
    if IsStale(cfg, idx, now) {
      return false;
    }
    if q.minReliability > 0.0 && idx.reliability < q.minReliability {
      return false;
    }
    if !PriceOverlaps(idx.pricing, q.budget, TipSub) {
      return false;
    }
    return true;
  }

  lemma {:induction false} FirstPassSnoc(cfg: DiscoveryConfig, q: TipQuery, all: seq<Indexer>, idx: Indexer, now: int)
    ensures FirstPass(cfg, q, all + [idx], now)
         == FirstPass(cfg, q, all, now) + if SurvivesFirstPass(cfg, q, idx, now) then [idx] else []
  {
    assert (all + [idx])[..|all|] == all;
  }

  lemma {:induction false} ReferenceTipSnoc(s: seq<Indexer>, idx: Indexer)
    ensures ReferenceTip(s + [idx]) == if idx.currentTip > ReferenceTip(s) then idx.currentTip else ReferenceTip(s)
  {
    assert (s + [idx])[..|s|] == s;
  }

  method ExcludeLaggards(cfg: DiscoveryConfig, referenceTip: Int64, candidates: seq<Indexer>)
    returns (filtered: seq<Indexer>)
    requires referenceTip >= 0
    ensures filtered == SecondPass(cfg, referenceTip, candidates)
  {
    filtered := [];
    for i := 0 to |candidates|
      invariant filtered == SecondPass(cfg, referenceTip, candidates[..i])
    {
      assert candidates[..i + 1][..i] == candidates[..i];
      if cfg.tipExclusionThreshold > 0
         && Wrapped(referenceTip - candidates[i].currentTip) > cfg.tipExclusionThreshold {
        continue;
      }
      filtered := filtered + [candidates[i]];
    }
    assert candidates[..|candidates|] == candidates;
  }

  method BuildTipMatches(cfg: DiscoveryConfig, q: TipQuery, recency: Recency, now: int, filtered: seq<Indexer>)
    returns (pool: seq<Match>)
    ensures pool == TipMatches(cfg, q, recency, |filtered|, now, filtered)
  {
    pool := [];
    for i := 0 to |filtered|
      invariant pool == TipMatches(cfg, q, recency, |filtered|, now, filtered[..i])
    {
      assert filtered[..i + 1][..i] == filtered[..i];
      var c := filtered[i];
      var clearing := 0.0;
      if q.budget.Some? && c.pricing.Some? {
        clearing := ClearingPrice(AskForType(c.pricing, TipSub), BidForType(q.budget, TipSub), c.reliability);
      }
      var score := ApplyDiversity(cfg, c.peerId, c.reliability, recency, |filtered|, now);
      pool := pool + [Match(c.peerId, c.currentTip, score, c.pricing, [], clearing, false)];
    }
    assert filtered[..|filtered|] == filtered;
  }

  // ----- Snapshot discovery ---------------------------------------------------------------------

  predicate Overlaps(r: Range, from: int, to: int) {
    r.start <= to && r.end >= from
  }

  function OverlappingRanges(ranges: seq<Range>, from: int, to: int): (out: seq<Range>)
    ensures forall r :: r in out <==> r in ranges && Overlaps(r, from, to)
  {
    if ranges == [] then []
    else
      assert ranges == ranges[..|ranges| - 1] + [ranges[|ranges| - 1]];
      var front, last := OverlappingRanges(ranges[..|ranges| - 1], from, to), ranges[|ranges| - 1];
      if Overlaps(last, from, to) then front + [last] else front
  }

  predicate Offered(cfg: DiscoveryConfig, q: SnapshotQuery, idx: Indexer, now: int) {
    !IsStale(cfg, idx, now) && PriceOverlaps(idx.pricing, q.budget, SnapshotSub)
  }

  predicate IsHolder(q: SnapshotQuery, idx: Indexer) {
    OverlappingRanges(idx.ranges, q.blockFrom, q.blockTo) != []
  }

  function SnapshotMatch(cfg: DiscoveryConfig, q: SnapshotQuery, recency: Recency, poolSize: nat, now: int,
                         idx: Indexer): Match
  {
    Match(idx.peerId, idx.currentTip, ApplyDiversity(cfg, idx.peerId, idx.reliability, recency, poolSize, now),
          idx.pricing, OverlappingRanges(idx.ranges, q.blockFrom, q.blockTo),
          PriceMatch(idx.pricing, q.budget, SnapshotSub, idx.reliability), !IsHolder(q, idx))
  }

  // The matches of the offered indexers of one tier, in store order.
  function Tier(cfg: DiscoveryConfig, q: SnapshotQuery, recency: Recency, poolSize: nat, now: int,
                all: seq<Indexer>, holders: bool): (r: seq<Match>)
    ensures forall m :: m in r <==> exists x :: x in all && Offered(cfg, q, x, now) && IsHolder(q, x) == holders
                                             && m == SnapshotMatch(cfg, q, recency, poolSize, now, x)
  {
    if all == [] then []
    else
      assert all == all[..|all| - 1] + [all[|all| - 1]];
      var front, last := Tier(cfg, q, recency, poolSize, now, all[..|all| - 1], holders), all[|all| - 1];
      if Offered(cfg, q, last, now) && IsHolder(q, last) == holders
      then front + [SnapshotMatch(cfg, q, recency, poolSize, now, last)] else front
  }

  // Both tiers ranked by score, holders first, then the limit.
  ghost predicate IsTiered(holders: seq<Match>, fallbacks: seq<Match>, limit: int, r: seq<Match>) {
    exists h: seq<Match>, f: seq<Match> :: IsTieredBy(holders, fallbacks, limit, r, h, f)
  }

  ghost predicate IsTieredBy(holders: seq<Match>, fallbacks: seq<Match>, limit: int, r: seq<Match>, h: seq<Match>,
                             f: seq<Match>)
  {
    && Ranked(false, h) && multiset(h) == multiset(holders)
    && Ranked(false, f) && multiset(f) == multiset(fallbacks)
    && r == Truncate(h + f, limit)
  }

  method FindForSnapshot(cfg: DiscoveryConfig, q: SnapshotQuery, all: seq<Indexer>, history: Option<seq<PastMatch>>,
                         now: int)
    returns (matches: seq<Match>)
    ensures var recency := RecencyOf(history);
            IsTiered(Tier(cfg, q, recency, |all|, now, all, true), Tier(cfg, q, recency, |all|, now, all, false),
                     q.limit, matches)
  {
    var diversity := LoadDiversityMap(history);
    var withSnapshot, withoutSnapshot := SplitTiers(cfg, q, diversity, all, now);
    var h := SortMatches(false, withSnapshot);
    var f := SortMatches(false, withoutSnapshot);
    matches := Truncate(h + f, q.limit);
    assert IsTieredBy(withSnapshot, withoutSnapshot, q.limit, matches, h, f);
  }

  method SplitTiers(cfg: DiscoveryConfig, q: SnapshotQuery, recency: Recency, all: seq<Indexer>, now: int)
    returns (withSnapshot: seq<Match>, withoutSnapshot: seq<Match>)
    ensures withSnapshot == Tier(cfg, q, recency, |all|, now, all, true)
    ensures withoutSnapshot == Tier(cfg, q, recency, |all|, now, all, false)
  {
    withSnapshot, withoutSnapshot := [], [];
    for i := 0 to |all|
      invariant withSnapshot == Tier(cfg, q, recency, |all|, now, all[..i], true)
      invariant withoutSnapshot == Tier(cfg, q, recency, |all|, now, all[..i], false)
    {
      assert all[..i + 1][..i] == all[..i];
      var idx := all[i];
      if IsStale(cfg, idx, now) {
        continue;
      }
      if !PriceOverlaps(idx.pricing, q.budget, SnapshotSub) {
        continue;
      }
      var m := BuildSnapshotMatch(cfg, q, recency, |all|, idx, now);
      if |m.snapshots| > 0 {
        withSnapshot := withSnapshot + [m];
      } else {
        withoutSnapshot := withoutSnapshot + [m.(creationRequired := true)];
      }
    }
    assert all[..|all|] == all;
  }

  method BuildSnapshotMatch(cfg: DiscoveryConfig, q: SnapshotQuery, recency: Recency, poolSize: nat, idx: Indexer,
                            now: int)
    returns (m: Match)
    ensures m == SnapshotMatch(cfg, q, recency, poolSize, now, idx).(creationRequired := false)
  {
    var overlapping: seq<Range> := [];
    for i := 0 to |idx.ranges|
      invariant overlapping == OverlappingRanges(idx.ranges[..i], q.blockFrom, q.blockTo)
    {
      assert idx.ranges[..i + 1][..i] == idx.ranges[..i];
      if idx.ranges[i].start <= q.blockTo && idx.ranges[i].end >= q.blockFrom {
        overlapping := overlapping + [idx.ranges[i]];
      }
    }
    assert idx.ranges[..|idx.ranges|] == idx.ranges;
    var clearing := 0.0;
    if q.budget.Some? && idx.pricing.Some? {
      var ask, bid := AskForType(idx.pricing, SnapshotSub), BidForType(q.budget, SnapshotSub);
      clearing := ClearingPrice(ask, bid, idx.reliability);
    }
    var score := ApplyDiversity(cfg, idx.peerId, idx.reliability, recency, poolSize, now);
    m := Match(idx.peerId, idx.currentTip, score, idx.pricing, overlapping, clearing, false);
  }

  // ----- What the queries guarantee ------------------------------------------------------------

  // More than `gap` behind tip 0 or behind the tip of an indexer that survives the first pass.
  ghost predicate Behind(cfg: DiscoveryConfig, q: TipQuery, all: seq<Indexer>, now: int, x: Indexer, gap: int) {
    || 0 - x.currentTip > gap
    || exists y :: y in all && SurvivesFirstPass(cfg, q, y, now) && y.currentTip - x.currentTip > gap
  }

  // Survives the first pass and is either within the threshold or so far behind that the
  // difference of the tips wraps.
  ghost predicate Eligible(cfg: DiscoveryConfig, q: TipQuery, all: seq<Indexer>, now: int, x: Indexer) {
    && x in all && SurvivesFirstPass(cfg, q, x, now)
    && (cfg.tipExclusionThreshold > 0 ==>
          || !Behind(cfg, q, all, now, x, cfg.tipExclusionThreshold)
          || Behind(cfg, q, all, now, x, MAX_INT64))
  }

  lemma {:induction false} TipEligibleIff(cfg: DiscoveryConfig, q: TipQuery, all: seq<Indexer>, now: int, x: Indexer)
    ensures x in TipEligible(cfg, q, all, now) <==> Eligible(cfg, q, all, now, x)
  {
    if x in FirstPass(cfg, q, all, now) {
      BehindReference(cfg, q, all, now, x, cfg.tipExclusionThreshold);
      BehindReference(cfg, q, all, now, x, MAX_INT64);
    }
  }

  lemma {:induction false} BehindReference(cfg: DiscoveryConfig, q: TipQuery, all: seq<Indexer>, now: int, x: Indexer,
                                           gap: int)
    ensures Behind(cfg, q, all, now, x, gap) <==> ReferenceTip(FirstPass(cfg, q, all, now)) - x.currentTip > gap
  {
    var candidates := FirstPass(cfg, q, all, now);
    var tip := ReferenceTip(candidates);
    if tip != 0 {
      var y :| y in candidates && y.currentTip == tip;
      assert y in all && SurvivesFirstPass(cfg, q, y, now);
    }
  }

  // The lag filter keeps only indexers within the threshold if and only if no survivor is more
  // than the largest 64-bit integer behind.
  lemma {:induction false} LagFilterIsSoundIff(cfg: DiscoveryConfig, q: TipQuery, all: seq<Indexer>, now: int)
    requires cfg.tipExclusionThreshold > 0
    ensures (forall x :: Eligible(cfg, q, all, now, x) ==> !Behind(cfg, q, all, now, x, cfg.tipExclusionThreshold))
            <==> forall x :: x in all && SurvivesFirstPass(cfg, q, x, now) ==> !Behind(cfg, q, all, now, x, MAX_INT64)
  {
    forall x | Behind(cfg, q, all, now, x, MAX_INT64) ensures Behind(cfg, q, all, now, x, cfg.tipExclusionThreshold) {
      BehindReference(cfg, q, all, now, x, cfg.tipExclusionThreshold);
      BehindReference(cfg, q, all, now, x, MAX_INT64);
    }
  }

  // Every eligible indexer is in the pool, and nothing else is.
  lemma {:induction false} TipPoolIsExactlyTheEligible(cfg: DiscoveryConfig, q: TipQuery, all: seq<Indexer>,
                                                       recency: Recency, now: int, m: Match)
    ensures m in TipPool(cfg, q, all, recency, now) <==>
            exists x :: Eligible(cfg, q, all, now, x)
                        && m == TipMatch(cfg, q, recency, |TipEligible(cfg, q, all, now)|, now, x)
  {
    var eligible := TipEligible(cfg, q, all, now);
    var pool := TipPool(cfg, q, all, recency, now);
    if i :| 0 <= i < |pool| && pool[i] == m {
      assert eligible[i] in eligible;
      TipEligibleIff(cfg, q, all, now, eligible[i]);
    }
    if x :| Eligible(cfg, q, all, now, x) && m == TipMatch(cfg, q, recency, |eligible|, now, x) {
      TipEligibleIff(cfg, q, all, now, x);
      var i :| 0 <= i < |eligible| && eligible[i] == x;
      assert pool[i] == m;
    }
  }

  // The answer is empty if and only if nobody survived the first pass, or the lag filter is on
  // and every survivor's tip is below minus the threshold, though not the smallest 64-bit
  // integer. Tips that are not negative never leave a surviving pool empty.
  lemma {:induction false} TipAnswerIsEmptyIff(cfg: DiscoveryConfig, q: TipQuery, all: seq<Indexer>, recency: Recency,
                                               now: int, r: seq<Match>)
    requires IsTopOf(true, TipPool(cfg, q, all, recency, now), q.limit, r)
    ensures r == [] <==>
            forall x :: x in all && SurvivesFirstPass(cfg, q, x, now) ==>
              0 < cfg.tipExclusionThreshold < 0 - x.currentTip <= MAX_INT64
  {
    EverybodyLagsIff(cfg, FirstPass(cfg, q, all, now));
    assert |TipPool(cfg, q, all, recency, now)| == |TipEligible(cfg, q, all, now)|;
  }

  lemma {:induction false} EverybodyLagsIff(cfg: DiscoveryConfig, candidates: seq<Indexer>)
    ensures SecondPass(cfg, ReferenceTip(candidates), candidates) == [] <==>
            forall x :: x in candidates ==> 0 < cfg.tipExclusionThreshold < 0 - x.currentTip <= MAX_INT64
  {
    var tip := ReferenceTip(candidates);
    var left := SecondPass(cfg, tip, candidates);
    assert left != [] ==> left[0] in left;
    forall x | x in candidates && x.currentTip == tip ensures x in left {
    }
    if tip == 0 {
      forall x | x in candidates
        ensures LagsBehind(cfg, tip, x) <==> 0 < cfg.tipExclusionThreshold < 0 - x.currentTip <= MAX_INT64
      {
      }
    }
  }

  lemma {:induction false} WeightIsAFraction(elapsed: int, elapsed': int, window: int)
    requires elapsed <= elapsed'
    ensures DiversityWeight(elapsed, window) <= DiversityWeight(elapsed', window) <= 1.0
    ensures DiversityWeight(elapsed, window) == 1.0 <==> window <= 0 || elapsed >= window
    ensures elapsed >= 0 ==> DiversityWeight(elapsed, window) >= 0.1
    ensures window > 0 ==> DiversityWeight(0, window) == 0.1
  {
    if 0 < window && elapsed < window {
      var w := window as real;
      assert elapsed as real / w * w == elapsed as real;
      FractionOrder(elapsed as real, w, w);
      if elapsed' < window {
        FractionOrder(elapsed as real, elapsed' as real, w);
        FractionOrder(elapsed' as real, w, w);
      }
      if elapsed >= 0 {
        FractionOrder(0.0, elapsed as real, w);
      }
    }
  }

  lemma {:induction false} FractionOrder(a: real, b: real, w: real)
    requires w > 0.0 && a <= b
    ensures a / w <= b / w && w / w == 1.0 && 0.0 / w == 0.0
    ensures a < b ==> a / w < b / w
  {
    assert (b - a) / w == b / w - a / w;
  }

  // Weighting never raises a non-negative score; it lowers a positive one if and only if the pool is
  // larger than three and the indexer was matched inside the window.
  lemma {:induction false} DiversityNeverPromotes(cfg: DiscoveryConfig, id: string, score: real, recency: Recency,
                                                  poolSize: nat, now: int)
    requires score >= 0.0
    ensures ApplyDiversity(cfg, id, score, recency, poolSize, now) <= score
    ensures ApplyDiversity(cfg, id, score, recency, poolSize, now) < score <==>
            && score > 0.0 && poolSize > 3 && recency.Some? && id in recency.value
            && now - recency.value[id] * 1_000_000_000 < cfg.recencyWindow && 0 < cfg.recencyWindow
  {
    if recency.Some? && id in recency.value {
      var elapsed := now - recency.value[id] * SECOND;
      WeightIsAFraction(elapsed, elapsed, cfg.recencyWindow);
      LessThanWhole(score, DiversityWeight(elapsed, cfg.recencyWindow));
    }
  }

  lemma {:induction false} LessThanWhole(x: real, part: real)
    requires x >= 0.0 && part <= 1.0
    ensures x * part <= x
    ensures x * part < x <==> x > 0.0 && part < 1.0
  {
    assert x - x * part == x * (1.0 - part);
  }

  // The overlap test finds a shared block if and only if neither range is inverted.
  lemma {:induction false} OverlapMeansSharedBlock(r: Range, from: int, to: int)
    ensures (exists b :: Covers(r.start, r.end, b) && Covers(from, to, b))
            <==> Overlaps(r, from, to) && r.start <= r.end && from <= to
  {
    if Overlaps(r, from, to) && r.start <= r.end && from <= to {
      var b := if r.start <= from then from else r.start;
      assert Covers(r.start, r.end, b) && Covers(from, to, b);
    }
  }

  predicate Covers(first: int, last: int, block: int) {
    first <= block <= last
  }

  lemma {:induction false} TierMembers(cfg: DiscoveryConfig, q: SnapshotQuery, recency: Recency, poolSize: nat,
                                       now: int, all: seq<Indexer>, holders: bool, s: seq<Match>)
    requires multiset(s) == multiset(Tier(cfg, q, recency, poolSize, now, all, holders))
    ensures forall i :: 0 <= i < |s| ==> s[i].creationRequired == !holders && (s[i].snapshots != []) == holders
  {
    forall i | 0 <= i < |s| ensures s[i].creationRequired == !holders && (s[i].snapshots != []) == holders {
      assert s[i] in multiset(s);
      assert s[i] in Tier(cfg, q, recency, poolSize, now, all, holders);
    }
  }

  // Holders come before fallbacks, each tier is ranked, and a fallback appears only when every
  // holder does.
  lemma {:induction false} HoldersComeFirst(cfg: DiscoveryConfig, q: SnapshotQuery, recency: Recency, now: int,
                                            all: seq<Indexer>, r: seq<Match>)
    requires IsTiered(Tier(cfg, q, recency, |all|, now, all, true), Tier(cfg, q, recency, |all|, now, all, false),
                      q.limit, r)
    ensures forall i, j :: 0 <= i < j < |r| ==>
              && (r[i].creationRequired ==> r[j].creationRequired)
              && (r[i].creationRequired == r[j].creationRequired ==> !Outranks(false, r[j], r[i]))
    ensures forall i :: 0 <= i < |r| ==> (r[i].creationRequired <==> r[i].snapshots == [])
    ensures (exists i :: 0 <= i < |r| && r[i].creationRequired) ==>
              multiset(Tier(cfg, q, recency, |all|, now, all, true)) <= multiset(r)
  {
    var holders := Tier(cfg, q, recency, |all|, now, all, true);
    var fallbacks := Tier(cfg, q, recency, |all|, now, all, false);
    var h: seq<Match>, f: seq<Match> :| IsTieredBy(holders, fallbacks, q.limit, r, h, f);
    TierMembers(cfg, q, recency, |all|, now, all, true, h);
    TierMembers(cfg, q, recency, |all|, now, all, false, f);
    PrefixOfTiers(h, f, r);
  }

  ghost predicate WellFormed(ranges: seq<Range>) {
    forall i :: 0 <= i < |ranges| ==> ranges[i].start <= ranges[i].end
  }

  // Some snapshot of the indexer and the query have a block in common.
  ghost predicate SharesBlock(q: SnapshotQuery, x: Indexer) {
    exists r, b :: r in x.ranges && Covers(r.start, r.end, b) && Covers(q.blockFrom, q.blockTo, b)
  }

  lemma {:induction false} HolderSharesBlock(q: SnapshotQuery, x: Indexer)
    requires q.blockFrom <= q.blockTo && WellFormed(x.ranges)
    ensures IsHolder(q, x) <==> SharesBlock(q, x)
  {
    var out := OverlappingRanges(x.ranges, q.blockFrom, q.blockTo);
    if out != [] {
      assert out[0] in out;
      OverlapMeansSharedBlock(out[0], q.blockFrom, q.blockTo);
    }
    if r, b :| r in x.ranges && Covers(r.start, r.end, b) && Covers(q.blockFrom, q.blockTo, b) {
      OverlapMeansSharedBlock(r, q.blockFrom, q.blockTo);
      assert r in out;
    }
  }

  // For well-formed ranges: every indexer in the answer that has a block of the query comes before
  // every one that has none, and one that has none appears only when all those that do appear.
  lemma {:induction false} BlockHoldersComeFirst(cfg: DiscoveryConfig, q: SnapshotQuery, recency: Recency, now: int,
                                                 all: seq<Indexer>, r: seq<Match>, i: nat, x: Indexer)
    requires IsTiered(Tier(cfg, q, recency, |all|, now, all, true), Tier(cfg, q, recency, |all|, now, all, false),
                      q.limit, r)
    requires q.blockFrom <= q.blockTo && forall y :: y in all ==> WellFormed(y.ranges)
    requires i < |r| && x in all && r[i] == SnapshotMatch(cfg, q, recency, |all|, now, x) && !SharesBlock(q, x)
    ensures forall j, y :: i < j < |r| && y in all && r[j] == SnapshotMatch(cfg, q, recency, |all|, now, y) ==>
              !SharesBlock(q, y)
    ensures forall y :: y in all && Offered(cfg, q, y, now) && SharesBlock(q, y) ==>
              SnapshotMatch(cfg, q, recency, |all|, now, y) in r
  {
    HoldersComeFirst(cfg, q, recency, now, all, r);
    HolderSharesBlock(q, x);
    assert r[i].creationRequired;
    forall j, y | i < j < |r| && y in all && r[j] == SnapshotMatch(cfg, q, recency, |all|, now, y)
      ensures !SharesBlock(q, y)
    {
      HolderSharesBlock(q, y);
    }
    forall y | y in all && Offered(cfg, q, y, now) && SharesBlock(q, y)
      ensures SnapshotMatch(cfg, q, recency, |all|, now, y) in r
    {
      HolderSharesBlock(q, y);
      var m := SnapshotMatch(cfg, q, recency, |all|, now, y);
      assert m in Tier(cfg, q, recency, |all|, now, all, true);
      assert m in multiset(r);
    }
  }

  lemma {:induction false} TruncateSplits(h: seq<Match>, f: seq<Match>, limit: int)
    ensures var r := Truncate(h + f, limit);
            var k := if |r| < |h| then |r| else |h|;
            && r[..k] == Truncate(h, limit)
            && (0 < limit <= |h| ==> k == |r|)
            && (limit <= 0 || limit > |h| ==> r[k..] == Truncate(f, if limit > 0 then limit - |h| else 0))
  {
  }

  // The limit is spent on the best holders first, and what remains of it on the best fallbacks.
  lemma {:induction false} EachTierIsTheTopOfItsPool(holders: seq<Match>, fallbacks: seq<Match>, limit: int,
                                                     r: seq<Match>)
    requires IsTiered(holders, fallbacks, limit, r)
    ensures var k := if |r| < |holders| then |r| else |holders|;
            && IsTopOf(false, holders, limit, r[..k])
            && (0 < limit <= |holders| ==> k == |r|)
            && (limit <= 0 || limit > |holders| ==>
                  IsTopOf(false, fallbacks, if limit > 0 then limit - |holders| else 0, r[k..]))
  {
    var h: seq<Match>, f: seq<Match> :| IsTieredBy(holders, fallbacks, limit, r, h, f);
    assert |h| == |multiset(h)| == |multiset(holders)| == |holders|;
    TruncateSplits(h, f, limit);
    SortedPrefixIsTop(false, holders, limit, h);
    SortedPrefixIsTop(false, fallbacks, if limit > 0 then limit - |holders| else 0, f);
  }

  lemma {:induction false} PrefixOfTiers(h: seq<Match>, f: seq<Match>, r: seq<Match>)
    requires Ranked(false, h) && Ranked(false, f) && r <= h + f
    requires forall i :: 0 <= i < |h| ==> !h[i].creationRequired && h[i].snapshots != []
    requires forall i :: 0 <= i < |f| ==> f[i].creationRequired && f[i].snapshots == []
    ensures forall i, j :: 0 <= i < j < |r| ==>
              && (r[i].creationRequired ==> r[j].creationRequired)
              && (r[i].creationRequired == r[j].creationRequired ==> !Outranks(false, r[j], r[i]))
    ensures forall i :: 0 <= i < |r| ==> (r[i].creationRequired <==> r[i].snapshots == [])
    ensures (exists i :: 0 <= i < |r| && r[i].creationRequired) ==> multiset(h) <= multiset(r)
  {
    assert forall i :: 0 <= i < |r| ==> r[i] == if i < |h| then h[i] else f[i - |h|];
    if |r| > |h| {
      assert r == h + r[|h|..];
      assert multiset(r) == multiset(h) + multiset(r[|h|..]);
    }
  }

  // In both queries, a match priced against a positive budget clears between ask and bid; against
  // a budget that is not positive it does so only when the ask is no more than the bid.
  lemma {:induction false} OfferedPricesClear(p: Option<Price>, b: Option<Budget>, t: SubType, reliability: real)
    requires PriceOverlaps(p, b, t) && p.Some? && b.Some?
    ensures var ask, bid := AskForType(p, t), BidForType(b, t);
            && (ask <= PriceMatch(p, b, t, reliability) <= bid <==> bid > 0.0 || ask <= bid)
  {
    ClearingIsBetweenIff(AskForType(p, t), BidForType(b, t), reliability);
  }
}
