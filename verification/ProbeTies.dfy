// When the order in which the store lists its documents decides what pruning keeps.
module ProbeTies {
  import opened Common
  import opened Ordering
  import opened ProbeHistory

  // The records later than an instant, and those of the instant.
  function Newer(mine: set<Probe>, t: string): set<Probe> {
    set p | p in mine && StrLt(t, p.probedAt)
  }

  function Ties(mine: set<Probe>, t: string): set<Probe> {
    set p | p in mine && p.probedAt == t
  }

  // The limit cuts through the records of an instant.
  ghost predicate Straddles(mine: set<Probe>, limit: nat, t: string) {
    |Newer(mine, t)| < limit < |Newer(mine, t)| + |Ties(mine, t)|
  }

  ghost predicate NoInstantStraddles(mine: set<Probe>, limit: nat) {
    forall t :: !Straddles(mine, limit, t)
  }

  // Two orders in which the store may list its documents, and different results.
  ghost predicate Disagree(s: seq<Probe>, x: string, limit: nat, walk: seq<Probe>, walk': seq<Probe>, r: seq<Probe>,
                           r': seq<Probe>)
  {
    && Walks(s, walk) && Prunes(s, walk, x, limit, r)
    && Walks(s, walk') && Prunes(s, walk', x, limit, r')
    && r != r'
  }

  // Pruning leaves the same records whatever order the store lists its documents in.
  ghost predicate ListingIsIrrelevant(s: seq<Probe>, x: string, limit: nat) {
    forall walk, walk', r, r' :: !Disagree(s, x, limit, walk, walk', r, r')
  }

  // ----- Without a straddling instant the listing does not matter ------------------------------

  // What a newest selection keeps from the instant of a record it deletes, and after it.
  lemma {:induction false} DeletedTieStraddles(mine: set<Probe>, kept: set<Probe>, limit: nat, p: Probe, q: Probe)
    requires kept <= mine && |kept| == limit
    requires forall d, k :: d in mine && d !in kept && k in kept ==> !Older(k, d)
    requires p in kept && q in mine && q !in kept && p.probedAt == q.probedAt
    ensures Straddles(mine, limit, p.probedAt)
  {
    var t := p.probedAt;
    StrLtTotal(t, t);
    assert Newer(mine, t) + {p} <= kept;
    SubsetCard(Newer(mine, t) + {p}, kept);
    forall k | k in kept ensures k in Newer(mine, t) + (Ties(mine, t) - {q}) {
      assert !Older(k, q);
      StrLtTotal(k.probedAt, t);
    }
    SubsetCard(kept, Newer(mine, t) + (Ties(mine, t) - {q}));
    assert q in Ties(mine, t);
  }

  // A newest selection, in terms of membership.
  lemma {:induction false} NewestIsASelection(mine: seq<Probe>, kept: seq<Probe>, limit: nat)
    requires NoDup(mine) && KeepsTheNewest(mine, kept, limit)
    ensures NoDup(kept) && Elems(kept) <= Elems(mine)
    ensures forall d, k :: d in mine && d !in kept && k in kept ==> !Older(k, d)
  {
    forall k | k in kept ensures k in mine {
      assert k in multiset(kept);
    }
    forall d, k | d in mine && d !in kept && k in kept ensures !Older(k, d) {
      assert d in multiset(mine) && d !in multiset(kept);
      assert d in multiset(mine) - multiset(kept);
    }
    SubBagHasNoRepeats(mine, kept);
  }

  lemma {:induction false} SubBagHasNoRepeats<T>(mine: seq<T>, kept: seq<T>)
    requires NoDup(mine) && multiset(kept) <= multiset(mine)
    ensures NoDup(kept)
  {
    forall i, j | 0 <= i < j < |kept| ensures kept[i] != kept[j] {
      NoDupCounts(mine, kept[i]);
      assert kept == kept[..j] + kept[j..];
      assert kept[i] in multiset(kept[..j]) by { assert kept[..j][i] == kept[i]; }
      assert kept[j] in multiset(kept[j..]) by { assert kept[j..][0] == kept[j]; }
    }
  }

  lemma {:induction false} KeptSize(mine: seq<Probe>, kept: seq<Probe>, limit: nat, q: Probe)
    requires NoDup(mine) && NoDup(kept) && |kept| == (if |mine| <= limit then |mine| else limit)
    requires Elems(kept) <= Elems(mine) && q in mine && q !in kept
    ensures |Elems(kept)| == limit
  {
    CountElems(mine);
    CountElems(kept);
    assert q in Elems(mine) && q !in Elems(kept);
    SubsetCard(Elems(kept), Elems(mine));
  }

  lemma {:induction false} SameKeptSameRecords(s: seq<Probe>, walk: seq<Probe>, walk': seq<Probe>, x: string,
                                               limit: nat, r: seq<Probe>, r': seq<Probe>)
    requires UniqueIds(s) && Walks(s, walk) && Walks(s, walk')
    requires Prunes(s, walk, x, limit, r) && Prunes(s, walk', x, limit, r')
    requires Elems(OfIndexer(r, x)) == Elems(OfIndexer(r', x))
    ensures r == r'
  {
    WalkMeetsAll(s, walk, x);
    WalkMeetsAll(s, walk', x);
    if |OfIndexer(walk, x)| > limit {
      var sorted: seq<Probe> :| PrunesBy(s, walk, x, limit, r, sorted);
      var sorted': seq<Probe> :| PrunesBy(s, walk', x, limit, r', sorted');
      DeletedAreTheOthers(s, walk, x, limit, r, sorted);
      DeletedAreTheOthers(s, walk', x, limit, r', sorted');
    }
  }

  lemma {:induction false} DeletedAreTheOthers(s: seq<Probe>, walk: seq<Probe>, x: string, limit: nat, r: seq<Probe>,
                                               sorted: seq<Probe>)
    requires UniqueIds(s) && Walks(s, walk) && PrunesBy(s, walk, x, limit, r, sorted)
    ensures var gone := Elems(OfIndexer(s, x)) - Elems(OfIndexer(r, x));
            Ids(sorted[..|sorted| - limit]) == set p | p in gone :: p.docId
  {
    var mine, chosen := OfIndexer(s, x), sorted[..|sorted| - limit];
    WalkMeetsAll(s, walk, x);
    OfIndexerElems(s, x);
    OfIndexerWithout(s, x, Ids(chosen));
    ChosenAreGone(mine, sorted, |sorted| - limit, OfIndexer(r, x));
  }

  lemma {:induction false} ChosenAreGone(mine: seq<Probe>, sorted: seq<Probe>, m: nat, kept: seq<Probe>)
    requires UniqueIds(mine) && multiset(sorted) == multiset(mine) && m <= |sorted|
    requires kept == Without(mine, Ids(sorted[..m]))
    ensures Ids(sorted[..m]) == set p | p in Elems(mine) - Elems(kept) :: p.docId
  {
    var chosen := sorted[..m];
    PermutationKeeps(mine, sorted);
    forall p | p in chosen ensures p in Elems(mine) {
      assert p in Elems(sorted);
    }
    DeletesTheChosen(mine, chosen);
    assert forall p :: p in Elems(mine) - Elems(kept) <==> p in chosen;
  }

  lemma {:induction false} IrrelevantWithoutStraddle(s: seq<Probe>, x: string, limit: nat)
    requires UniqueIds(s) && NoInstantStraddles(Elems(OfIndexer(s, x)), limit)
    ensures ListingIsIrrelevant(s, x, limit)
  {
    var mine := OfIndexer(s, x);
    OfIndexerElems(s, x);
    UniqueIdsNoDup(mine);
    forall walk, walk', r, r' | Walks(s, walk) && Prunes(s, walk, x, limit, r)
                                && Walks(s, walk') && Prunes(s, walk', x, limit, r')
      ensures r == r'
    {
      NothingExchanged(s, walk, walk', x, limit, r, r');
      NothingExchanged(s, walk', walk, x, limit, r', r);
      SameKeptSameRecords(s, walk, walk', x, limit, r, r');
    }
  }

  lemma {:induction false} NothingExchanged(s: seq<Probe>, walk: seq<Probe>, walk': seq<Probe>, x: string, limit: nat,
                                            r: seq<Probe>, r': seq<Probe>)
    requires UniqueIds(s) && NoInstantStraddles(Elems(OfIndexer(s, x)), limit)
    requires Walks(s, walk) && Walks(s, walk') && Prunes(s, walk, x, limit, r) && Prunes(s, walk', x, limit, r')
    ensures Elems(OfIndexer(r, x)) <= Elems(OfIndexer(r', x))
  {
    var mine, kept, kept' := OfIndexer(s, x), OfIndexer(r, x), OfIndexer(r', x);
    OfIndexerElems(s, x);
    UniqueIdsNoDup(mine);
    PruneKeepsTheNewest(s, walk, x, limit, r);
    PruneKeepsTheNewest(s, walk', x, limit, r');
    NewestIsASelection(mine, kept, limit);
    NewestIsASelection(mine, kept', limit);
    forall p | p in kept ensures p in kept' {
      if p !in kept' {
        var q := NewestUpToTies(mine, kept, kept', limit, p);
        assert q in Elems(kept') && q in Elems(mine);
        KeptSize(mine, kept, limit, q);
        DeletedTieStraddles(Elems(mine), Elems(kept), limit, p, q);
      }
    }
  }

  // ----- With one it does ------------------------------------------------------------------------

  // Any list can be arranged by time.
  lemma {:induction false} ArrangedByTime(s: seq<Probe>) returns (r: seq<Probe>)
    ensures SortedByTime(r) && multiset(r) == multiset(s)
  {
    r := [];
    if s != [] {
      var front, p := s[..|s| - 1], s[|s| - 1];
      assert s == front + [p];
      var sorted := ArrangedByTime(front);
      var k := |sorted|;
      while k > 0 && Older(p, sorted[k - 1])
        invariant 0 <= k <= |sorted|
        invariant forall j :: k <= j < |sorted| ==> Older(p, sorted[j])
      {
        k := k - 1;
      }
      r := sorted[..k] + [p] + sorted[k..];
      assert sorted == sorted[..k] + sorted[k..];
      InsertedInOrder(sorted, k, p);
    }
  }

  lemma {:induction false} InsertedInOrder(sorted: seq<Probe>, k: nat, p: Probe)
    requires SortedByTime(sorted) && k <= |sorted|
    requires forall j :: k <= j < |sorted| ==> Older(p, sorted[j])
    requires k > 0 ==> !Older(p, sorted[k - 1])
    ensures SortedByTime(sorted[..k] + [p] + sorted[k..])
  {
    var r := sorted[..k] + [p] + sorted[k..];
    forall i, j | 0 <= i < j < |r| ensures !Older(r[j], r[i]) {
      if j == k {
        if i < k - 1 {
          NotOlderTransitive(sorted[i], sorted[k - 1], p);
        }
      } else if i == k {
        StrLtTotal(p.probedAt, r[j].probedAt);
      }
    }
  }

  // A cut through an instant has records of this instant on both sides.
  lemma {:induction false} CutIsInsideTies(sorted: seq<Probe>, limit: nat, t: string)
    requires NoDup(sorted) && SortedByTime(sorted) && Straddles(Elems(sorted), limit, t)
    ensures 0 < |sorted| - limit < |sorted|
    ensures var m := |sorted| - limit; sorted[m - 1].probedAt == t && sorted[m].probedAt == t
  {
    var all := Elems(sorted);
    CountElems(sorted);
    StrLtTotal(t, t);
    assert Newer(all, t) !! Ties(all, t);
    assert |Newer(all, t) + Ties(all, t)| == |Newer(all, t)| + |Ties(all, t)|;
    SubsetCard(Newer(all, t) + Ties(all, t), all);
    var m := |sorted| - limit;
    FollowedByNewer(sorted, m, t);
    FollowedByNewer(sorted, m - 1, t);
    PrecedesTies(sorted, m, t);
    PrecedesTies(sorted, m - 1, t);
    StrLtTotal(sorted[m].probedAt, t);
    StrLtTotal(sorted[m - 1].probedAt, t);
  }

  lemma {:induction false} LaterSlice(sorted: seq<Probe>, i: nat, t: string, p: Probe)
    requires SortedByTime(sorted) && i < |sorted| && StrLt(t, sorted[i].probedAt) && p in sorted[i..]
    ensures p in Newer(Elems(sorted), t)
  {
    var j :| 0 <= j < |sorted| - i && sorted[i..][j] == p;
    assert p == sorted[i + j];
    LaterStays(sorted, i, i + j, t);
  }

  // Where a position of a sorted list lies relative to an instant, by counting what follows it.
  lemma {:induction false} FollowedByNewer(sorted: seq<Probe>, i: nat, t: string)
    requires NoDup(sorted) && SortedByTime(sorted) && i < |sorted|
    ensures StrLt(t, sorted[i].probedAt) ==> |sorted| - i <= |Newer(Elems(sorted), t)|
  {
    if StrLt(t, sorted[i].probedAt) {
      var late := Elems(sorted[i..]);
      assert |late| == |sorted| - i by { SplitElems(sorted, i); }
      forall p | p in late ensures p in Newer(Elems(sorted), t) {
        LaterSlice(sorted, i, t, p);
      }
      SubsetCard(late, Newer(Elems(sorted), t));
    }
  }

  lemma {:induction false} NotBeforeSlice(sorted: seq<Probe>, i: nat, t: string, p: Probe)
    requires SortedByTime(sorted) && i < |sorted| && StrLt(sorted[i].probedAt, t)
    requires p in sorted && (StrLt(t, p.probedAt) || p.probedAt == t)
    ensures p in sorted[i + 1..]
  {
    var j :| 0 <= j < |sorted| && sorted[j] == p;
    StrLtTotal(p.probedAt, t);
    EarlierStays(sorted, j, i, t);
    assert sorted[i + 1..][j - i - 1] == p;
  }

  lemma {:induction false} PrecedesTies(sorted: seq<Probe>, i: nat, t: string)
    requires NoDup(sorted) && SortedByTime(sorted) && i < |sorted|
    ensures StrLt(sorted[i].probedAt, t) ==>
              |Newer(Elems(sorted), t) + Ties(Elems(sorted), t)| <= |sorted| - i - 1
  {
    if StrLt(sorted[i].probedAt, t) {
      var late := Newer(Elems(sorted), t) + Ties(Elems(sorted), t);
      var rest := Elems(sorted[i + 1..]);
      assert |rest| == |sorted| - i - 1 by { SplitElems(sorted, i + 1); }
      forall p | p in late ensures p in rest {
        NotBeforeSlice(sorted, i, t, p);
      }
      SubsetCard(late, rest);
    }
  }

  lemma {:induction false} LaterStays(sorted: seq<Probe>, i: nat, j: nat, t: string)
    requires SortedByTime(sorted) && i <= j < |sorted| && StrLt(t, sorted[i].probedAt)
    ensures StrLt(t, sorted[j].probedAt)
  {
    StrLtTotal(sorted[i].probedAt, sorted[j].probedAt);
    if StrLt(sorted[i].probedAt, sorted[j].probedAt) {
      StrLtTransitive(t, sorted[i].probedAt, sorted[j].probedAt);
    } else if i < j {
      assert !Older(sorted[j], sorted[i]);
    }
  }

  lemma {:induction false} EarlierStays(sorted: seq<Probe>, i: nat, j: nat, t: string)
    requires SortedByTime(sorted) && i < |sorted| && j < |sorted| && StrLt(sorted[j].probedAt, t)
    ensures i <= j ==> StrLt(sorted[i].probedAt, t)
  {
    StrLtTotal(sorted[i].probedAt, sorted[j].probedAt);
    if StrLt(sorted[i].probedAt, sorted[j].probedAt) {
      StrLtTransitive(sorted[i].probedAt, sorted[j].probedAt, t);
    } else if i < j {
      assert !Older(sorted[j], sorted[i]);
    }
  }

  function OfOthers(s: seq<Probe>, x: string): seq<Probe> {
    if s == [] then []
    else OfOthers(s[..|s| - 1], x) + if s[|s| - 1].indexerId == x then [] else [s[|s| - 1]]
  }

  lemma {:induction false} OfOthersCounts(s: seq<Probe>, x: string, p: Probe)
    ensures multiset(OfOthers(s, x))[p] == if p.indexerId == x then 0 else multiset(s)[p]
  {
    if s != [] {
      var front, last := s[..|s| - 1], s[|s| - 1];
      assert s == front + [last];
      OfOthersCounts(front, x, p);
    }
  }

  lemma {:induction false} OthersAndMine(s: seq<Probe>, x: string)
    ensures multiset(s) == multiset(OfOthers(s, x)) + multiset(OfIndexer(s, x))
    ensures forall p :: p in OfOthers(s, x) ==> p.indexerId != x
  {
    forall p ensures multiset(s)[p] == multiset(OfOthers(s, x))[p] + multiset(OfIndexer(s, x))[p] {
      OfOthersCounts(s, x, p);
      OfIndexerCounts(s, x, p);
    }
    forall p | p in OfOthers(s, x) ensures p.indexerId != x {
      OfOthersCounts(s, x, p);
      assert p in multiset(OfOthers(s, x));
    }
  }

  lemma {:induction false} OfIndexerConcat(s: seq<Probe>, r: seq<Probe>, x: string)
    ensures OfIndexer(s + r, x) == OfIndexer(s, x) + OfIndexer(r, x)
    decreases |r|
  {
    if r == [] {
      assert s + r == s;
    } else {
      var front, last := r[..|r| - 1], r[|r| - 1];
      var tail := if last.indexerId == x then [last] else [];
      OfIndexerConcat(s, front, x);
      assert (s + r)[..|s + r| - 1] == s + front;
      assert OfIndexer(s + r, x) == OfIndexer(s, x) + (OfIndexer(front, x) + tail);
    }
  }

  lemma {:induction false} AllMine(mine: seq<Probe>, x: string)
    requires forall p :: p in mine ==> p.indexerId == x
    ensures OfIndexer(mine, x) == mine
  {
    if mine != [] {
      assert mine[|mine| - 1] in mine;
      AllMine(mine[..|mine| - 1], x);
    }
  }

  lemma {:induction false} NoneMine(others: seq<Probe>, x: string)
    requires forall p :: p in others ==> p.indexerId != x
    ensures OfIndexer(others, x) == []
  {
    if others != [] {
      assert others[|others| - 1] in others;
      NoneMine(others[..|others| - 1], x);
    }
  }

  // A store may list an indexer's records in any arrangement, in particular one sorted by time,
  // and then pruning keeps the end of it.
  lemma {:induction false} ListedAsArranged(s: seq<Probe>, x: string, limit: nat, sorted: seq<Probe>)
    returns (walk: seq<Probe>, r: seq<Probe>)
    requires multiset(sorted) == multiset(OfIndexer(s, x)) && SortedByTime(sorted) && limit < |sorted|
    ensures Walks(s, walk) && Prunes(s, walk, x, limit, r) && r == Without(s, Ids(sorted[..|sorted| - limit]))
  {
    OthersAndMine(s, x);
    OfIndexerElems(s, x);
    PermutationKeeps(sorted, OfIndexer(s, x));
    forall p | p in sorted ensures p.indexerId == x {
      assert p in Elems(OfIndexer(s, x));
    }
    walk := OfOthers(s, x) + sorted;
    OfIndexerConcat(OfOthers(s, x), sorted, x);
    NoneMine(OfOthers(s, x), x);
    AllMine(sorted, x);
    r := Without(s, Ids(sorted[..|sorted| - limit]));
    SortDecides(s, walk, x, limit, r, sorted, sorted);
  }

  lemma {:induction false} ExchangedTies(sorted: seq<Probe>, m: nat)
    requires SortedByTime(sorted) && 0 < m < |sorted| && sorted[m - 1].probedAt == sorted[m].probedAt
    ensures var sorted' := sorted[m - 1 := sorted[m]][m := sorted[m - 1]];
            SortedByTime(sorted') && multiset(sorted') == multiset(sorted)
  {
    StrLtTotal(sorted[m].probedAt, sorted[m].probedAt);
  }

  lemma {:induction false} OneGoesTheOtherStays(mine: seq<Probe>, sorted: seq<Probe>, m: nat)
    requires UniqueIds(mine) && multiset(sorted) == multiset(mine) && 0 < m < |sorted|
    ensures sorted[m].docId !in Ids(sorted[..m])
    ensures sorted[m].docId in Ids(sorted[m - 1 := sorted[m]][m := sorted[m - 1]][..m])
  {
    var sorted' := sorted[m - 1 := sorted[m]][m := sorted[m - 1]];
    assert sorted'[..m][m - 1] == sorted[m];
    PermutationKeeps(sorted, mine);
    UniqueIdsNoDup(mine);
    assert forall i :: 0 <= i < |sorted| ==> sorted[i] in Elems(mine);
    forall i | 0 <= i < m ensures sorted[i].docId != sorted[m].docId {
      SameIdSameProbe(mine, sorted[i], sorted[m]);
    }
  }

  // Exchange the two records at the cut: the arrangement is still sorted, and another record goes.
  lemma {:induction false} TwoArrangements(mine: seq<Probe>, limit: nat, t: string)
    returns (sorted: seq<Probe>, sorted': seq<Probe>, p: Probe)
    requires UniqueIds(mine) && Straddles(Elems(mine), limit, t)
    ensures SortedByTime(sorted) && multiset(sorted) == multiset(mine) && limit < |sorted|
    ensures SortedByTime(sorted') && multiset(sorted') == multiset(mine) && |sorted'| == |sorted|
    ensures p in mine && p.docId !in Ids(sorted[..|sorted| - limit]) && p.docId in Ids(sorted'[..|sorted| - limit])
  {
    UniqueIdsNoDup(mine);
    sorted := ArrangedByTime(mine);
    PermutationKeeps(sorted, mine);
    CutIsInsideTies(sorted, limit, t);
    var m := |sorted| - limit;
    sorted' := sorted[m - 1 := sorted[m]][m := sorted[m - 1]];
    p := sorted[m];
    assert p in Elems(mine);
    ExchangedTies(sorted, m);
    OneGoesTheOtherStays(mine, sorted, m);
  }

  lemma {:induction false} DifferentDeletions(s: seq<Probe>, ids: set<nat>, ids': set<nat>, p: Probe)
    requires p in s && p.docId !in ids && p.docId in ids'
    ensures Without(s, ids) != Without(s, ids')
  {
    WithoutIsSubsequence(s, ids);
    WithoutIsSubsequence(s, ids');
    assert p in Without(s, ids) && p !in Without(s, ids');
  }

  lemma {:induction false} ArrangementsDisagree(s: seq<Probe>, x: string, limit: nat, sorted: seq<Probe>,
                                                sorted': seq<Probe>, p: Probe)
    requires SortedByTime(sorted) && multiset(sorted) == multiset(OfIndexer(s, x)) && limit < |sorted|
    requires SortedByTime(sorted') && multiset(sorted') == multiset(OfIndexer(s, x)) && |sorted'| == |sorted|
    requires p in s && p.docId !in Ids(sorted[..|sorted| - limit]) && p.docId in Ids(sorted'[..|sorted| - limit])
    ensures !ListingIsIrrelevant(s, x, limit)
  {
    var walk, r := ListedAsArranged(s, x, limit, sorted);
    var walk', r' := ListedAsArranged(s, x, limit, sorted');
    DifferentDeletions(s, Ids(sorted[..|sorted| - limit]), Ids(sorted'[..|sorted| - limit]), p);
    assert Disagree(s, x, limit, walk, walk', r, r');
  }

  lemma {:induction false} StraddleMatters(s: seq<Probe>, x: string, limit: nat, t: string)
    requires UniqueIds(s) && Straddles(Elems(OfIndexer(s, x)), limit, t)
    ensures !ListingIsIrrelevant(s, x, limit)
  {
    OfIndexerElems(s, x);
    var sorted, sorted', p := TwoArrangements(OfIndexer(s, x), limit, t);
    ArrangementsDisagree(s, x, limit, sorted, sorted', p);
  }

  // ----- Main result ------------------------------------------------------------------------------

  // The records that pruning leaves do not depend on the order in which the store lists its
  // documents if and only if no instant straddles the cut.
  lemma {:induction false} ListingIsIrrelevantIff(s: seq<Probe>, x: string, limit: nat)
    requires UniqueIds(s)
    ensures ListingIsIrrelevant(s, x, limit) <==> NoInstantStraddles(Elems(OfIndexer(s, x)), limit)
  {
    if !NoInstantStraddles(Elems(OfIndexer(s, x)), limit) {
      var t :| Straddles(Elems(OfIndexer(s, x)), limit, t);
      StraddleMatters(s, x, limit, t);
    } else {
      IrrelevantWithoutStraddle(s, x, limit);
    }
  }
}
