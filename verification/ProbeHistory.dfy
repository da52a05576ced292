// The probe result store: its in-place insertion sort, pruning, and the recent success rate.
module ProbeHistory {
  import opened Common
  import opened Ordering

  datatype Probe = Probe(docId: nat, indexerId: string, probedAt: string, success: bool, tip: int, latencyMs: int)

  // ----- What sorting by time means ------------------------------------------------------

  predicate Older(p: Probe, q: Probe) {
    StrLt(p.probedAt, q.probedAt)
  }

  ghost predicate SortedByTime(s: seq<Probe>) {
    forall i, j :: 0 <= i < j < |s| ==> !Older(s[j], s[i])
  }

  // The records of one instant, in the order they appear.
  function AtTime(s: seq<Probe>, t: string): seq<Probe> {
    if s == [] then [] else (if s[0].probedAt == t then [s[0]] else []) + AtTime(s[1..], t)
  }

  // The same records, and those of equal time in the same order.
  ghost predicate StableRearrangement(s: seq<Probe>, r: seq<Probe>) {
    multiset(s) == multiset(r) && forall t :: AtTime(s, t) == AtTime(r, t)
  }

  lemma {:induction false} NotOlderTransitive(p: Probe, q: Probe, r: Probe)
    requires !Older(q, p) && !Older(r, q)
    ensures !Older(r, p)
  {
    StrLtTotal(p.probedAt, q.probedAt);
    StrLtTotal(q.probedAt, r.probedAt);
    StrLtTotal(p.probedAt, r.probedAt);
    if StrLt(p.probedAt, q.probedAt) && StrLt(q.probedAt, r.probedAt) {
      StrLtTransitive(p.probedAt, q.probedAt, r.probedAt);
    }
  }

  lemma {:induction false} AtTimeConcat(s: seq<Probe>, r: seq<Probe>, t: string)
    ensures AtTime(s + r, t) == AtTime(s, t) + AtTime(r, t)
  {
    if s == [] {
      assert s + r == r;
    } else {
      var head := if s[0].probedAt == t then [s[0]] else [];
      assert (s + r)[0] == s[0] && (s + r)[1..] == s[1..] + r;
      AtTimeConcat(s[1..], r, t);
      assert AtTime(s + r, t) == head + (AtTime(s[1..], t) + AtTime(r, t));
      assert AtTime(s, t) == head + AtTime(s[1..], t);
    }
  }

  lemma {:induction false} StableTransitive(s: seq<Probe>, r: seq<Probe>, q: seq<Probe>)
    requires StableRearrangement(s, r) && StableRearrangement(r, q)
    ensures StableRearrangement(s, q)
  {
    forall t ensures AtTime(s, t) == AtTime(q, t) {
      assert AtTime(s, t) == AtTime(r, t);
    }
  }

  lemma {:induction false} AtTimePair(x: Probe, y: Probe, t: string)
    requires x.probedAt != y.probedAt
    ensures AtTime([x, y], t) == AtTime([y, x], t)
  {
    assert [x, y][1..] == [y] && [y, x][1..] == [x] && [x][1..] == [] && [y][1..] == [];
  }

  lemma {:induction false} AtTimeInside(front: seq<Probe>, mid: seq<Probe>, back: seq<Probe>, t: string)
    ensures AtTime(front + mid + back, t) == AtTime(front, t) + AtTime(mid, t) + AtTime(back, t)
  {
    AtTimeConcat(front + mid, back, t);
    AtTimeConcat(front, mid, t);
  }

  // Swapping neighbours of different times is a stable rearrangement.
  lemma {:induction false} SwapIsStable(s: seq<Probe>, k: nat)
    requires k + 1 < |s| && s[k].probedAt != s[k + 1].probedAt
    ensures StableRearrangement(s, s[k := s[k + 1]][k + 1 := s[k]])
  {
    var r := s[k := s[k + 1]][k + 1 := s[k]];
    var front, x, y, back := s[..k], s[k], s[k + 1], s[k + 2..];
    assert s == front + [x, y] + back;
    assert r == front + [y, x] + back;
    forall t ensures AtTime(s, t) == AtTime(r, t) {
      AtTimeInside(front, [x, y], back, t);
      AtTimeInside(front, [y, x], back, t);
      AtTimePair(x, y, t);
    }
  }

  // Sorted stable rearrangements are unique, so the result of the sort is determined.
  lemma {:induction false} StableSortIsUnique(s: seq<Probe>, r: seq<Probe>)
    requires SortedByTime(s) && SortedByTime(r)
    requires forall t :: AtTime(s, t) == AtTime(r, t)
    ensures s == r
  {
    assert s != [] ==> AtTime(s, s[0].probedAt) == AtTime(r, s[0].probedAt);
    assert r != [] ==> AtTime(r, r[0].probedAt) == AtTime(s, r[0].probedAt);
    if s != [] && r != [] {
      var v, w := s[0].probedAt, r[0].probedAt;
      InAtTime(s, r[0]);
      InAtTime(r, s[0]);
      assert AtTime(s, w) == AtTime(r, w) && AtTime(s, v) == AtTime(r, v);
      assert r[0] in AtTime(r, w) && s[0] in AtTime(s, v);
      StrLtTotal(v, w);
      assert v == w by { NotAfterHead(s, r[0]); NotAfterHead(r, s[0]); }
      assert s[0] == AtTime(s, v)[0] == r[0];
      forall t ensures AtTime(s[1..], t) == AtTime(r[1..], t) {
        assert AtTime(s, t) == AtTime(r, t);
        if t == v {
          assert AtTime(s[1..], t) == AtTime(s, t)[1..];
          assert AtTime(r[1..], t) == AtTime(r, t)[1..];
        } else {
          assert AtTime(s, t) == [] + AtTime(s[1..], t) == AtTime(s[1..], t);
          assert AtTime(r, t) == [] + AtTime(r[1..], t) == AtTime(r[1..], t);
        }
      }
      StableSortIsUnique(s[1..], r[1..]);
      assert s == [s[0]] + s[1..] && r == [r[0]] + r[1..];
    }
  }

  lemma {:induction false} InAtTime(s: seq<Probe>, p: Probe)
    ensures p in AtTime(s, p.probedAt) <==> p in s
  {
    if s != [] {
      InAtTime(s[1..], p);
      assert s == [s[0]] + s[1..];
    }
  }

  lemma {:induction false} NotAfterHead(s: seq<Probe>, p: Probe)
    requires SortedByTime(s) && p in s
    ensures !Older(p, s[0])
  {
    StrLtTotal(p.probedAt, p.probedAt);
  }

  // ----- The sort -----------------------------------------------------------------------------

  // Everything up to i is sorted but for the element at j, which is older than what follows it.
  ghost predicate SortedBut(s: seq<Probe>, j: int, i: int)
    requires 0 <= j <= i < |s|
  {
    && (forall p, q :: 0 <= p < q <= i && p != j && q != j ==> !Older(s[q], s[p]))
    && (forall q :: j < q <= i ==> Older(s[j], s[q]))
  }

  lemma {:induction false} Settled(s: seq<Probe>, j: nat, i: nat)
    requires j <= i < |s| && SortedBut(s, j, i)
    requires j == 0 || !Older(s[j], s[j - 1])
    ensures SortedByTime(s[..i + 1])
  {
    forall p, q | 0 <= p < q <= i ensures !Older(s[q], s[p]) {
      if q == j {
        if p < j - 1 {
          NotOlderTransitive(s[p], s[j - 1], s[j]);
        }
      } else if p == j {
        StrLtTotal(s[q].probedAt, s[p].probedAt);
      }
    }
  }

  lemma {:induction false} SwapDown(s: seq<Probe>, j: nat, i: nat)
    requires 0 < j <= i < |s| && SortedBut(s, j, i) && Older(s[j], s[j - 1])
    ensures var r := s[j - 1 := s[j]][j := s[j - 1]];
            SortedBut(r, j - 1, i) && StableRearrangement(s, r)
  {
    StrLtTotal(s[j].probedAt, s[j - 1].probedAt);
    SwapIsStable(s, j - 1);
  }

  method SortProbeResultsAsc(a: array<Probe>)
    modifies a
    ensures SortedByTime(a[..]) && StableRearrangement(old(a[..]), a[..])
  {
    for i := 0 to a.Length
      invariant SortedByTime(a[..i])
      invariant StableRearrangement(old(a[..]), a[..])
    {
      InsertDown(a, i);
      assert a[..i + 1] == a[..][..i + 1];
    }
    assert a[..a.Length] == a[..];
  }

  // The inner loop: move the i-th record down past every later one.
  method InsertDown(a: array<Probe>, i: nat)
    requires i < a.Length && SortedByTime(a[..i])
    modifies a
    ensures SortedByTime(a[..][..i + 1]) && StableRearrangement(old(a[..]), a[..])
  {
    ghost var start := a[..];
    var j := i;
    assert forall p :: 0 <= p < i ==> a[..][p] == a[..i][p];
    while j > 0 && Older(a[j], a[j - 1])
      invariant 0 <= j <= i
      invariant SortedBut(a[..], j, i)
      invariant StableRearrangement(start, a[..])
    {
      ghost var s := a[..];
      SwapWithPrevious(a, j, i);
      StableTransitive(start, s, a[..]);
      j := j - 1;
    }
    Settled(a[..], j, i);
  }

  method SwapWithPrevious(a: array<Probe>, j: nat, i: nat)
    requires 0 < j <= i < a.Length && SortedBut(a[..], j, i) && Older(a[j], a[j - 1])
    modifies a
    ensures SortedBut(a[..], j - 1, i) && StableRearrangement(old(a[..]), a[..])
  {
    ghost var s := a[..];
    SwapDown(s, j, i);
    a[j], a[j - 1] := a[j - 1], a[j];
    assert a[..] == s[j - 1 := s[j]][j := s[j - 1]];
  }

  // ----- The store --------------------------------------------------------------------------------

  function OfIndexer(s: seq<Probe>, x: string): seq<Probe> {
    if s == [] then []
    else OfIndexer(s[..|s| - 1], x) + if s[|s| - 1].indexerId == x then [s[|s| - 1]] else []
  }

  function Ids(s: seq<Probe>): set<nat> {
    set p | p in s :: p.docId
  }

  function Without(s: seq<Probe>, ids: set<nat>): seq<Probe> {
    if s == [] then []
    else Without(s[..|s| - 1], ids) + if s[|s| - 1].docId in ids then [] else [s[|s| - 1]]
  }

  ghost predicate UniqueIds(s: seq<Probe>) {
    forall i, j :: 0 <= i < j < |s| ==> s[i].docId != s[j].docId
  }

  // A walk is the order in which the store happens to visit its documents during one call.
  ghost predicate Walks(s: seq<Probe>, walk: seq<Probe>) {
    multiset(walk) == multiset(s)
  }

  // What pruning an indexer to a limit leaves: the stable sort of what the walk meets decides
  // who is oldest.
  ghost predicate Prunes(s: seq<Probe>, walk: seq<Probe>, x: string, limit: nat, r: seq<Probe>) {
    if |OfIndexer(walk, x)| <= limit then r == s
    else exists sorted: seq<Probe> :: PrunesBy(s, walk, x, limit, r, sorted)
  }

  ghost predicate PrunesBy(s: seq<Probe>, walk: seq<Probe>, x: string, limit: nat, r: seq<Probe>, sorted: seq<Probe>) {
    && SortedByTime(sorted) && StableRearrangement(OfIndexer(walk, x), sorted)
    && |sorted| == |OfIndexer(walk, x)| > limit && r == Without(s, Ids(sorted[..|sorted| - limit]))
  }

  // One probe of the store: its record is inserted and its indexer pruned, over some walk.
  ghost predicate Probes(before: seq<Probe>, p: Probe, limit: nat, after: seq<Probe>) {
    exists walk: seq<Probe> :: Walks(before + [p], walk) && Prunes(before + [p], walk, p.indexerId, limit, after)
  }

  lemma {:induction false} SortDecides(s: seq<Probe>, walk: seq<Probe>, x: string, limit: nat, r: seq<Probe>,
                                       listed: seq<Probe>, sorted: seq<Probe>)
    requires listed == OfIndexer(walk, x) && SortedByTime(sorted) && StableRearrangement(listed, sorted)
    requires |sorted| == |listed| > limit && r == Without(s, Ids(sorted[..|sorted| - limit]))
    ensures Prunes(s, walk, x, limit, r)
  {
    assert PrunesBy(s, walk, x, limit, r, sorted);
  }

  class ProbeStore {
    var records: seq<Probe>
    var nextId: nat

    ghost predicate Valid()
      reads this
    {
      UniqueIds(records) && forall i :: 0 <= i < |records| ==> records[i].docId < nextId
    }

    constructor ()
      ensures Valid() && records == []
    {
      records, nextId := [], 0;
    }

    method Insert(indexerId: string, probedAt: string, success: bool, tip: int, latencyMs: int)
      requires Valid()
      modifies this
      ensures Valid()
      ensures records == old(records) + [Probe(old(nextId), indexerId, probedAt, success, tip, latencyMs)]
    {
      records := records + [Probe(nextId, indexerId, probedAt, success, tip, latencyMs)];
      nextId := nextId + 1;
    }

    method ListByIndexer(x: string, walk: seq<Probe>) returns (recs: array<Probe>)
      requires Walks(records, walk)
      ensures fresh(recs) && recs[..] == OfIndexer(walk, x)
    {
      var found: seq<Probe> := [];
      for i := 0 to |walk|
        invariant found == OfIndexer(walk[..i], x)
      {
        assert walk[..i + 1][..i] == walk[..i];
        if walk[i].indexerId == x {
          found := found + [walk[i]];
        }
      }
      assert walk[..|walk|] == walk;
      recs := new Probe[|found|](i requires 0 <= i < |found| => found[i]);
    }

    method PruneOldest(x: string, limit: nat, walk: seq<Probe>)
      requires Valid() && Walks(records, walk)
      modifies this`records
      ensures Valid()
      ensures Prunes(old(records), walk, x, limit, records)
    {
      var recs := ListByIndexer(x, walk);
      if recs.Length <= limit {
        return;
      }
      ghost var before, listed := records, recs[..];
      ghost var sorted := SortAndDelete(recs, limit);
      SortDecides(before, walk, x, limit, records, listed, sorted);
    }

    // Sorts the listed records by time and deletes all but the last `limit` of them.
    method SortAndDelete(recs: array<Probe>, limit: nat) returns (ghost sorted: seq<Probe>)
      requires Valid() && limit < recs.Length
      modifies this`records, recs
      ensures Valid()
      ensures SortedByTime(sorted) && StableRearrangement(old(recs[..]), sorted) && |sorted| == recs.Length
      ensures records == Without(old(records), Ids(sorted[..|sorted| - limit]))
    {
      SortProbeResultsAsc(recs);
      sorted := recs[..];
      DeleteFirst(recs, recs.Length - limit);
    }

    // The delete loop over the first `excess` of the listed records.
    method DeleteFirst(recs: array<Probe>, excess: nat)
      requires Valid() && excess <= recs.Length
      modifies this`records
      ensures Valid()
      ensures records == Without(old(records), Ids(recs[..][..excess]))
    {
      ghost var before := records;
      ghost var sorted := recs[..];
      assert Ids(sorted[..0]) == {};
      WithoutNone(before);
      for i := 0 to excess
        invariant records == Without(before, Ids(sorted[..i]))
      {
        var id := recs[i].docId;
        assert sorted[..i + 1] == sorted[..i] + [sorted[i]];
        assert Ids(sorted[..i + 1]) == Ids(sorted[..i]) + {id};
        WithoutTwice(before, Ids(sorted[..i]), {id});
        Delete(id);
      }
      WithoutIsSubsequence(before, Ids(sorted[..excess]));
    }

    method Delete(id: nat)
      modifies this`records
      ensures records == Without(old(records), {id})
    {
      var kept: seq<Probe> := [];
      for i := 0 to |records|
        invariant kept == Without(records[..i], {id})
      {
        assert records[..i + 1][..i] == records[..i];
        if records[i].docId != id {
          kept := kept + [records[i]];
        }
      }
      assert records[..|records|] == records;
      records := kept;
    }

    // The share of successes among the newest `limit` results of all indexers.
    method RecentSuccessRate(limit: int, walk: seq<Probe>) returns (rate: Rate)
      requires Walks(records, walk)
      ensures records == [] ==> rate == Share(0.0)
      ensures records != [] && limit < 0 ==> rate == Panic
      ensures records != [] && limit == 0 ==> rate == NotANumber
      ensures records != [] && limit > 0 ==>
                rate.Share? && exists sorted: seq<Probe> :: IsRateOf(walk, limit, sorted, rate.share)
    {
      PermutationKeeps(walk, records);
      if |walk| == 0 {
        return Share(0.0);
      }
      var recs := new Probe[|walk|](i requires 0 <= i < |walk| => walk[i]);
      assert recs[..] == walk;
      SortProbeResultsAsc(recs);
      var sorted := recs[..];
      PermutationKeeps(walk, sorted);
      if limit < 0 {
        return Panic;  // the slice would start past the end of the list
      }
      var newest := Newest(sorted, limit);
      var successes := CountSuccesses(newest);
      if |newest| == 0 {
        return NotANumber;  // zero divided by zero
      }
      rate := Share(successes as real / |newest| as real);
      assert IsRateOf(walk, limit, sorted, rate.share);
    }
  }

  datatype Rate = Share(share: real) | NotANumber | Panic

  function Newest(sorted: seq<Probe>, limit: nat): seq<Probe> {
    if |sorted| > limit then sorted[|sorted| - limit..] else sorted
  }

  ghost predicate IsRateOf(listing: seq<Probe>, limit: nat, sorted: seq<Probe>, rate: real)
    requires limit >= 1 && listing != []
  {
    && SortedByTime(sorted) && StableRearrangement(listing, sorted)
    && |sorted| == |listing|
    && rate == Successes(Newest(sorted, limit)) as real / |Newest(sorted, limit)| as real
  }

  method CountSuccesses(s: seq<Probe>) returns (n: nat)
    ensures n == Successes(s)
  {
    n := 0;
    for i := 0 to |s|
      invariant n == Successes(s[..i])
    {
      assert s[..i + 1][..i] == s[..i];
      if s[i].success {
        n := n + 1;
      }
    }
    assert s[..|s|] == s;
  }

  function Successes(s: seq<Probe>): nat {
    if s == [] then 0 else Successes(s[..|s| - 1]) + if s[|s| - 1].success then 1 else 0
  }

  lemma {:induction false} SuccessesAreFiltered(s: seq<Probe>)
    ensures Successes(s) == |Filtered(s, (p: Probe) => p.success)|
  {
    if s != [] {
      SuccessesAreFiltered(s[..|s| - 1]);
    }
  }

  // The rate is the share of successes among the newest records, as many as the limit allows.
  lemma {:induction false} RateIsTheShareOfTheNewest(records: seq<Probe>, walk: seq<Probe>, limit: nat,
                                                     sorted: seq<Probe>, rate: real)
    returns (newest: seq<Probe>)
    requires Walks(records, walk) && limit > 0 && walk != [] && IsRateOf(walk, limit, sorted, rate)
    ensures KeepsTheNewest(records, newest, limit) && newest != []
    ensures rate == |Filtered(newest, (p: Probe) => p.success)| as real / |newest| as real
    ensures 0.0 <= rate <= 1.0
  {
    newest := Newest(sorted, limit);
    TailIsNewest(records, walk, sorted, limit);
    var part, whole := Successes(newest), |newest|;
    SuccessesAreFiltered(newest);
    SuccessesAreSome(newest);
    assert rate == part as real / whole as real;
    ShareInRange(part, whole);
  }

  lemma {:induction false} TailIsNewest(records: seq<Probe>, walk: seq<Probe>, sorted: seq<Probe>, limit: nat)
    requires Walks(records, walk) && SortedByTime(sorted) && StableRearrangement(walk, sorted)
    ensures KeepsTheNewest(records, Newest(sorted, limit), limit)
    ensures |Newest(sorted, limit)| == if |walk| <= limit then |walk| else limit
  {
    PermutationKeeps(records, walk);
    PermutationKeeps(walk, sorted);
    if |sorted| > limit {
      CutKeepsTheNewest(records, sorted, |sorted| - limit, limit, Newest(sorted, limit));
    } else {
      assert multiset(records) - multiset(sorted) == multiset{};
    }
  }

  lemma {:induction false} SuccessesAreSome(s: seq<Probe>)
    ensures Successes(s) <= |s|
  {
    if s != [] {
      SuccessesAreSome(s[..|s| - 1]);
    }
  }

  lemma {:induction false} ShareInRange(part: nat, whole: nat)
    requires part <= whole && whole > 0
    ensures 0.0 <= part as real / whole as real <= 1.0
  {
    var share := part as real / whole as real;
    assert share * whole as real == part as real;
  }

  // ----- What pruning leaves ------------------------------------------------------------------------

  lemma {:induction false} WithoutNone(s: seq<Probe>)
    ensures Without(s, {}) == s
  {
    if s != [] {
      WithoutNone(s[..|s| - 1]);
      assert s == s[..|s| - 1] + [s[|s| - 1]];
    }
  }

  lemma {:induction false} WithoutTwice(s: seq<Probe>, ids: set<nat>, more: set<nat>)
    ensures Without(Without(s, ids), more) == Without(s, ids + more)
  {
    if s != [] {
      var front, last := s[..|s| - 1], s[|s| - 1];
      WithoutTwice(front, ids, more);
      var w := Without(front, ids);
      if last.docId !in ids {
        assert Without(s, ids) == w + [last];
        assert (w + [last])[..|w|] == w;
      } else {
        assert Without(s, ids) == w;
      }
    }
  }

  lemma {:induction false} WithoutIsSubsequence(s: seq<Probe>, ids: set<nat>)
    ensures forall p :: p in Without(s, ids) <==> p in s && p.docId !in ids
    ensures UniqueIds(s) ==> UniqueIds(Without(s, ids))
  {
    if s != [] {
      var front, last := s[..|s| - 1], s[|s| - 1];
      assert s == front + [last];
      WithoutIsSubsequence(front, ids);
      if UniqueIds(s) {
        forall p | p in Without(front, ids) ensures p.docId != last.docId {
          var i :| 0 <= i < |front| && front[i] == p;
          assert s[i].docId != s[|front|].docId;
        }
        assert UniqueIds(front) by {
          forall i, j | 0 <= i < j < |front| ensures front[i].docId != front[j].docId {
            assert s[i].docId != s[j].docId;
          }
        }
      }
    }
  }

  lemma {:induction false} OfIndexerElems(s: seq<Probe>, x: string)
    ensures forall p :: p in OfIndexer(s, x) <==> p in s && p.indexerId == x
    ensures UniqueIds(s) ==> UniqueIds(OfIndexer(s, x))
  {
    if s != [] {
      var front, last := s[..|s| - 1], s[|s| - 1];
      assert s == front + [last];
      OfIndexerElems(front, x);
      if UniqueIds(s) {
        forall p | p in OfIndexer(front, x) ensures p.docId != last.docId {
          var i :| 0 <= i < |front| && front[i] == p;
          assert s[i].docId != s[|front|].docId;
        }
        assert UniqueIds(front) by {
          forall i, j | 0 <= i < j < |front| ensures front[i].docId != front[j].docId {
            assert s[i].docId != s[j].docId;
          }
        }
      }
    }
  }

  lemma {:induction false} OfIndexerWithout(s: seq<Probe>, x: string, ids: set<nat>)
    ensures OfIndexer(Without(s, ids), x) == Without(OfIndexer(s, x), ids)
  {
    if s != [] {
      var front, last := s[..|s| - 1], s[|s| - 1];
      OfIndexerWithout(front, x, ids);
      var w, o := Without(front, ids), OfIndexer(front, x);
      assert (w + [last])[..|w|] == w;
      assert (o + [last])[..|o|] == o;
      assert w + [] == w && o + [] == o;
    }
  }

  lemma {:induction false} UniqueIdsNoDup(s: seq<Probe>)
    requires UniqueIds(s)
    ensures NoDup(s)
  {
    forall i, j | 0 <= i < j < |s| ensures s[i] != s[j] {
      assert s[i].docId != s[j].docId;
    }
  }

  lemma {:induction false} SplitElems<T>(s: seq<T>, m: nat)
    requires m <= |s| && NoDup(s)
    ensures Elems(s) == Elems(s[..m]) + Elems(s[m..]) && Elems(s[..m]) !! Elems(s[m..])
    ensures |Elems(s[m..])| == |s| - m
  {
    assert s == s[..m] + s[m..];
    CountElems(s[m..]);
    assert NoDup(s[m..]);
    forall x | x in s[..m] ensures x !in s[m..] {
      var i :| 0 <= i < m && s[i] == x;
      assert forall j :: m <= j < |s| ==> s[j] != s[i];
    }
  }

  lemma {:induction false} SameIdSameProbe(s: seq<Probe>, p: Probe, q: Probe)
    requires UniqueIds(s) && p in s && q in s
    ensures p.docId == q.docId ==> p == q
  {
    var i :| 0 <= i < |s| && s[i] == p;
    var j :| 0 <= j < |s| && s[j] == q;
    assert i < j ==> s[i].docId != s[j].docId;
    assert j < i ==> s[j].docId != s[i].docId;
  }

  // Deleting by document id deletes exactly the chosen records.
  lemma {:induction false} DeletesTheChosen(mine: seq<Probe>, chosen: seq<Probe>)
    requires UniqueIds(mine) && Elems(chosen) <= Elems(mine)
    ensures Elems(Without(mine, Ids(chosen))) == Elems(mine) - Elems(chosen)
    ensures NoDup(Without(mine, Ids(chosen)))
  {
    var ids := Ids(chosen);
    WithoutIsSubsequence(mine, ids);
    UniqueIdsNoDup(Without(mine, ids));
    forall p | p in mine ensures p.docId in ids <==> p in chosen {
      if p.docId in ids {
        var q :| q in chosen && q.docId == p.docId;
        assert q in Elems(chosen);
        SameIdSameProbe(mine, p, q);
      }
    }
  }

  lemma {:induction false} NoDupCounts<T>(s: seq<T>, x: T)
    requires NoDup(s)
    ensures multiset(s)[x] == if x in s then 1 else 0
  {
    if s != [] {
      var front, last := s[..|s| - 1], s[|s| - 1];
      assert s == front + [last];
      NoDupSnoc(front, last);
      NoDupCounts(front, x);
    }
  }

  lemma {:induction false} SameElemsSameMultiset<T>(s: seq<T>, t: seq<T>)
    requires NoDup(s) && NoDup(t) && Elems(s) == Elems(t)
    ensures multiset(s) == multiset(t)
  {
    forall x ensures multiset(s)[x] == multiset(t)[x] {
      NoDupCounts(s, x);
      NoDupCounts(t, x);
      assert x in s <==> x in Elems(s);
      assert x in t <==> x in Elems(t);
    }
  }

  lemma {:induction false} RestOfRearrangement<T>(mine: seq<T>, sorted: seq<T>, m: nat, kept: seq<T>)
    requires NoDup(mine) && multiset(mine) == multiset(sorted) && m <= |sorted|
    requires NoDup(kept) && Elems(kept) == Elems(mine) - Elems(sorted[..m])
    ensures multiset(kept) == multiset(sorted[m..])
  {
    PermutationKeeps(mine, sorted);
    SplitElems(sorted, m);
    assert Elems(kept) == Elems(sorted[m..]);
    SameElemsSameMultiset(kept, sorted[m..]);
  }

  // Deleting the first m of a rearrangement leaves exactly the rest of it.
  lemma {:induction false} LeavesTheRest(mine: seq<Probe>, sorted: seq<Probe>, m: nat)
    requires UniqueIds(mine) && multiset(mine) == multiset(sorted) && m <= |sorted|
    ensures multiset(Without(mine, Ids(sorted[..m]))) == multiset(sorted[m..])
  {
    UniqueIdsNoDup(mine);
    PermutationKeeps(mine, sorted);
    SplitElems(sorted, m);
    DeletesTheChosen(mine, sorted[..m]);
    RestOfRearrangement(mine, sorted, m, Without(mine, Ids(sorted[..m])));
  }

  // The newest of an indexer's records: as many as the limit allows, and nothing deleted is
  // newer than anything kept.
  ghost predicate KeepsTheNewest(mine: seq<Probe>, kept: seq<Probe>, limit: nat) {
    && |kept| == (if |mine| <= limit then |mine| else limit)
    && multiset(kept) <= multiset(mine)
    && forall d, k :: d in multiset(mine) - multiset(kept) && k in kept ==> !Older(k, d)
  }

  // What a time-sorted list has before a cut is not newer than what it has after it.
  lemma {:induction false} CutInOrder(sorted: seq<Probe>, m: nat, d: Probe, k: Probe)
    requires SortedByTime(sorted) && m <= |sorted| && d in multiset(sorted[..m]) && k in multiset(sorted[m..])
    ensures !Older(k, d)
  {
    var i :| 0 <= i < m && sorted[..m][i] == d;
    var j :| 0 <= j < |sorted| - m && sorted[m..][j] == k;
    assert sorted[i] == d && sorted[m + j] == k;
  }

  lemma {:induction false} CutKeepsTheNewest(mine: seq<Probe>, sorted: seq<Probe>, m: nat, limit: nat, kept: seq<Probe>)
    requires multiset(mine) == multiset(sorted) && m + limit == |sorted| && SortedByTime(sorted)
    requires multiset(kept) == multiset(sorted[m..])
    ensures KeepsTheNewest(mine, kept, limit)
  {
    assert sorted == sorted[..m] + sorted[m..];
    assert multiset(mine) == multiset(sorted[..m]) + multiset(kept);
    assert |mine| == |multiset(mine)| == |multiset(sorted)| == |sorted|;
    assert |kept| == |multiset(kept)| == |multiset(sorted[m..])| == limit;
    forall d, k | d in multiset(sorted[..m]) && k in kept ensures !Older(k, d) {
      assert k in multiset(kept);
      CutInOrder(sorted, m, d, k);
    }
  }

  lemma {:induction false} TheRestAreNewest(mine: seq<Probe>, sorted: seq<Probe>, m: nat, limit: nat)
    requires UniqueIds(mine) && multiset(mine) == multiset(sorted) && m + limit == |sorted| && SortedByTime(sorted)
    ensures KeepsTheNewest(mine, Without(mine, Ids(sorted[..m])), limit)
  {
    LeavesTheRest(mine, sorted, m);
    CutKeepsTheNewest(mine, sorted, m, limit, Without(mine, Ids(sorted[..m])));
  }

  lemma {:induction false} OfIndexerIsFiltered(s: seq<Probe>, x: string)
    ensures OfIndexer(s, x) == Filtered(s, (p: Probe) => p.indexerId == x)
  {
    if s != [] {
      OfIndexerIsFiltered(s[..|s| - 1], x);
    }
  }

  lemma {:induction false} WithoutIsFiltered(s: seq<Probe>, ids: set<nat>)
    ensures Without(s, ids) == Filtered(s, (p: Probe) => p.docId !in ids)
  {
    if s != [] {
      WithoutIsFiltered(s[..|s| - 1], ids);
    }
  }

  lemma {:induction false} OfIndexerCounts(s: seq<Probe>, x: string, p: Probe)
    ensures multiset(OfIndexer(s, x))[p] == if p.indexerId == x then multiset(s)[p] else 0
  {
    if s != [] {
      var front, last := s[..|s| - 1], s[|s| - 1];
      assert s == front + [last];
      OfIndexerCounts(front, x, p);
    }
  }

  // Every walk meets the same records of an indexer.
  lemma {:induction false} WalkMeetsAll(s: seq<Probe>, walk: seq<Probe>, x: string)
    requires Walks(s, walk)
    ensures multiset(OfIndexer(walk, x)) == multiset(OfIndexer(s, x))
    ensures |OfIndexer(walk, x)| == |OfIndexer(s, x)|
  {
    forall p ensures multiset(OfIndexer(walk, x))[p] == multiset(OfIndexer(s, x))[p] {
      OfIndexerCounts(walk, x, p);
      OfIndexerCounts(s, x, p);
    }
    assert multiset(OfIndexer(walk, x)) == multiset(OfIndexer(s, x));
    assert |OfIndexer(walk, x)| == |multiset(OfIndexer(s, x))|;
  }

  // Whatever the walk, what is deleted comes first in a time-sorted rearrangement of the indexer's
  // records.
  lemma {:induction false} DeletedComeFirst(s: seq<Probe>, walk: seq<Probe>, x: string, limit: nat, r: seq<Probe>)
    returns (sorted: seq<Probe>)
    requires UniqueIds(s) && Walks(s, walk) && Prunes(s, walk, x, limit, r) && |OfIndexer(walk, x)| > limit
    ensures UniqueIds(OfIndexer(s, x)) && multiset(OfIndexer(s, x)) == multiset(sorted) && SortedByTime(sorted)
    ensures |sorted| > limit && r == Without(s, Ids(sorted[..|sorted| - limit]))
  {
    sorted :| PrunesBy(s, walk, x, limit, r, sorted);
    OfIndexerElems(s, x);
    WalkMeetsAll(s, walk, x);
  }

  lemma {:induction false} DeletionKeepsTheNewest(s: seq<Probe>, x: string, sorted: seq<Probe>, m: nat, limit: nat,
                                                  r: seq<Probe>)
    requires UniqueIds(OfIndexer(s, x)) && multiset(OfIndexer(s, x)) == multiset(sorted)
    requires SortedByTime(sorted) && m + limit == |sorted| && r == Without(s, Ids(sorted[..m]))
    ensures KeepsTheNewest(OfIndexer(s, x), OfIndexer(r, x), limit)
  {
    OfIndexerWithout(s, x, Ids(sorted[..m]));
    TheRestAreNewest(OfIndexer(s, x), sorted, m, limit);
  }

  lemma {:induction false} AllAreNewest(mine: seq<Probe>, limit: nat)
    requires |mine| <= limit
    ensures KeepsTheNewest(mine, mine, limit)
  {
    assert multiset(mine) - multiset(mine) == multiset{};
  }

  // Pruning leaves min(len, limit) of the indexer's records, none of them older than a deleted
  // one, whatever the walk.
  lemma {:induction false} PruneKeepsTheNewest(s: seq<Probe>, walk: seq<Probe>, x: string, limit: nat, r: seq<Probe>)
    requires UniqueIds(s) && Walks(s, walk) && Prunes(s, walk, x, limit, r)
    ensures KeepsTheNewest(OfIndexer(s, x), OfIndexer(r, x), limit)
  {
    if |OfIndexer(walk, x)| > limit {
      var sorted := DeletedComeFirst(s, walk, x, limit, r);
      DeletionKeepsTheNewest(s, x, sorted, |sorted| - limit, limit, r);
    } else {
      WalkMeetsAll(s, walk, x);
      AllAreNewest(OfIndexer(s, x), limit);
    }
  }

  lemma {:induction false} NewestUpToTies(mine: seq<Probe>, kept: seq<Probe>, kept': seq<Probe>, limit: nat, p: Probe)
    returns (q: Probe)
    requires NoDup(mine) && KeepsTheNewest(mine, kept, limit) && KeepsTheNewest(mine, kept', limit)
    requires p in kept && p !in kept'
    ensures q in kept' && q !in kept && q.probedAt == p.probedAt
  {
    q := OneMoreElsewhere(mine, kept, kept', p);
    assert p in multiset(kept);
    NoDupCounts(mine, p);
    NoDupCounts(mine, q);
    assert p in multiset(mine) - multiset(kept') && q in multiset(mine) - multiset(kept);
    StrLtTotal(p.probedAt, q.probedAt);
  }

  // Whatever one result keeps and the other does not is exchanged for a record of its instant.
  ghost predicate SameUpToTies(kept: seq<Probe>, kept': seq<Probe>) {
    forall p :: p in kept && p !in kept' ==> exists q :: q in kept' && q !in kept && q.probedAt == p.probedAt
  }

  // Two walks can disagree only about records of one instant.
  lemma {:induction false} WalksDisagreeOnlyOnTies(s: seq<Probe>, walk: seq<Probe>, walk': seq<Probe>, x: string,
                                                   limit: nat, r: seq<Probe>, r': seq<Probe>)
    requires UniqueIds(s) && Walks(s, walk) && Walks(s, walk')
    requires Prunes(s, walk, x, limit, r) && Prunes(s, walk', x, limit, r')
    ensures SameUpToTies(OfIndexer(r, x), OfIndexer(r', x))
  {
    PruneKeepsTheNewest(s, walk, x, limit, r);
    PruneKeepsTheNewest(s, walk', x, limit, r');
    OfIndexerElems(s, x);
    UniqueIdsNoDup(OfIndexer(s, x));
    var kept, kept' := OfIndexer(r, x), OfIndexer(r', x);
    forall p | p in kept && p !in kept' ensures exists q :: q in kept' && q !in kept && q.probedAt == p.probedAt {
      var q := NewestUpToTies(OfIndexer(s, x), kept, kept', limit, p);
    }
  }

  lemma {:induction false} OneMoreElsewhere<T>(mine: seq<T>, s: seq<T>, t: seq<T>, p: T) returns (q: T)
    requires NoDup(mine) && multiset(s) <= multiset(mine) && multiset(t) <= multiset(mine)
    requires |s| == |t| && p in s && p !in t
    ensures q in t && q !in s && q in mine
  {
    assert p in multiset(s) && p !in multiset(t);
    if forall y :: y in t ==> y in s {
      CoveredIsSame(mine, s, t);
    }
    q :| q in t && q !in s;
    assert q in multiset(t);
  }

  lemma {:induction false} CoveredIsSame<T>(mine: seq<T>, s: seq<T>, t: seq<T>)
    requires NoDup(mine) && multiset(s) <= multiset(mine) && multiset(t) <= multiset(mine)
    requires |s| == |t| && forall y :: y in t ==> y in s
    ensures multiset(s) == multiset(t)
  {
    forall y ensures multiset(t)[y] <= multiset(s)[y] {
      NoDupCounts(mine, y);
      assert y in t <==> y in multiset(t);
      assert y in s <==> y in multiset(s);
    }
    assert multiset(s) == multiset(t) + (multiset(s) - multiset(t));
    assert |multiset(s)| == |multiset(t)| + |multiset(s) - multiset(t)|;
  }

  // Pruning an indexer does not touch any other.
  lemma {:induction false} PruneTouchesNobodyElse(s: seq<Probe>, walk: seq<Probe>, x: string, y: string, limit: nat,
                                                  r: seq<Probe>)
    requires UniqueIds(s) && Walks(s, walk) && Prunes(s, walk, x, limit, r) && y != x
    ensures OfIndexer(r, y) == OfIndexer(s, y)
  {
    if |OfIndexer(walk, x)| > limit {
      var sorted: seq<Probe> :| PrunesBy(s, walk, x, limit, r, sorted);
      DeletedBySort(s, walk, x, y, limit, r, sorted);
    }
  }

  lemma {:induction false} DeletedBySort(s: seq<Probe>, walk: seq<Probe>, x: string, y: string, limit: nat,
                                         r: seq<Probe>, sorted: seq<Probe>)
    requires UniqueIds(s) && Walks(s, walk) && PrunesBy(s, walk, x, limit, r, sorted) && y != x
    ensures OfIndexer(r, y) == OfIndexer(s, y)
  {
    WalkMeetsAll(s, walk, x);
    OthersUntouched(s, x, y, sorted, |sorted| - limit);
  }

  lemma {:induction false} OthersUntouched(s: seq<Probe>, x: string, y: string, sorted: seq<Probe>, m: nat)
    requires UniqueIds(s) && y != x && m <= |sorted| && multiset(sorted) == multiset(OfIndexer(s, x))
    ensures OfIndexer(Without(s, Ids(sorted[..m])), y) == OfIndexer(s, y)
  {
    var ids := Ids(sorted[..m]);
    OfIndexerWithout(s, y, ids);
    OfIndexerElems(s, x);
    OfIndexerElems(s, y);
    PermutationKeeps(sorted, OfIndexer(s, x));
    var theirs := OfIndexer(s, y);
    forall p | p in theirs ensures p.docId !in ids {
      forall q | q in sorted[..m] ensures q.docId != p.docId {
        assert q in Elems(sorted);
        assert q in OfIndexer(s, x);
        SameIdSameProbe(s, p, q);
      }
    }
    NothingRemoved(theirs, ids);
  }

  lemma {:induction false} NothingRemoved(s: seq<Probe>, ids: set<nat>)
    requires forall p :: p in s ==> p.docId !in ids
    ensures Without(s, ids) == s
  {
    if s != [] {
      assert s == s[..|s| - 1] + [s[|s| - 1]];
      NothingRemoved(s[..|s| - 1], ids);
    }
  }
}
