// The probe store over whole runs: after any number of probes, each history is the newest of
// everything ever recorded.
module ProbeRuns {
  import opened Ordering
  import opened ProbeHistory

  // The stores that a run of probes, recording these in this order, can leave.
  ghost predicate Reaches(limit: nat, all: seq<Probe>, records: seq<Probe>) {
    if all == [] then records == []
    else
      var front, p := all[..|all| - 1], all[|all| - 1];
      exists before: seq<Probe> :: Reaches(limit, front, before) && Probes(before, p, limit, records)
  }

  // ----- Selecting from a selection ------------------------------------------------------------

  // The heart of it: what was deleted before would be deleted now. Otherwise the new record is
  // older than a record deleted earlier, so older than all that were kept, and goes itself.
  lemma {:induction false} DeletedStaysDeleted(mine: seq<Probe>, kept: seq<Probe>, kept': seq<Probe>, limit: nat,
                                               p: Probe, d: Probe)
    requires KeepsTheNewest(mine, kept, limit) && KeepsTheNewest(kept + [p], kept', limit)
    requires d in multiset(mine) - multiset(kept) && p in kept'
    ensures !Older(p, d)
  {
    SomethingGoes(mine, kept, kept', limit, p, d);
    var e :| e in multiset(kept + [p]) - multiset(kept');
    StrLtTotal(e.probedAt, e.probedAt);
    if e in kept {
      assert !Older(e, d) && !Older(p, e);
      NotOlderTransitive(d, e, p);
    } else {
      OneMoreGoes(kept, kept', p, e);
    }
  }

  lemma {:induction false} SomethingGoes(mine: seq<Probe>, kept: seq<Probe>, kept': seq<Probe>, limit: nat, p: Probe,
                                         d: Probe)
    requires KeepsTheNewest(mine, kept, limit) && KeepsTheNewest(kept + [p], kept', limit)
    requires d in multiset(mine) - multiset(kept)
    ensures |kept| == limit == |kept'|
    ensures exists e :: e in multiset(kept + [p]) - multiset(kept')
  {
    assert |multiset(mine) - multiset(kept)| == |mine| - |kept|;
    assert |multiset(kept + [p]) - multiset(kept')| == |kept| + 1 - |kept'|;
    assert multiset(kept + [p]) - multiset(kept') != multiset{};
  }

  // Only the new record itself can go that was not kept before; then no copy of it stays.
  lemma {:induction false} OneMoreGoes(kept: seq<Probe>, kept': seq<Probe>, p: Probe, e: Probe)
    requires e in multiset(kept + [p]) - multiset(kept') && e !in kept
    ensures e == p && p !in kept'
  {
    assert multiset(kept + [p]) == multiset(kept) + multiset{p};
    assert e !in multiset(kept);
    assert p in kept' <==> p in multiset(kept');
  }

  // Keeping the newest of what was kept and a new record is keeping the newest of all.
  lemma {:induction false} NewestOfNewest(mine: seq<Probe>, kept: seq<Probe>, kept': seq<Probe>, limit: nat, p: Probe)
    requires KeepsTheNewest(mine, kept, limit) && KeepsTheNewest(kept + [p], kept', limit)
    ensures KeepsTheNewest(mine + [p], kept', limit)
  {
    assert multiset(mine + [p]) == multiset(mine) + multiset{p};
    assert multiset(kept + [p]) == multiset(kept) + multiset{p};
    forall d, k | d in multiset(mine + [p]) - multiset(kept') && k in kept' ensures !Older(k, d) {
      assert k in multiset(kept');
      if d !in multiset(kept + [p]) - multiset(kept') {
        assert d in multiset(mine) - multiset(kept);
        if k in kept {
          assert !Older(k, d);
        } else {
          assert k == p;
          DeletedStaysDeleted(mine, kept, kept', limit, p, d);
        }
      }
    }
  }

  // ----- Runs ----------------------------------------------------------------------------------

  lemma {:induction false} OfIndexerSnoc(s: seq<Probe>, p: Probe, x: string)
    ensures OfIndexer(s + [p], x) == OfIndexer(s, x) + (if p.indexerId == x then [p] else [])
  {
    assert (s + [p])[..|s|] == s;
  }

  // Only what was recorded is ever stored.
  lemma {:induction false} StoredWasRecorded(limit: nat, all: seq<Probe>, records: seq<Probe>)
    requires UniqueIds(all) && Reaches(limit, all, records)
    ensures UniqueIds(records) && forall r :: r in records ==> r in all
    decreases |all|
  {
    if all != [] {
      var front, p := all[..|all| - 1], all[|all| - 1];
      var before: seq<Probe> :| Reaches(limit, front, before) && Probes(before, p, limit, records);
      FrontHasUniqueIds(all);
      StoredWasRecorded(limit, front, before);
      ProbeStoresTheRecorded(limit, all, front, before, p, records);
    }
  }

  lemma {:induction false} ProbeStoresTheRecorded(limit: nat, all: seq<Probe>, front: seq<Probe>, before: seq<Probe>,
                                                  p: Probe, after: seq<Probe>)
    requires UniqueIds(all) && all != [] && front == all[..|all| - 1] && p == all[|all| - 1]
    requires UniqueIds(before) && (forall r :: r in before ==> r in front) && Probes(before, p, limit, after)
    ensures UniqueIds(after) && forall r :: r in after ==> r in all
  {
    var s := before + [p];
    assert all == front + [p];
    InsertedHasUniqueIds(all, before);
    var walk: seq<Probe> :| Walks(s, walk) && Prunes(s, walk, p.indexerId, limit, after);
    if |OfIndexer(walk, p.indexerId)| > limit {
      var sorted: seq<Probe> :| PrunesBy(s, walk, p.indexerId, limit, after, sorted);
      WithoutIsSubsequence(s, Ids(sorted[..|sorted| - limit]));
    }
  }

  lemma {:induction false} FrontHasUniqueIds(all: seq<Probe>)
    requires UniqueIds(all) && all != []
    ensures UniqueIds(all[..|all| - 1])
  {
    var front := all[..|all| - 1];
    forall i, j | 0 <= i < j < |front| ensures front[i].docId != front[j].docId {
      assert all[i].docId != all[j].docId;
    }
  }

  lemma {:induction false} InsertedHasUniqueIds(all: seq<Probe>, before: seq<Probe>)
    requires UniqueIds(all) && all != [] && UniqueIds(before) && forall r :: r in before ==> r in all[..|all| - 1]
    ensures UniqueIds(before + [all[|all| - 1]])
  {
    forall i | 0 <= i < |before| ensures before[i].docId != all[|all| - 1].docId {
      assert before[i] in before;
      var j :| 0 <= j < |all| - 1 && all[..|all| - 1][j] == before[i];
      assert all[j].docId != all[|all| - 1].docId;
    }
  }

  // After any run of probes, an indexer's stored history is a newest selection, as large as the
  // limit allows, of everything ever recorded for it, whatever order the store listed it in and
  // however the clock moved.
  lemma {:induction false} HistoryIsTheNewestOfAll(limit: nat, all: seq<Probe>, records: seq<Probe>, x: string)
    requires UniqueIds(all) && Reaches(limit, all, records)
    ensures KeepsTheNewest(OfIndexer(all, x), OfIndexer(records, x), limit)
    decreases |all|
  {
    if all == [] {
      AllAreNewest([], limit);
    } else {
      var front, p := all[..|all| - 1], all[|all| - 1];
      var before: seq<Probe> :| Reaches(limit, front, before) && Probes(before, p, limit, records);
      FrontHasUniqueIds(all);
      StoredWasRecorded(limit, front, before);
      HistoryIsTheNewestOfAll(limit, front, before, x);
      ProbeKeepsTheNewest(limit, all, front, before, p, records, x);
    }
  }

  lemma {:induction false} ProbeKeepsTheNewest(limit: nat, all: seq<Probe>, front: seq<Probe>, before: seq<Probe>,
                                               p: Probe, after: seq<Probe>, x: string)
    requires UniqueIds(all) && all != [] && front == all[..|all| - 1] && p == all[|all| - 1]
    requires UniqueIds(before) && (forall r :: r in before ==> r in front) && Probes(before, p, limit, after)
    requires KeepsTheNewest(OfIndexer(front, x), OfIndexer(before, x), limit)
    ensures KeepsTheNewest(OfIndexer(all, x), OfIndexer(after, x), limit)
  {
    InsertedHasUniqueIds(all, before);
    var inserted := before + [p];
    var walk: seq<Probe> :| Walks(inserted, walk) && Prunes(inserted, walk, p.indexerId, limit, after);
    OfIndexerSnoc(before, p, x);
    if p.indexerId == x {
      PruneKeepsTheNewest(inserted, walk, x, limit, after);
      NewestOfNewest(OfIndexer(front, x), OfIndexer(before, x), OfIndexer(after, x), limit, p);
    } else {
      PruneTouchesNobodyElse(inserted, walk, p.indexerId, x, limit, after);
      assert OfIndexer(front, x) + [] == OfIndexer(front, x) && OfIndexer(before, x) + [] == OfIndexer(before, x);
    }
  }
}
