// Runs in which blocks are also compared directly, outside the rounds.
module DirectCompares {
  import opened Common
  import opened CidComparison
  import opened Accounting
  import opened AccountingRuns

  datatype AnyEvent = Scheduled(event: Event) | ComparedDirectly(key: Key, at: int)

  function ApplyAny(cfg: Config, b: Books, e: AnyEvent): Books {
    match e
    case Scheduled(event) => Apply(cfg, b, event)
    case ComparedDirectly(k, at) => CompareStep(cfg, b, k, at)
  }

  function RunAny(cfg: Config, b: Books, es: seq<AnyEvent>): Books
    decreases |es|
  {
    if es == [] then b else RunAny(cfg, ApplyAny(cfg, b, es[0]), es[1..])
  }

  predicate CleanAlready(b: Books, k: Key) {
    k.block in CleanBlocks(b.comparisons, k.session)
  }

  // The direct comparisons of a session's blocks that were clean already.
  function Repeats(cfg: Config, b: Books, es: seq<AnyEvent>, session: string): nat
    decreases |es|
  {
    if es == [] then 0
    else
      var e := es[0];
      (if e.ComparedDirectly? && e.key.session == session && CleanAlready(b, e.key) then 1 else 0)
      + Repeats(cfg, ApplyAny(cfg, b, e), es[1..], session)
  }

  // ----- The invariant -------------------------------------------------------------------------

  // Comparisons may repeat now; documents still do not.
  ghost predicate OneOfEach(b: Books) {
    && (forall i, j :: 0 <= i < j < |b.claims| ==> b.claims[i].key != b.claims[j].key)
    && (forall i, j :: 0 <= i < j < |b.attestations| ==> b.attestations[i].key != b.attestations[j].key)
  }

  // A clean result stands on two documents that still classify to it, and the claim is confirmed.
  ghost predicate Stands(cfg: Config, b: Books, c: Comparison) {
    && c.claim.Some? && c.claim.value < |b.claims| && b.claims[c.claim.value].key == c.key
    && b.claims[c.claim.value].status == Confirmed
    && c.attestation.Some? && c.attestation.value < |b.attestations|
    && b.attestations[c.attestation.value].key == c.key
    && Classify(cfg.parse, b.claims[c.claim.value].docCids, b.attestations[c.attestation.value].docCids)
       == Success(Clean)
  }

  ghost predicate CleanStands(cfg: Config, b: Books) {
    OneOfEach(b) && forall c :: c in b.comparisons && c.outcome == Clean ==> Stands(cfg, b, c)
  }

  lemma {:induction false} CleanComparison(b: Books, k: Key) returns (c: Comparison)
    requires CleanAlready(b, k)
    ensures c in b.comparisons && c.outcome == Clean && c.key == k
  {
    c :| c in b.comparisons && c.outcome == Clean && c.key.session == k.session && c.key.block == k.block;
  }

  // A block that is clean already is judged clean again, and no round will find it.
  lemma {:induction false} CleanIsDecided(cfg: Config, b: Books, k: Key, now: int)
    requires CleanStands(cfg, b) && CleanAlready(b, k)
    ensures Judge(cfg, b, k, now).Decided? && Judge(cfg, b, k, now).outcome == Clean
    ensures !IsPending(b, k)
  {
    var c := CleanComparison(b, k);
    assert Stands(cfg, b, c);
    assert FindClaim(b.claims, k) == c.claim;
    assert FindAttestation(b.attestations, k) == c.attestation;
  }

  lemma {:induction false} StillStands(cfg: Config, b: Books, b': Books, c: Comparison)
    requires Stands(cfg, b, c) && DocumentsKept(b, b')
    ensures Stands(cfg, b', c)
  {
    var i, a := c.claim.value, c.attestation.value;
    assert b'.claims[i].(status := Pending).docCids == b.claims[i].(status := Pending).docCids;
    assert b'.claims[i].(status := Pending).key == b.claims[i].(status := Pending).key;
    assert b'.attestations[a].(status := Pending).docCids == b.attestations[a].(status := Pending).docCids;
    assert b'.attestations[a].(status := Pending).key == b.attestations[a].(status := Pending).key;
  }

  lemma {:induction false} CompareKeepsClean(cfg: Config, b: Books, k: Key, now: int)
    requires CleanStands(cfg, b)
    ensures CleanStands(cfg, CompareStep(cfg, b, k, now))
  {
    var b' := CompareStep(cfg, b, k, now);
    CompareKeepsDocuments(cfg, b, k, now);
    forall c | c in b'.comparisons && c.outcome == Clean ensures Stands(cfg, b', c) {
      if c in b.comparisons {
        StillStands(cfg, b, b', c);
      }
    }
  }

  // ----- What one event does to the count --------------------------------------------------------

  lemma {:induction false} CompareMovesOnlyItsSession(cfg: Config, b: Books, k: Key, now: int, s: string)
    requires CleanStands(cfg, b) && s in b.ledgers
    ensures s in CompareStep(cfg, b, k, now).ledgers
    ensures Surplus(CompareStep(cfg, b, k, now), s)
         == Surplus(b, s) + if k.session == s && CleanAlready(b, k) then 1 else 0
  {
    if CleanAlready(b, k) {
      CleanIsDecided(cfg, b, k, now);
    }
    if k.session == s {
      CompareMovesSurplus(cfg, b, k, now);
    } else {
      var v := Judge(cfg, b, k, now);
      if v.Decided? {
        ComparedKeysSnoc(b.comparisons, Comparison(k, v.outcome, v.claim, v.attestation));
        assert CleanBlocks(b.comparisons, s) + {} == CleanBlocks(b.comparisons, s);
      }
    }
  }

  lemma {:induction false} RoundKeepsSurplus(cfg: Config, b: Books, ks: seq<Key>, now: int, s: string)
    requires CleanStands(cfg, b) && PendingWork(b, ks) && s in b.ledgers
    ensures CleanStands(cfg, CompareAll(cfg, b, ks, now)) && s in CompareAll(cfg, b, ks, now).ledgers
    ensures Surplus(CompareAll(cfg, b, ks, now), s) == Surplus(b, s)
    decreases |ks|
  {
    if ks != [] {
      var k := ks[0];
      if CleanAlready(b, k) {
        CleanIsDecided(cfg, b, k, now);
      }
      CompareKeepsClean(cfg, b, k, now);
      CompareMovesOnlyItsSession(cfg, b, k, now, s);
      WorkRemains(cfg, b, ks, now);
      RoundKeepsSurplus(cfg, CompareStep(cfg, b, k, now), ks[1..], now, s);
    }
  }

  lemma {:induction false} RoundKeepsClean(cfg: Config, b: Books, ks: seq<Key>, now: int)
    requires CleanStands(cfg, b)
    ensures CleanStands(cfg, CompareAll(cfg, b, ks, now))
    decreases |ks|
  {
    if ks != [] {
      CompareKeepsClean(cfg, b, ks[0], now);
      RoundKeepsClean(cfg, CompareStep(cfg, b, ks[0], now), ks[1..], now);
    }
  }

  lemma {:induction false} SubmissionKeepsClean(cfg: Config, b: Books, b': Books)
    requires CleanStands(cfg, b) && OneOfEach(b')
    requires b'.comparisons == b.comparisons && b.claims <= b'.claims && b.attestations <= b'.attestations
    ensures CleanStands(cfg, b')
  {
    forall c | c in b'.comparisons && c.outcome == Clean ensures Stands(cfg, b', c) {
      assert Stands(cfg, b, c);
    }
  }

  lemma {:induction false} EventKeepsClean(cfg: Config, b: Books, e: AnyEvent)
    requires CleanStands(cfg, b)
    ensures CleanStands(cfg, ApplyAny(cfg, b, e))
  {
    match e
    case ComparedDirectly(k, at) => CompareKeepsClean(cfg, b, k, at);
    case Scheduled(RoundRun(at)) => RoundKeepsClean(cfg, b, SortKeys(ClaimKeys(PendingClaims(b.claims))), at);
    case Scheduled(_) => SubmissionKeepsClean(cfg, b, ApplyAny(cfg, b, e));
  }

  lemma {:induction false} EventMovesSurplus(cfg: Config, b: Books, e: AnyEvent, s: string)
    requires CleanStands(cfg, b) && s in b.ledgers
    ensures s in ApplyAny(cfg, b, e).ledgers
    ensures Surplus(ApplyAny(cfg, b, e), s) == Surplus(b, s) + Repeats(cfg, b, [e], s)
  {
    assert Repeats(cfg, ApplyAny(cfg, b, e), [e][1..], s) == 0;
    match e
    case ComparedDirectly(k, at) => CompareMovesOnlyItsSession(cfg, b, k, at, s);
    case Scheduled(RoundRun(at)) =>
      var ks := RoundWork(b);
      RoundKeepsSurplus(cfg, b, ks, at, s);
    case Scheduled(_) =>
  }

  // ----- Whole runs ------------------------------------------------------------------------------

  lemma {:induction false} RunKeepsClean(cfg: Config, b: Books, es: seq<AnyEvent>)
    requires CleanStands(cfg, b)
    ensures CleanStands(cfg, RunAny(cfg, b, es))
    decreases |es|
  {
    if es != [] {
      EventKeepsClean(cfg, b, es[0]);
      RunKeepsClean(cfg, ApplyAny(cfg, b, es[0]), es[1..]);
    }
  }

  lemma {:induction false} SurplusIsRepeats(cfg: Config, b: Books, es: seq<AnyEvent>, s: string)
    requires CleanStands(cfg, b) && s in b.ledgers
    ensures s in RunAny(cfg, b, es).ledgers
    ensures Surplus(RunAny(cfg, b, es), s) == Surplus(b, s) + Repeats(cfg, b, es, s)
    decreases |es|
  {
    if es != [] {
      var b' := ApplyAny(cfg, b, es[0]);
      EventKeepsClean(cfg, b, es[0]);
      EventMovesSurplus(cfg, b, es[0], s);
      SurplusIsRepeats(cfg, b', es[1..], s);
      assert Repeats(cfg, b', [es[0]][1..], s) == 0;
    }
  }

  // In every run of submissions, rounds, ledger openings and direct comparisons: from the opening
  // of a ledger on, its count is the number of distinct clean blocks, less those that were clean
  // before, plus one for every direct comparison of a block that was clean already.
  lemma {:induction false} CountIsCleanBlocksPlusRepeats(cfg: Config, before: seq<AnyEvent>, opening: Event,
                                                         after: seq<AnyEvent>)
    requires opening.LedgerOpened? && opening.session !in RunAny(cfg, EMPTY, before).ledgers
    ensures var s := opening.session;
            var b := RunAny(cfg, EMPTY, before);
            var open := Apply(cfg, b, opening);
            var final := RunAny(cfg, open, after);
            && s in final.ledgers
            && final.ledgers[s].blocksVerified
               == |CleanBlocks(final.comparisons, s)| - |CleanBlocks(b.comparisons, s)| + Repeats(cfg, open, after, s)
  {
    RunKeepsClean(cfg, EMPTY, before);
    var b := RunAny(cfg, EMPTY, before);
    var open := Apply(cfg, b, opening);
    EventKeepsClean(cfg, b, Scheduled(opening));
    SurplusIsRepeats(cfg, open, after, opening.session);
  }
}
