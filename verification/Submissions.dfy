// Where the stored documents come from, what a round makes of them and when.
module Submissions {
  import opened Common
  import opened Ordering
  import opened CidComparison
  import opened Accounting
  import opened AccountingRuns

  // ----- Provenance -------------------------------------------------------------------------------

  // Stored at the whole second of the submission, in nanoseconds.
  predicate SecondOf(stamp: int, at: int) {
    stamp * 1_000_000_000 <= at < (stamp + 1) * 1_000_000_000
  }

  // The claim is the one this event submitted, whatever has become of its status.
  predicate IsClaimOf(c: Claim, e: Event) {
    && e.ClaimSubmitted?
    && c.key == e.claim.key && c.indexerId == e.claim.indexerId && c.docCids == e.claim.docCids
    && c.blockHash == e.claim.blockHash && c.batchSignature == e.claim.batchSignature
    && SecondOf(c.submittedAt, e.at)
  }

  predicate IsAttestationOf(a: Attestation, e: Event) {
    && e.AttestationSubmitted?
    && a.key == e.attestation.key && a.hostId == e.attestation.hostId && a.docCids == e.attestation.docCids
    && a.batchSignature == e.attestation.batchSignature
    && SecondOf(a.submittedAt, e.at)
  }

  ghost predicate IsClaimOfSome(c: Claim, es: seq<Event>) {
    exists e :: e in es && IsClaimOf(c, e)
  }

  ghost predicate IsAttestationOfSome(a: Attestation, es: seq<Event>) {
    exists e :: e in es && IsAttestationOf(a, e)
  }

  ghost predicate ClaimsComeFrom(es: seq<Event>, claims: seq<Claim>) {
    forall i :: 0 <= i < |claims| ==> IsClaimOfSome(claims[i], es)
  }

  ghost predicate AttestationsComeFrom(es: seq<Event>, docs: seq<Attestation>) {
    forall i :: 0 <= i < |docs| ==> IsAttestationOfSome(docs[i], es)
  }

  lemma {:induction false} StampIsSecond(at: int)
    ensures SecondOf(Stamp(at), at)
  {
  }

  lemma {:induction false} ClaimsStayFrom(es: seq<Event>, e: Event, claims: seq<Claim>, claims': seq<Claim>)
    requires ClaimsComeFrom(es, claims) && |claims| <= |claims'| <= |claims| + 1
    requires forall i :: 0 <= i < |claims| ==> claims'[i].(status := Pending) == claims[i].(status := Pending)
    requires |claims'| > |claims| ==> IsClaimOf(claims'[|claims|], e)
    ensures ClaimsComeFrom(es + [e], claims')
  {
    forall i | 0 <= i < |claims'| ensures IsClaimOfSome(claims'[i], es + [e]) {
      if i < |claims| {
        var e' :| e' in es && IsClaimOf(claims[i], e');
        SameClaim(claims[i], claims'[i], e');
        assert e' in es + [e];
      } else {
        assert e in es + [e];
      }
    }
  }

  lemma {:induction false} SameClaim(c: Claim, c': Claim, e: Event)
    requires c.(status := Pending) == c'.(status := Pending) && IsClaimOf(c, e)
    ensures IsClaimOf(c', e)
  {
    assert c.(status := Pending).key == c'.(status := Pending).key;
    assert c.(status := Pending).indexerId == c'.(status := Pending).indexerId;
    assert c.(status := Pending).docCids == c'.(status := Pending).docCids;
    assert c.(status := Pending).blockHash == c'.(status := Pending).blockHash;
    assert c.(status := Pending).batchSignature == c'.(status := Pending).batchSignature;
    assert c.(status := Pending).submittedAt == c'.(status := Pending).submittedAt;
  }

  lemma {:induction false} AttestationsStayFrom(es: seq<Event>, e: Event, docs: seq<Attestation>,
                                                docs': seq<Attestation>)
    requires AttestationsComeFrom(es, docs) && |docs| <= |docs'| <= |docs| + 1
    requires forall i :: 0 <= i < |docs| ==> docs'[i].(status := Pending) == docs[i].(status := Pending)
    requires |docs'| > |docs| ==> IsAttestationOf(docs'[|docs|], e)
    ensures AttestationsComeFrom(es + [e], docs')
  {
    forall i | 0 <= i < |docs'| ensures IsAttestationOfSome(docs'[i], es + [e]) {
      if i < |docs| {
        var e' :| e' in es && IsAttestationOf(docs[i], e');
        SameAttestation(docs[i], docs'[i], e');
        assert e' in es + [e];
      } else {
        assert e in es + [e];
      }
    }
  }

  lemma {:induction false} SameAttestation(a: Attestation, a': Attestation, e: Event)
    requires a.(status := Pending) == a'.(status := Pending) && IsAttestationOf(a, e)
    ensures IsAttestationOf(a', e)
  {
    assert a.(status := Pending).key == a'.(status := Pending).key;
    assert a.(status := Pending).hostId == a'.(status := Pending).hostId;
    assert a.(status := Pending).docCids == a'.(status := Pending).docCids;
    assert a.(status := Pending).batchSignature == a'.(status := Pending).batchSignature;
    assert a.(status := Pending).submittedAt == a'.(status := Pending).submittedAt;
  }

  lemma {:induction false} StepStaysFrom(cfg: Config, es: seq<Event>, b: Books, e: Event)
    requires Inv(cfg, b) && ClaimsComeFrom(es, b.claims) && AttestationsComeFrom(es, b.attestations)
    ensures ClaimsComeFrom(es + [e], Apply(cfg, b, e).claims)
    ensures AttestationsComeFrom(es + [e], Apply(cfg, b, e).attestations)
  {
    var b' := Apply(cfg, b, e);
    if e.RoundRun? {
      RoundSettlesClaims(cfg, b, e.at);
    } else if !e.LedgerOpened? {
      StampIsSecond(e.at);
    }
    ClaimsStayFrom(es, e, b.claims, b'.claims);
    AttestationsStayFrom(es, e, b.attestations, b'.attestations);
  }

  // Every stored claim and every stored attestation of a run is what one of its submissions said,
  // stored at the whole second of that submission.
  lemma {:induction false} DocumentsComeFromSubmissions(cfg: Config, es: seq<Event>)
    ensures ClaimsComeFrom(es, Run(cfg, EMPTY, es).claims)
    ensures AttestationsComeFrom(es, Run(cfg, EMPTY, es).attestations)
    decreases |es|
  {
    if es != [] {
      var front, e := es[..|es| - 1], es[|es| - 1];
      assert es == front + [e];
      DocumentsComeFromSubmissions(cfg, front);
      EveryReachableStateIsSound(cfg, front);
      RunSnoc(cfg, front, e);
      StepStaysFrom(cfg, front, Run(cfg, EMPTY, front), e);
    }
  }

  lemma {:induction false} RunSnoc(cfg: Config, es: seq<Event>, e: Event)
    ensures Run(cfg, EMPTY, es + [e]) == Apply(cfg, Run(cfg, EMPTY, es), e)
  {
    RunSplits(cfg, EMPTY, es, [e]);
    var b := Run(cfg, EMPTY, es);
    assert [e][1..] == [];
    assert Run(cfg, b, [e]) == Run(cfg, Apply(cfg, b, e), []);
  }

  // ----- What a round records ----------------------------------------------------------------------

  // The comparison that judging a key in these books gives.
  ghost predicate IsJudgement(cfg: Config, b: Books, c: Comparison, now: int) {
    Judge(cfg, b, c.key, now) == Decided(c.outcome, c.claim, c.attestation)
  }

  // The results added since are the judgements, in these books, of some of the keys, in order.
  ghost predicate AddsJudgements(cfg: Config, b: Books, ks: seq<Key>, now: int, before: seq<Comparison>,
                                 after: seq<Comparison>)
  {
    && before <= after
    && (forall i :: |before| <= i < |after| ==> IsJudgement(cfg, b, after[i], now) && after[i].key in ks)
    && (forall k :: k in ks && Judge(cfg, b, k, now).Decided? ==>
          exists i :: |before| <= i < |after| && after[i].key == k)
    && (forall i, j :: |before| <= i < j < |after| ==> KeyLt(after[i].key, after[j].key))
  }

  lemma {:induction false} CompareAllAddsJudgements(cfg: Config, b: Books, ks: seq<Key>, now: int)
    requires StrictlySorted(ks)
    ensures SameDocuments(b, CompareAll(cfg, b, ks, now))
    ensures AddsJudgements(cfg, b, ks, now, b.comparisons, CompareAll(cfg, b, ks, now).comparisons)
    decreases |ks|
  {
    if ks == [] {
      SameDocumentsReflexive(b);
    } else {
      var k, rest := ks[0], ks[1..];
      var b1 := CompareStep(cfg, b, k, now);
      CompareKeepsDocuments(cfg, b, k, now);
      CompareAllAddsJudgements(cfg, b1, rest, now);
      var b2 := CompareAll(cfg, b1, rest, now);
      SameDocumentsTransitive(b, b1, b2);
      forall key ensures Judge(cfg, b1, key, now) == Judge(cfg, b, key, now) {
        JudgeIsStable(cfg, b, b1, key, now);
      }
      OneJudgementMore(cfg, b, b1, ks, now, b2.comparisons);
    }
  }

  lemma {:induction false} SameDocumentsReflexive(b: Books)
    ensures SameDocuments(b, b)
  {
  }

  lemma {:induction false} SameDocumentsTransitive(b: Books, b1: Books, b2: Books)
    requires SameDocuments(b, b1) && SameDocuments(b1, b2)
    ensures SameDocuments(b, b2)
  {
  }

  lemma {:induction false} OneJudgementMore(cfg: Config, b: Books, b1: Books, ks: seq<Key>, now: int,
                                            after: seq<Comparison>)
    requires StrictlySorted(ks) && ks != [] && b1 == CompareStep(cfg, b, ks[0], now)
    requires forall k :: Judge(cfg, b1, k, now) == Judge(cfg, b, k, now)
    requires AddsJudgements(cfg, b1, ks[1..], now, b1.comparisons, after)
    ensures AddsJudgements(cfg, b, ks, now, b.comparisons, after)
  {
    var before, k, rest := b.comparisons, ks[0], ks[1..];
    assert ks == [k] + rest;
    forall i | |before| <= i < |after| ensures IsJudgement(cfg, b, after[i], now) && after[i].key in ks {
      if i >= |b1.comparisons| {
        assert IsJudgement(cfg, b1, after[i], now);
      } else {
        assert after[i] == b1.comparisons[i];
      }
    }
    forall key | key in ks && Judge(cfg, b, key, now).Decided?
      ensures exists i :: |before| <= i < |after| && after[i].key == key
    {
      if key == k {
        assert after[|before|] == b1.comparisons[|before|];
      } else {
        assert key in rest;
        assert Judge(cfg, b1, key, now).Decided?;
        var i :| |b1.comparisons| <= i < |after| && after[i].key == key;
      }
    }
    FirstKeyPrecedes(ks, |before|, |b1.comparisons|, after);
  }

  // The results from `n` on are of keys after the first, which has at most one result before them.
  lemma {:induction false} FirstKeyPrecedes(ks: seq<Key>, m: nat, n: nat, after: seq<Comparison>)
    requires StrictlySorted(ks) && ks != [] && m <= n <= m + 1 && n <= |after|
    requires n == m + 1 ==> after[m].key == ks[0]
    requires forall i :: n <= i < |after| ==> after[i].key in ks[1..]
    requires forall i, j :: n <= i < j < |after| ==> KeyLt(after[i].key, after[j].key)
    ensures forall i, j :: m <= i < j < |after| ==> KeyLt(after[i].key, after[j].key)
  {
    var rest := ks[1..];
    forall i, j | m <= i < j < |after| ensures KeyLt(after[i].key, after[j].key) {
      if i < n {
        var x :| 0 <= x < |rest| && rest[x] == after[j].key;
        assert ks[x + 1] == after[j].key;
      }
    }
  }

  // A round adds the judgement of every pending claim that can be judged, and nothing else: blocks
  // of one session in ascending order, and sessions in the order of their names.
  lemma {:induction false} RoundRecordsTheJudgements(cfg: Config, es: seq<Event>, now: int)
    ensures var b, b' := Run(cfg, EMPTY, es), Run(cfg, EMPTY, es + [RoundRun(now)]);
            && b.comparisons <= b'.comparisons
            && (forall i :: |b.comparisons| <= i < |b'.comparisons| ==>
                  IsJudgement(cfg, b, b'.comparisons[i], now) && IsPending(b, b'.comparisons[i].key))
            && (forall k :: IsPending(b, k) && Judge(cfg, b, k, now).Decided? ==>
                  exists i :: |b.comparisons| <= i < |b'.comparisons| && b'.comparisons[i].key == k)
            && forall i, j :: |b.comparisons| <= i < j < |b'.comparisons| ==>
                 var k, k' := b'.comparisons[i].key, b'.comparisons[j].key;
                 StrLt(k.session, k'.session) || (k.session == k'.session && k.block < k'.block)
  {
    RunSnoc(cfg, es, RoundRun(now));
    RoundAddsJudgements(cfg, Run(cfg, EMPTY, es), now);
  }

  lemma {:induction false} RoundAddsJudgements(cfg: Config, b: Books, now: int)
    ensures var ks := SortKeys(ClaimKeys(PendingClaims(b.claims)));
            && AddsJudgements(cfg, b, ks, now, b.comparisons, Round(cfg, b, now).comparisons)
            && forall k :: k in ks <==> IsPending(b, k)
  {
    var ks := SortKeys(ClaimKeys(PendingClaims(b.claims)));
    SortKeysSorts(ClaimKeys(PendingClaims(b.claims)));
    CompareAllAddsJudgements(cfg, b, ks, now);
    forall k ensures k in ks <==> IsPending(b, k) {
      PendingKeyIsListed(b, k);
      assert k in ks <==> k in Elems(ks);
    }
  }

  lemma {:induction false} PendingKeyIsListed(b: Books, k: Key)
    ensures k in Elems(ClaimKeys(PendingClaims(b.claims))) <==> IsPending(b, k)
  {
    var docs := PendingClaims(b.claims);
    if k in ClaimKeys(docs) {
      var i :| 0 <= i < |docs| && docs[i].key == k;
      assert docs[i] in docs;
    }
    if i :| 0 <= i < |b.claims| && b.claims[i].key == k && b.claims[i].status == Pending {
      assert b.claims[i] in docs;
      var j :| 0 <= j < |docs| && docs[j] == b.claims[i];
      assert ClaimKeys(docs)[j] == k;
    }
  }

  // ----- Silence ------------------------------------------------------------------------------------

  ghost predicate HasAttestation(b: Books, k: Key) {
    exists i :: 0 <= i < |b.attestations| && b.attestations[i].key == k
  }

  // In the books after some events, the round at `now` finds the host silent about this block.
  ghost predicate FoundSilent(cfg: Config, es: seq<Event>, now: int, k: Key) {
    var b, b' := Run(cfg, EMPTY, es), Run(cfg, EMPTY, es + [RoundRun(now)]);
    exists i :: |b.comparisons| <= i < |b'.comparisons| && b'.comparisons[i].key == k
                && b'.comparisons[i].outcome == HostSilent
  }

  // For a claim that is still pending, submitted by the event `e`: a round finds the host silent
  // only if there is no attestation and all but less than a second of the window has passed, and it
  // does so if there is no attestation and the whole window has passed.
  lemma {:induction false} SilenceComesWithTheWindow(cfg: Config, es: seq<Event>, now: int, i: nat, e: Event)
    requires i < |Run(cfg, EMPTY, es).claims| && e in es && IsClaimOf(Run(cfg, EMPTY, es).claims[i], e)
    requires Run(cfg, EMPTY, es).claims[i].status == Pending
    ensures var b := Run(cfg, EMPTY, es);
            var k, elapsed := b.claims[i].key, now - e.at;
            && (FoundSilent(cfg, es, now, k) ==>
                  !HasAttestation(b, k) && elapsed > (cfg.attestationWindowSeconds - 1) * 1_000_000_000)
            && (!HasAttestation(b, k) && elapsed >= cfg.attestationWindowSeconds * 1_000_000_000 ==>
                  FoundSilent(cfg, es, now, k))
  {
    var b, b' := Run(cfg, EMPTY, es), Run(cfg, EMPTY, es + [RoundRun(now)]);
    var c, at := b.claims[i], e.at;
    EveryReachableStateIsSound(cfg, es);
    RoundRecordsTheJudgements(cfg, es, now);
    assert FindClaim(b.claims, c.key) == Some(i);
    SilentIff(cfg, b, i, now);
    assert IsPending(b, c.key);
    if FoundSilent(cfg, es, now, c.key) {
      var n :| |b.comparisons| <= n < |b'.comparisons| && b'.comparisons[n].key == c.key
               && b'.comparisons[n].outcome == HostSilent;
      assert IsJudgement(cfg, b, b'.comparisons[n], now);
    }
    if !HasAttestation(b, c.key) && now - at >= cfg.attestationWindowSeconds * 1_000_000_000 {
      var n :| |b.comparisons| <= n < |b'.comparisons| && b'.comparisons[n].key == c.key;
      assert IsJudgement(cfg, b, b'.comparisons[n], now);
    }
  }

  lemma {:induction false} SilentIff(cfg: Config, b: Books, i: nat, now: int)
    requires OneDocumentPerKey(b) && i < |b.claims|
    ensures var k := b.claims[i].key;
            && (HasAttestation(b, k) <==> FindAttestation(b.attestations, k).Some?)
            && (Judge(cfg, b, k, now) == Decided(HostSilent, Some(i), None) <==>
                !HasAttestation(b, k)
                && now - b.claims[i].submittedAt * 1_000_000_000 >= cfg.attestationWindowSeconds * 1_000_000_000)
            && (forall c, a :: Judge(cfg, b, k, now) == Decided(HostSilent, c, a) ==> c == Some(i) && a == None)
  {
    assert FindClaim(b.claims, b.claims[i].key) == Some(i);
  }

  // ----- What a comparison decides ---------------------------------------------------------------

  ghost predicate HasClaim(b: Books, k: Key) {
    exists i :: 0 <= i < |b.claims| && b.claims[i].key == k
  }

  lemma {:induction false} FoundIff(b: Books, k: Key)
    requires OneDocumentPerKey(b)
    ensures HasClaim(b, k) <==> FindClaim(b.claims, k).Some?
    ensures HasAttestation(b, k) <==> FindAttestation(b.attestations, k).Some?
    ensures forall i :: 0 <= i < |b.claims| && b.claims[i].key == k ==> FindClaim(b.claims, k) == Some(i)
    ensures forall i :: 0 <= i < |b.attestations| && b.attestations[i].key == k ==>
              FindAttestation(b.attestations, k) == Some(i)
  {
  }

  // In a reachable state, a comparison of a block with two documents is decided by their lists.
  lemma {:induction false} BothDocumentsDecide(cfg: Config, es: seq<Event>, i: nat, j: nat, now: int)
    requires i < |Run(cfg, EMPTY, es).claims| && j < |Run(cfg, EMPTY, es).attestations|
    requires Run(cfg, EMPTY, es).claims[i].key == Run(cfg, EMPTY, es).attestations[j].key
    ensures var b := Run(cfg, EMPTY, es);
            var v := Judge(cfg, b, b.claims[i].key, now);
            match Classify(cfg.parse, b.claims[i].docCids, b.attestations[j].docCids)
            case Failure(e) => v == Broken(e)
            case Success(outcome) => v == Decided(outcome, Some(i), Some(j))
  {
    EveryReachableStateIsSound(cfg, es);
    FoundIff(Run(cfg, EMPTY, es), Run(cfg, EMPTY, es).claims[i].key);
  }

  // With one document, the other party is silent once the window has passed.
  lemma {:induction false} LoneClaimWaits(cfg: Config, es: seq<Event>, i: nat, now: int)
    requires i < |Run(cfg, EMPTY, es).claims|
    requires !HasAttestation(Run(cfg, EMPTY, es), Run(cfg, EMPTY, es).claims[i].key)
    ensures var b := Run(cfg, EMPTY, es);
            Judge(cfg, b, b.claims[i].key, now)
            == if now >= (b.claims[i].submittedAt + cfg.attestationWindowSeconds) * 1_000_000_000
               then Decided(HostSilent, Some(i), None) else Hold
  {
    EveryReachableStateIsSound(cfg, es);
    FoundIff(Run(cfg, EMPTY, es), Run(cfg, EMPTY, es).claims[i].key);
  }

  lemma {:induction false} LoneAttestationWaits(cfg: Config, es: seq<Event>, j: nat, now: int)
    requires j < |Run(cfg, EMPTY, es).attestations|
    requires !HasClaim(Run(cfg, EMPTY, es), Run(cfg, EMPTY, es).attestations[j].key)
    ensures var b := Run(cfg, EMPTY, es);
            Judge(cfg, b, b.attestations[j].key, now)
            == if now >= (b.attestations[j].submittedAt + cfg.attestationWindowSeconds) * 1_000_000_000
               then Decided(IndexerSilent, None, Some(j)) else Hold
  {
    EveryReachableStateIsSound(cfg, es);
    FoundIff(Run(cfg, EMPTY, es), Run(cfg, EMPTY, es).attestations[j].key);
  }

  lemma {:induction false} NothingOnFileHolds(cfg: Config, b: Books, k: Key, now: int)
    requires !HasClaim(b, k) && !HasAttestation(b, k)
    ensures Judge(cfg, b, k, now) == Hold
  {
    assert FindClaim(b.claims, k).None? && FindAttestation(b.attestations, k).None?;
  }

  // ----- Confirmation ------------------------------------------------------------------------------

  // A document is confirmed exactly when a result was recorded on it.
  ghost predicate ConfirmedIffJudged(b: Books) {
    && (forall i :: 0 <= i < |b.claims| ==>
          (b.claims[i].status == Confirmed <==> exists c :: c in b.comparisons && c.claim == Some(i)))
    && (forall i :: 0 <= i < |b.attestations| ==>
          (b.attestations[i].status == Confirmed <==> exists c :: c in b.comparisons && c.attestation == Some(i)))
    && forall c :: c in b.comparisons ==>
         && (c.claim.Some? ==> c.claim.value < |b.claims|)
         && (c.attestation.Some? ==> c.attestation.value < |b.attestations|)
  }

  lemma {:induction false} CompareConfirms(cfg: Config, b: Books, k: Key, now: int)
    requires ConfirmedIffJudged(b)
    ensures ConfirmedIffJudged(CompareStep(cfg, b, k, now))
  {
    var b', v := CompareStep(cfg, b, k, now), Judge(cfg, b, k, now);
    if v.Decided? {
      var added := Comparison(k, v.outcome, v.claim, v.attestation);
      assert b'.comparisons[|b.comparisons|] == added;
      assert forall c :: c in b'.comparisons <==> c in b.comparisons || c == added;
      forall i | 0 <= i < |b'.claims|
        ensures b'.claims[i].status == Confirmed <==> exists c :: c in b'.comparisons && c.claim == Some(i)
      {
        if b.claims[i].status == Confirmed {
          var c :| c in b.comparisons && c.claim == Some(i);
          assert c in b'.comparisons;
        }
      }
      forall i | 0 <= i < |b'.attestations|
        ensures b'.attestations[i].status == Confirmed <==>
                exists c :: c in b'.comparisons && c.attestation == Some(i)
      {
        if b.attestations[i].status == Confirmed {
          var c :| c in b.comparisons && c.attestation == Some(i);
          assert c in b'.comparisons;
        }
      }
    }
  }

  lemma {:induction false} RoundConfirms(cfg: Config, b: Books, ks: seq<Key>, now: int)
    requires ConfirmedIffJudged(b)
    ensures ConfirmedIffJudged(CompareAll(cfg, b, ks, now))
    decreases |ks|
  {
    if ks != [] {
      CompareConfirms(cfg, b, ks[0], now);
      RoundConfirms(cfg, CompareStep(cfg, b, ks[0], now), ks[1..], now);
    }
  }

  lemma {:induction false} SubmissionLeavesConfirmed(b: Books, b': Books)
    requires ConfirmedIffJudged(b) && b'.comparisons == b.comparisons
    requires b.claims <= b'.claims && b.attestations <= b'.attestations
    requires forall i :: |b.claims| <= i < |b'.claims| ==> b'.claims[i].status == Pending
    requires forall i :: |b.attestations| <= i < |b'.attestations| ==> b'.attestations[i].status == Pending
    ensures ConfirmedIffJudged(b')
  {
    forall c | c in b'.comparisons
      ensures (c.claim.Some? ==> c.claim.value < |b.claims|)
      ensures (c.attestation.Some? ==> c.attestation.value < |b.attestations|)
    {
    }
  }

  // In every run, a claim or attestation is confirmed if and only if a recorded result names it.
  lemma {:induction false} DocumentsAreConfirmedIffJudged(cfg: Config, es: seq<Event>)
    ensures ConfirmedIffJudged(Run(cfg, EMPTY, es))
    decreases |es|
  {
    if es != [] {
      var front, e := es[..|es| - 1], es[|es| - 1];
      assert es == front + [e];
      DocumentsAreConfirmedIffJudged(cfg, front);
      RunSnoc(cfg, front, e);
      var b := Run(cfg, EMPTY, front);
      if e.RoundRun? {
        RoundConfirms(cfg, b, SortKeys(ClaimKeys(PendingClaims(b.claims))), e.at);
      } else {
        SubmissionLeavesConfirmed(b, Apply(cfg, b, e));
      }
    }
  }

  // ----- Ledgers -----------------------------------------------------------------------------------

  // A session's ledger, through everything that follows its opening, is that of the host and indexer
  // and on the terms it was opened with.
  lemma {:induction false} LedgerKeepsItsTerms(cfg: Config, before: seq<Event>, opening: Event, after: seq<Event>)
    requires opening.LedgerOpened? && opening.session !in Run(cfg, EMPTY, before).ledgers
    ensures var s, final := opening.session, Run(cfg, EMPTY, before + [opening] + after);
            && s in final.ledgers
            && final.ledgers[s].hostId == opening.hostId && final.ledgers[s].indexerId == opening.indexerId
            && final.ledgers[s].initialEscrow == opening.escrow && final.ledgers[s].pricePerBlock == opening.price
    decreases |after|
  {
    if after == [] {
      assert before + [opening] + after == before + [opening];
      RunSnoc(cfg, before, opening);
    } else {
      var front, e := after[..|after| - 1], after[|after| - 1];
      LedgerKeepsItsTerms(cfg, before, opening, front);
      assert before + [opening] + after == before + [opening] + front + [e];
      RunSnoc(cfg, before + [opening] + front, e);
      var b := Run(cfg, EMPTY, before + [opening] + front);
      if e.RoundRun? {
        RoundKeepsTerms(cfg, b, SortKeys(ClaimKeys(PendingClaims(b.claims))), e.at, opening.session);
      }
    }
  }

  lemma {:induction false} RoundKeepsTerms(cfg: Config, b: Books, ks: seq<Key>, now: int, s: string)
    requires s in b.ledgers
    ensures var b' := CompareAll(cfg, b, ks, now);
            && s in b'.ledgers
            && b'.ledgers[s].hostId == b.ledgers[s].hostId && b'.ledgers[s].indexerId == b.ledgers[s].indexerId
            && b'.ledgers[s].initialEscrow == b.ledgers[s].initialEscrow
            && b'.ledgers[s].pricePerBlock == b.ledgers[s].pricePerBlock
    decreases |ks|
  {
    if ks != [] {
      RoundKeepsTerms(cfg, CompareStep(cfg, b, ks[0], now), ks[1..], now, s);
    }
  }
}
