// What every run of submissions, ledger openings and comparison rounds keeps.
module AccountingRuns {
  import opened Common
  import opened CidComparison
  import opened Accounting

  datatype Event =
    | ClaimSubmitted(claim: ClaimRequest, at: int)
    | AttestationSubmitted(attestation: AttestRequest, at: int)
    | LedgerOpened(session: string, hostId: string, indexerId: string, escrow: real, price: real)
    | RoundRun(at: int)

  function Apply(cfg: Config, b: Books, e: Event): Books {
    match e
    case ClaimSubmitted(req, at) => SubmitClaim(b, req, at).0
    case AttestationSubmitted(req, at) => SubmitAttest(b, req, at).0
    case LedgerOpened(s, h, i, escrow, price) => OpenLedger(b, s, h, i, escrow, price)
    case RoundRun(at) => Round(cfg, b, at)
  }

  function Run(cfg: Config, b: Books, es: seq<Event>): Books
    decreases |es|
  {
    if es == [] then b else Run(cfg, Apply(cfg, b, es[0]), es[1..])
  }

  const EMPTY := Books([], [], map[], [])

  // ----- Observations ---------------------------------------------------------------

  function ComparedKeys(cs: seq<Comparison>): set<Key> {
    set c | c in cs :: c.key
  }

  // The distinct blocks of a session that have a clean comparison result.
  function CleanBlocks(cs: seq<Comparison>, session: string): set<int> {
    set c | c in cs && c.outcome == Clean && c.key.session == session :: c.key.block
  }

  function LastClean(cs: seq<Comparison>, session: string): Option<int> {
    if cs == [] then None
    else
      var last := cs[|cs| - 1];
      if last.outcome == Clean && last.key.session == session then Some(last.key.block)
      else LastClean(cs[..|cs| - 1], session)
  }

  function CreditAfter(escrow: real, price: real, blocks: int): real {
    if blocks == 0 then escrow else MaxReal(escrow - Cost(blocks, price), 0.0)
  }

  ghost predicate IsPending(b: Books, k: Key) {
    exists i :: 0 <= i < |b.claims| && b.claims[i].key == k && b.claims[i].status == Pending
  }

  // ----- The invariant ----------------------------------------------------------------

  ghost predicate OneDocumentPerKey(b: Books) {
    && (forall i, j :: 0 <= i < j < |b.claims| ==> b.claims[i].key != b.claims[j].key)
    && (forall i, j :: 0 <= i < j < |b.attestations| ==> b.attestations[i].key != b.attestations[j].key)
    && (forall i, j :: 0 <= i < j < |b.comparisons| ==> b.comparisons[i].key != b.comparisons[j].key)
  }

  // A recorded outcome is what the stored documents, as they are now, classify to.
  ghost predicate Justified(cfg: Config, b: Books, c: Comparison) {
    && c.claim.Some? && c.claim.value < |b.claims| && b.claims[c.claim.value].key == c.key
    && match c.attestation
       case None => c.outcome == HostSilent
       case Some(a) =>
         && a < |b.attestations| && b.attestations[a].key == c.key
         && Classify(cfg.parse, b.claims[c.claim.value].docCids, b.attestations[a].docCids) == Success(c.outcome)
  }

  ghost predicate LedgerSound(l: Ledger, cs: seq<Comparison>, s: string) {
    && l.blocksVerified >= 0
    && (if l.blocksVerified == 0 then l.lastComparedBlock == 0
        else LastClean(cs, s) == Some(l.lastComparedBlock))
    && (l.pricePerBlock >= 0.0 ==>
          l.creditRemaining == CreditAfter(l.initialEscrow, l.pricePerBlock, l.blocksVerified))
  }

  ghost predicate ConfirmedMeansCompared(b: Books) {
    forall i :: 0 <= i < |b.claims| ==>
      (b.claims[i].status == Confirmed <==> b.claims[i].key in ComparedKeys(b.comparisons))
  }

  ghost predicate AllJustified(cfg: Config, b: Books) {
    forall c :: c in b.comparisons ==> Justified(cfg, b, c)
  }

  ghost predicate LedgersSound(b: Books) {
    forall s :: s in b.ledgers ==> LedgerSound(b.ledgers[s], b.comparisons, s)
  }

  ghost predicate Inv(cfg: Config, b: Books) {
    OneDocumentPerKey(b) && ConfirmedMeansCompared(b) && AllJustified(cfg, b) && LedgersSound(b)
  }

  // ----- What later states owe to earlier ones ----------------------------------------------

  // Documents only accumulate: nothing but a status changes, and only from pending to confirmed.
  ghost predicate DocumentsKept(b: Books, b': Books) {
    && |b.claims| <= |b'.claims| && |b.attestations| <= |b'.attestations|
    && (forall i :: 0 <= i < |b.claims| ==>
          && b'.claims[i].(status := Pending) == b.claims[i].(status := Pending)
          && (b.claims[i].status == Confirmed ==> b'.claims[i].status == Confirmed))
    && (forall i :: 0 <= i < |b.attestations| ==>
          && b'.attestations[i].(status := Pending) == b.attestations[i].(status := Pending)
          && (b.attestations[i].status == Confirmed ==> b'.attestations[i].status == Confirmed))
    && b.comparisons <= b'.comparisons
  }

  function Surplus(b: Books, s: string): int
    requires s in b.ledgers
  {
    b.ledgers[s].blocksVerified - |CleanBlocks(b.comparisons, s)|
  }

  ghost predicate LedgersKept(b: Books, b': Books) {
    forall s :: s in b.ledgers ==>
      && s in b'.ledgers
      && b'.ledgers[s].initialEscrow == b.ledgers[s].initialEscrow
      && b'.ledgers[s].pricePerBlock == b.ledgers[s].pricePerBlock
      && Surplus(b', s) == Surplus(b, s)
  }

  ghost predicate Kept(b: Books, b': Books) {
    DocumentsKept(b, b') && LedgersKept(b, b')
  }

  ghost predicate SameDocuments(b: Books, b': Books) {
    && DocumentsKept(b, b')
    && |b.claims| == |b'.claims| && |b.attestations| == |b'.attestations|
  }

  // ----- Small facts ----------------------------------------------------------------------

  lemma {:induction false} ComparedKeysSnoc(cs: seq<Comparison>, c: Comparison)
    ensures ComparedKeys(cs + [c]) == ComparedKeys(cs) + {c.key}
    ensures forall s :: CleanBlocks(cs + [c], s) ==
              CleanBlocks(cs, s) + (if c.outcome == Clean && c.key.session == s then {c.key.block} else {})
    ensures forall s :: LastClean(cs + [c], s) ==
              if c.outcome == Clean && c.key.session == s then Some(c.key.block) else LastClean(cs, s)
  {
    assert (cs + [c])[..|cs|] == cs;
    assert forall x :: x in cs + [c] <==> x in cs || x == c;
  }

  lemma {:induction false} CleanBlocksAreCompared(cs: seq<Comparison>, k: Key)
    ensures k.block in CleanBlocks(cs, k.session) ==> k in ComparedKeys(cs)
  {
    if k.block in CleanBlocks(cs, k.session) {
      var c :| c in cs && c.outcome == Clean && c.key.session == k.session && c.key.block == k.block;
      assert c.key == k;
    }
  }

  lemma {:induction false} ChargedKeepsCredit(l: Ledger, block: int)
    requires l.pricePerBlock >= 0.0 && l.blocksVerified >= 0
    requires l.creditRemaining == CreditAfter(l.initialEscrow, l.pricePerBlock, l.blocksVerified)
    ensures Charged(l, block).creditRemaining ==
            CreditAfter(l.initialEscrow, l.pricePerBlock, l.blocksVerified + 1)
  {
    assert Cost(l.blocksVerified + 1, l.pricePerBlock) == Cost(l.blocksVerified, l.pricePerBlock) + l.pricePerBlock;
  }

  // Judging reads keys and contents, never a status, so it is stable under status changes.
  lemma {:induction false} JudgeIsStable(cfg: Config, b: Books, b': Books, k: Key, now: int)
    requires SameDocuments(b, b')
    ensures Judge(cfg, b', k, now) == Judge(cfg, b, k, now)
  {
    FindClaimIsStable(b.claims, b'.claims, k);
    FindAttestationIsStable(b.attestations, b'.attestations, k);
  }

  lemma {:induction false} FindClaimIsStable(s: seq<Claim>, t: seq<Claim>, k: Key)
    requires |s| == |t| && forall i :: 0 <= i < |s| ==> s[i].key == t[i].key
    ensures FindClaim(s, k) == FindClaim(t, k)
  {
  }

  lemma {:induction false} FindAttestationIsStable(s: seq<Attestation>, t: seq<Attestation>, k: Key)
    requires |s| == |t| && forall i :: 0 <= i < |s| ==> s[i].key == t[i].key
    ensures FindAttestation(s, k) == FindAttestation(t, k)
  {
  }

  // ----- One comparison ------------------------------------------------------------------

  lemma {:induction false} PendingIsNew(cfg: Config, b: Books, k: Key)
    requires Inv(cfg, b) && IsPending(b, k)
    ensures FindClaim(b.claims, k).Some? && k !in ComparedKeys(b.comparisons)
  {
    var i :| 0 <= i < |b.claims| && b.claims[i].key == k && b.claims[i].status == Pending;
    assert FindClaim(b.claims, k) == Some(i);
  }

  lemma {:induction false} CompareKeepsDocuments(cfg: Config, b: Books, k: Key, now: int)
    ensures SameDocuments(b, CompareStep(cfg, b, k, now))
  {
  }

  lemma {:induction false} CompareKeepsKeys(cfg: Config, b: Books, k: Key, now: int)
    requires Inv(cfg, b) && IsPending(b, k)
    ensures OneDocumentPerKey(CompareStep(cfg, b, k, now))
  {
    CompareKeepsDocuments(cfg, b, k, now);
    PendingIsNew(cfg, b, k);
    forall j | 0 <= j < |b.comparisons| ensures b.comparisons[j].key != k {
      assert b.comparisons[j] in b.comparisons;
    }
  }

  lemma {:induction false} CompareKeepsStatuses(cfg: Config, b: Books, k: Key, now: int)
    requires Inv(cfg, b) && IsPending(b, k)
    ensures ConfirmedMeansCompared(CompareStep(cfg, b, k, now))
  {
    PendingIsNew(cfg, b, k);
    match Judge(cfg, b, k, now)
    case Hold =>
    case Broken(_) =>
    case Decided(outcome, c, a) =>
      ComparedKeysSnoc(b.comparisons, Comparison(k, outcome, c, a));
  }

  lemma {:induction false} CompareKeepsJustified(cfg: Config, b: Books, k: Key, now: int)
    requires Inv(cfg, b) && IsPending(b, k)
    ensures AllJustified(cfg, CompareStep(cfg, b, k, now))
  {
    PendingIsNew(cfg, b, k);
    var b' := CompareStep(cfg, b, k, now);
    forall c | c in b'.comparisons ensures Justified(cfg, b', c) {
      if c in b.comparisons {
        assert Justified(cfg, b, c);
      }
    }
  }

  // A ledger stays sound when a comparison is recorded and, if clean, charged.
  lemma {:induction false} RecordingKeepsLedger(l: Ledger, cs: seq<Comparison>, c: Comparison, s: string)
    requires LedgerSound(l, cs, s)
    ensures LedgerSound(if c.outcome == Clean && c.key.session == s then Charged(l, c.key.block) else l, cs + [c], s)
  {
    ComparedKeysSnoc(cs, c);
    if l.pricePerBlock >= 0.0 {
      ChargedKeepsCredit(l, c.key.block);
    }
  }

  ghost predicate Records(b: Books, b': Books, added: Comparison) {
    && b'.comparisons == b.comparisons + [added]
    && b'.ledgers == if added.outcome == Clean then ChargeSession(b.ledgers, added.key) else b.ledgers
  }

  lemma {:induction false} RecordingKeepsSoundness(b: Books, b': Books, added: Comparison)
    requires LedgersSound(b) && Records(b, b', added)
    ensures LedgersSound(b')
  {
    forall s | s in b.ledgers ensures LedgerSound(b'.ledgers[s], b'.comparisons, s) {
      RecordingKeepsLedger(b.ledgers[s], b.comparisons, added, s);
    }
  }

  lemma {:induction false} CleanBlocksSnoc(cs: seq<Comparison>, c: Comparison, s: string)
    ensures CleanBlocks(cs + [c], s) ==
              CleanBlocks(cs, s) + if c.outcome == Clean && c.key.session == s then {c.key.block} else {}
  {
    ComparedKeysSnoc(cs, c);
  }

  lemma {:induction false} OneMoreElement(s: set<int>, x: int)
    ensures |s + {x}| == |s| + if x in s then 0 else 1
    ensures s + {} == s
  {
    if x in s {
      assert s + {x} == s;
    }
  }

  // What recording a comparison does to the number of a session's clean blocks.
  lemma {:induction false} CleanCountSnoc(cs: seq<Comparison>, c: Comparison, s: string)
    ensures |CleanBlocks(cs + [c], s)| == |CleanBlocks(cs, s)|
              + if c.outcome == Clean && c.key.session == s && c.key.block !in CleanBlocks(cs, s) then 1 else 0
  {
    CleanBlocksSnoc(cs, c, s);
    OneMoreElement(CleanBlocks(cs, s), c.key.block);
  }

  lemma {:induction false} RecordingKeepsCounts(b: Books, b': Books, added: Comparison)
    requires Records(b, b', added) && added.key !in ComparedKeys(b.comparisons)
    ensures LedgersKept(b, b')
  {
    CleanBlocksAreCompared(b.comparisons, added.key);
    forall s | s in b.ledgers ensures s in b'.ledgers && Surplus(b', s) == Surplus(b, s) {
      CleanCountSnoc(b.comparisons, added, s);
    }
  }

  lemma {:induction false} CompareKeepsLedgers(cfg: Config, b: Books, k: Key, now: int)
    requires Inv(cfg, b) && IsPending(b, k)
    ensures LedgersSound(CompareStep(cfg, b, k, now)) && LedgersKept(b, CompareStep(cfg, b, k, now))
  {
    PendingIsNew(cfg, b, k);
    match Judge(cfg, b, k, now)
    case Hold =>
    case Broken(_) =>
    case Decided(outcome, c, a) =>
      RecordingKeepsSoundness(b, CompareStep(cfg, b, k, now), Comparison(k, outcome, c, a));
      RecordingKeepsCounts(b, CompareStep(cfg, b, k, now), Comparison(k, outcome, c, a));
  }

  lemma {:induction false} CompareKeepsInv(cfg: Config, b: Books, k: Key, now: int)
    requires Inv(cfg, b) && IsPending(b, k)
    ensures Inv(cfg, CompareStep(cfg, b, k, now))
    ensures Kept(b, CompareStep(cfg, b, k, now))
    ensures SameDocuments(b, CompareStep(cfg, b, k, now))
  {
    CompareKeepsDocuments(cfg, b, k, now);
    CompareKeepsKeys(cfg, b, k, now);
    CompareKeepsStatuses(cfg, b, k, now);
    CompareKeepsJustified(cfg, b, k, now);
    CompareKeepsLedgers(cfg, b, k, now);
  }

  // ----- A round ------------------------------------------------------------------------

  ghost predicate PendingWork(b: Books, ks: seq<Key>) {
    && (forall i, j :: 0 <= i < j < |ks| ==> ks[i] != ks[j])
    && (forall i :: 0 <= i < |ks| ==> IsPending(b, ks[i]))
  }

  lemma {:induction false} OthersStayPending(cfg: Config, b: Books, k: Key, other: Key, now: int)
    requires IsPending(b, other) && other != k
    ensures IsPending(CompareStep(cfg, b, k, now), other)
  {
    var i :| 0 <= i < |b.claims| && b.claims[i].key == other && b.claims[i].status == Pending;
    var b' := CompareStep(cfg, b, k, now);
    assert b'.claims[i] == b.claims[i];
  }

  lemma {:induction false} WorkRemains(cfg: Config, b: Books, ks: seq<Key>, now: int)
    requires PendingWork(b, ks) && ks != []
    ensures PendingWork(CompareStep(cfg, b, ks[0], now), ks[1..])
  {
    forall i | 0 <= i < |ks[1..]| ensures IsPending(CompareStep(cfg, b, ks[0], now), ks[1..][i]) {
      OthersStayPending(cfg, b, ks[0], ks[i + 1], now);
    }
  }

  lemma {:induction false} KeptIsTransitive(b: Books, b1: Books, b2: Books)
    requires Kept(b, b1) && Kept(b1, b2)
    ensures Kept(b, b2)
    ensures SameDocuments(b, b1) && SameDocuments(b1, b2) ==> SameDocuments(b, b2)
  {
  }

  lemma {:induction false} CompareAllKeepsInv(cfg: Config, b: Books, ks: seq<Key>, now: int)
    requires Inv(cfg, b) && PendingWork(b, ks)
    ensures Inv(cfg, CompareAll(cfg, b, ks, now))
    ensures Kept(b, CompareAll(cfg, b, ks, now))
    ensures SameDocuments(b, CompareAll(cfg, b, ks, now))
    decreases |ks|
  {
    if ks != [] {
      var b1 := CompareStep(cfg, b, ks[0], now);
      CompareKeepsInv(cfg, b, ks[0], now);
      WorkRemains(cfg, b, ks, now);
      CompareAllKeepsInv(cfg, b1, ks[1..], now);
      KeptIsTransitive(b, b1, CompareAll(cfg, b1, ks[1..], now));
    }
  }

  // The i-th claim is open after the listed comparisons unless one of them decides it.
  lemma {:induction false} CompareAllSettles(cfg: Config, b: Books, ks: seq<Key>, now: int, i: nat)
    requires Inv(cfg, b) && PendingWork(b, ks) && i < |b.claims|
    ensures i < |CompareAll(cfg, b, ks, now).claims|
    ensures CompareAll(cfg, b, ks, now).claims[i].status == Pending <==>
            b.claims[i].status == Pending && !(b.claims[i].key in ks && Judge(cfg, b, b.claims[i].key, now).Decided?)
    decreases |ks|
  {
    if ks != [] {
      var k := ks[0];
      var b1 := CompareStep(cfg, b, k, now);
      CompareKeepsInv(cfg, b, k, now);
      WorkRemains(cfg, b, ks, now);
      CompareAllSettles(cfg, b1, ks[1..], now, i);
      JudgeIsStable(cfg, b, b1, b.claims[i].key, now);
      assert ks == [k] + ks[1..];
      CompareSettles(cfg, b, k, now, i);
    }
  }

  lemma {:induction false} CompareSettles(cfg: Config, b: Books, k: Key, now: int, i: nat)
    requires Inv(cfg, b) && i < |b.claims|
    ensures var b' := CompareStep(cfg, b, k, now);
            && i < |b'.claims| && b'.claims[i].key == b.claims[i].key
            && (b'.claims[i].status == Pending <==>
                b.claims[i].status == Pending && !(b.claims[i].key == k && Judge(cfg, b, k, now).Decided?))
  {
    assert b.claims[i].key == k ==> FindClaim(b.claims, k) == Some(i);
  }

  lemma {:induction false} RoundWork(b: Books) returns (ks: seq<Key>)
    ensures ks == SortKeys(ClaimKeys(PendingClaims(b.claims)))
    ensures PendingWork(b, ks)
    ensures forall i :: 0 <= i < |b.claims| && b.claims[i].status == Pending ==> b.claims[i].key in ks
  {
    var docs := PendingClaims(b.claims);
    ks := SortKeys(ClaimKeys(docs));
    SortKeysSorts(ClaimKeys(docs));
    forall i, j | 0 <= i < j < |ks| ensures ks[i] != ks[j] {
      KeyLtTotal(ks[i], ks[j]);
    }
    forall i | 0 <= i < |ks| ensures IsPending(b, ks[i]) {
      assert ks[i] in Elems(ks);
      KeyListed(docs, ks[i]);
      var c :| c in docs && c.key == ks[i];
      var j :| 0 <= j < |b.claims| && b.claims[j] == c;
    }
    forall i | 0 <= i < |b.claims| && b.claims[i].status == Pending ensures b.claims[i].key in ks {
      KeyListed(docs, b.claims[i].key);
      assert b.claims[i].key in Elems(ClaimKeys(docs));
    }
  }

  // When a claim is still open after a round: nobody attested and the window is open, or the
  // documents cannot be decoded.
  ghost predicate StaysOpen(cfg: Config, b: Books, claim: Claim, now: int) {
    match FindAttestation(b.attestations, claim.key)
    case None => WithinWindow(cfg, claim.submittedAt, now)
    case Some(a) => cfg.parse(claim.docCids).None? || cfg.parse(b.attestations[a].docCids).None?
  }

  lemma {:induction false} JudgedUnlessOpen(cfg: Config, b: Books, i: nat, now: int)
    requires OneDocumentPerKey(b) && i < |b.claims|
    ensures Judge(cfg, b, b.claims[i].key, now).Decided? <==> !StaysOpen(cfg, b, b.claims[i], now)
  {
    assert FindClaim(b.claims, b.claims[i].key) == Some(i);
  }

  lemma {:induction false} RoundSettlesClaims(cfg: Config, b: Books, now: int)
    requires Inv(cfg, b)
    ensures Inv(cfg, Round(cfg, b, now)) && Kept(b, Round(cfg, b, now)) && SameDocuments(b, Round(cfg, b, now))
    ensures forall i :: 0 <= i < |b.claims| ==>
              (Round(cfg, b, now).claims[i].status == Pending <==>
               b.claims[i].status == Pending && StaysOpen(cfg, b, b.claims[i], now))
  {
    var ks := RoundWork(b);
    CompareAllKeepsInv(cfg, b, ks, now);
    forall i | 0 <= i < |b.claims|
      ensures Round(cfg, b, now).claims[i].status == Pending <==>
              b.claims[i].status == Pending && StaysOpen(cfg, b, b.claims[i], now)
    {
      JudgedUnlessOpen(cfg, b, i, now);
      CompareAllSettles(cfg, b, ks, now, i);
    }
  }

  // ----- Runs ---------------------------------------------------------------------------

  lemma {:induction false} ApplyKeepsInv(cfg: Config, b: Books, e: Event)
    requires Inv(cfg, b)
    ensures Inv(cfg, Apply(cfg, b, e)) && Kept(b, Apply(cfg, b, e))
  {
    match e
    case RoundRun(at) => RoundSettlesClaims(cfg, b, at);
    case LedgerOpened(_, _, _, _, _) => OpeningKeepsInv(cfg, b, e);
    case ClaimSubmitted(_, _) => SubmissionKeepsInv(cfg, b, Apply(cfg, b, e));
    case AttestationSubmitted(_, _) => SubmissionKeepsInv(cfg, b, Apply(cfg, b, e));
  }

  lemma {:induction false} OpeningKeepsInv(cfg: Config, b: Books, e: Event)
    requires Inv(cfg, b) && e.LedgerOpened?
    ensures Inv(cfg, Apply(cfg, b, e)) && Kept(b, Apply(cfg, b, e))
  {
    var b' := Apply(cfg, b, e);
    forall c | c in b.comparisons ensures Justified(cfg, b', c) {
      assert Justified(cfg, b, c);
    }
  }

  lemma {:induction false} SubmissionKeepsInv(cfg: Config, b: Books, b': Books)
    requires Inv(cfg, b)
    requires b'.ledgers == b.ledgers && b'.comparisons == b.comparisons
    requires b.claims <= b'.claims && b.attestations <= b'.attestations
    requires OneDocumentPerKey(b')
    requires forall i :: |b.claims| <= i < |b'.claims| ==> b'.claims[i].status == Pending
    ensures Inv(cfg, b') && Kept(b, b')
  {
    forall c | c in b.comparisons
      ensures Justified(cfg, b', c)
      ensures forall i :: |b.claims| <= i < |b'.claims| ==> b'.claims[i].key != c.key
    {
      assert Justified(cfg, b, c);
      assert b'.claims[c.claim.value].key == c.key;
    }
  }

  lemma {:induction false} RunKeepsInv(cfg: Config, b: Books, es: seq<Event>)
    requires Inv(cfg, b)
    ensures Inv(cfg, Run(cfg, b, es)) && Kept(b, Run(cfg, b, es))
    decreases |es|
  {
    if es != [] {
      ApplyKeepsInv(cfg, b, es[0]);
      RunKeepsInv(cfg, Apply(cfg, b, es[0]), es[1..]);
    }
  }

  lemma {:induction false} EveryReachableStateIsSound(cfg: Config, es: seq<Event>)
    ensures Inv(cfg, Run(cfg, EMPTY, es))
  {
    RunKeepsInv(cfg, EMPTY, es);
  }

  // However the run continues, stored CID lists never change, confirmed documents stay
  // confirmed and recorded results stay recorded.
  lemma {:induction false} RunsOnlyAccumulate(cfg: Config, before: seq<Event>, after: seq<Event>)
    ensures DocumentsKept(Run(cfg, EMPTY, before), Run(cfg, EMPTY, before + after))
  {
    EveryReachableStateIsSound(cfg, before);
    RunSplits(cfg, EMPTY, before, after);
    RunKeepsInv(cfg, Run(cfg, EMPTY, before), after);
  }

  lemma {:induction false} RunSplits(cfg: Config, b: Books, before: seq<Event>, after: seq<Event>)
    ensures Run(cfg, b, before + after) == Run(cfg, Run(cfg, b, before), after)
    decreases |before|
  {
    if before == [] {
      assert before + after == after;
    } else {
      assert (before + after)[1..] == before[1..] + after;
      RunSplits(cfg, Apply(cfg, b, before[0]), before[1..], after);
    }
  }

  // The ledger open at `opening` counts every distinct clean block exactly once, for ever,
  // if and only if the session had no clean block before it was open.
  lemma {:induction false} BlocksVerifiedCountsDistinctCleanBlocks(
      cfg: Config, before: seq<Event>, opening: Event, after: seq<Event>)
    requires opening.LedgerOpened? && opening.session !in Run(cfg, EMPTY, before).ledgers
    ensures var s := opening.session;
            var final := Run(cfg, EMPTY, before + [opening] + after);
            && s in final.ledgers
            && (final.ledgers[s].blocksVerified == |CleanBlocks(final.comparisons, s)| <==>
                CleanBlocks(Run(cfg, EMPTY, before).comparisons, s) == {})
  {
    var b := Run(cfg, EMPTY, before);
    EveryReachableStateIsSound(cfg, before);
    ApplyKeepsInv(cfg, b, opening);
    var open := Apply(cfg, b, opening);
    RunKeepsInv(cfg, open, after);
    RunSplits(cfg, EMPTY, before, [opening]);
    RunSplits(cfg, EMPTY, before + [opening], after);
    assert Run(cfg, b, [opening]) == open;
    assert Surplus(open, opening.session) == -|CleanBlocks(b.comparisons, opening.session)|;
  }

  // Rounds scan claims only, so a host that attests to an unclaimed block never makes the
  // scheduler record a silent indexer.
  lemma {:induction false} RoundsNeverFindASilentIndexer(cfg: Config, es: seq<Event>)
    ensures forall c :: c in Run(cfg, EMPTY, es).comparisons ==> c.outcome != IndexerSilent
  {
    EveryReachableStateIsSound(cfg, es);
    var b := Run(cfg, EMPTY, es);
    forall c | c in b.comparisons ensures c.outcome != IndexerSilent {
      assert Justified(cfg, b, c);
    }
  }

  // The first call of Compare outside a round: the count of clean blocks stays exact if and only if
  // the block has no clean result yet; otherwise the block is counted once more.
  lemma {:induction false} DirectCompareKeepsTheCountIff(cfg: Config, es: seq<Event>, k: Key, now: int)
    requires k.session in Run(cfg, EMPTY, es).ledgers
    ensures var b := Run(cfg, EMPTY, es);
            var b' := CompareStep(cfg, b, k, now);
            var again := k.block in CleanBlocks(b.comparisons, k.session);
            && k.session in b'.ledgers
            && Surplus(b', k.session) == Surplus(b, k.session) + (if again then 1 else 0)
  {
    EveryReachableStateIsSound(cfg, es);
    var b := Run(cfg, EMPTY, es);
    if k.block in CleanBlocks(b.comparisons, k.session) {
      CleanIsJudgedAgain(cfg, b, k, now);
    }
    CompareMovesSurplus(cfg, b, k, now);
  }

  lemma {:induction false} CompareMovesSurplus(cfg: Config, b: Books, k: Key, now: int)
    requires k.session in b.ledgers
    ensures var b' := CompareStep(cfg, b, k, now);
            var v := Judge(cfg, b, k, now);
            var again := v.Decided? && v.outcome == Clean && k.block in CleanBlocks(b.comparisons, k.session);
            && k.session in b'.ledgers
            && Surplus(b', k.session) == Surplus(b, k.session) + (if again then 1 else 0)
  {
    var v := Judge(cfg, b, k, now);
    if v.Decided? {
      CleanCountSnoc(b.comparisons, Comparison(k, v.outcome, v.claim, v.attestation), k.session);
    }
  }

  // Whatever has a clean result is judged clean again at any time.
  lemma {:induction false} CleanIsJudgedAgain(cfg: Config, b: Books, k: Key, now: int)
    requires Inv(cfg, b) && k.block in CleanBlocks(b.comparisons, k.session)
    ensures Judge(cfg, b, k, now).Decided? && Judge(cfg, b, k, now).outcome == Clean
  {
    var c :| c in b.comparisons && c.outcome == Clean && c.key.session == k.session && c.key.block == k.block;
    assert c.key == k;
    assert Justified(cfg, b, c);
    assert FindClaim(b.claims, k) == c.claim;
    assert FindAttestation(b.attestations, k) == c.attestation;
  }

  // The same ledger in money: its credit is the escrow less one price per distinct clean block,
  // never below zero.
  lemma {:induction false} CreditIsEscrowLessCleanBlocks(
      cfg: Config, before: seq<Event>, opening: Event, after: seq<Event>)
    requires opening.LedgerOpened? && opening.session !in Run(cfg, EMPTY, before).ledgers
    requires CleanBlocks(Run(cfg, EMPTY, before).comparisons, opening.session) == {}
    ensures var s := opening.session;
            var final := Run(cfg, EMPTY, before + [opening] + after);
            && s in final.ledgers
            && final.ledgers[s].blocksVerified == |CleanBlocks(final.comparisons, s)|
            && final.ledgers[s].pricePerBlock == opening.price
            && (opening.price >= 0.0 ==>
                  final.ledgers[s].creditRemaining
                  == CreditAfter(opening.escrow, opening.price, |CleanBlocks(final.comparisons, s)|))
  {
    BlocksVerifiedCountsDistinctCleanBlocks(cfg, before, opening, after);
    EveryReachableStateIsSound(cfg, before + [opening] + after);
    EveryReachableStateIsSound(cfg, before + [opening]);
    RunSplits(cfg, EMPTY, before, [opening]);
    RunSplits(cfg, EMPTY, before + [opening], after);
    RunKeepsInv(cfg, Run(cfg, EMPTY, before + [opening]), after);
    var b := Run(cfg, EMPTY, before);
    assert Run(cfg, b, [opening]) == Apply(cfg, b, opening);
    var final := Run(cfg, EMPTY, before + [opening] + after);
    assert LedgerSound(final.ledgers[opening.session], final.comparisons, opening.session);
  }

  // A block is judged once: no later state holds another result for the same session and block,
  // whatever is submitted late.
  lemma {:induction false} ResultsAreFinal(cfg: Config, before: seq<Event>, after: seq<Event>, c: Comparison,
                                           c': Comparison)
    requires c in Run(cfg, EMPTY, before).comparisons
    requires c' in Run(cfg, EMPTY, before + after).comparisons && c'.key == c.key
    ensures c' == c
  {
    RunsOnlyAccumulate(cfg, before, after);
    EveryReachableStateIsSound(cfg, before + after);
    var early, late := Run(cfg, EMPTY, before).comparisons, Run(cfg, EMPTY, before + after).comparisons;
    var i :| 0 <= i < |early| && early[i] == c;
    var j :| 0 <= j < |late| && late[j] == c';
    assert late[i] == c;
  }

  // In every reachable state a claim is refused exactly for a missing identity, else for missing
  // content, else for another CID list on file for its session and block; an attestation, when it
  // is complete, exactly when one is on file. What is accepted is on file, once; what is refused,
  // or repeated, changes nothing.
  lemma {:induction false} ClaimsAnswerTruthfully(cfg: Config, es: seq<Event>, req: ClaimRequest, now: int)
    ensures var b := Run(cfg, EMPTY, es);
            var (b', r) := SubmitClaim(b, req, now);
            var anonymous := req.key.session == "" || req.indexerId == "" || req.key.block <= 0;
            var blank := req.docCids == "" || req.blockHash == "";
            && (r == Failure(MissingIdentity) <==> anonymous)
            && (r == Failure(MissingContent) <==> !anonymous && blank)
            && (r == Failure(ConflictingCids) <==>
                && !anonymous && !blank
                && exists i :: 0 <= i < |b.claims| && b.claims[i].key == req.key && b.claims[i].docCids != req.docCids)
            && (r.Failure? ==> r.error in {MissingIdentity, MissingContent, ConflictingCids})
            && (r.Success? ==> r.value < |b'.claims| && b'.claims[r.value].key == req.key
                               && b'.claims[r.value].docCids == req.docCids)
            && (b' != b <==>
                && !anonymous && !blank
                && forall i :: 0 <= i < |b.claims| ==> b.claims[i].key != req.key)
            && (b' != b ==> b'.claims[..|b'.claims| - 1] == b.claims && b'.(claims := b.claims) == b)
  {
    EveryReachableStateIsSound(cfg, es);
  }

  lemma {:induction false} AttestationsAnswerTruthfully(cfg: Config, es: seq<Event>, req: AttestRequest, now: int)
    ensures var b := Run(cfg, EMPTY, es);
            var (b', r) := SubmitAttest(b, req, now);
            var anonymous := req.key.session == "" || req.hostId == "" || req.key.block <= 0;
            && (r == Failure(MissingIdentity) <==> anonymous)
            && (r == Failure(MissingContent) <==> !anonymous && req.docCids == "")
            && (r == Failure(AlreadyAttested) <==>
                && !anonymous && req.docCids != ""
                && exists i :: 0 <= i < |b.attestations| && b.attestations[i].key == req.key)
            && (r.Failure? ==> r.error in {MissingIdentity, MissingContent, AlreadyAttested} && b' == b)
            && (r.Success? ==> r.value == |b.attestations| && |b'.attestations| == |b.attestations| + 1
                               && b'.attestations[r.value].key == req.key
                               && b'.attestations[r.value].docCids == req.docCids
                               && b'.attestations[..r.value] == b.attestations
                               && b'.(attestations := b.attestations) == b)
  {
    EveryReachableStateIsSound(cfg, es);
  }

  // A host is declared silent for a claim no earlier than one second short of the window after
  // the submission, and by the first round after the full window. The host always has the full
  // window if and only if the claim was submitted on a whole second.
  lemma {:induction false} WindowIsFullIff(cfg: Config, submitted: int)
    ensures forall now :: !WithinWindow(cfg, Stamp(submitted), now) ==>
              now - submitted > (cfg.attestationWindowSeconds - 1) * SECOND
    ensures forall now :: WithinWindow(cfg, Stamp(submitted), now) ==>
              now - submitted < cfg.attestationWindowSeconds * SECOND
    ensures (forall now :: !WithinWindow(cfg, Stamp(submitted), now) ==>
               now - submitted >= cfg.attestationWindowSeconds * SECOND)
            <==> submitted % SECOND == 0
  {
    assert submitted == Stamp(submitted) * SECOND + submitted % SECOND;
    var closing := Stamp(submitted) * SECOND + cfg.attestationWindowSeconds * SECOND;
    assert !WithinWindow(cfg, Stamp(submitted), closing);
  }
}
