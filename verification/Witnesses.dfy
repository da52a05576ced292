// Concrete inputs and runs on which the program does what its boundary theorems allow.
module Witnesses {
  import opened Common
  import CidComparison
  import Ordering
  import Accounting
  import AccountingRuns
  import Escrow
  import EscrowRuns
  import Settlement
  import SettlementRuns
  import Contradictions
  import ContradictionRuns
  import ProbeHistory
  import Pricing
  import Discovery
  import Prober
  import EpochActivation

  // ----- Delivery accounting -----------------------------------------------------------

  // The host attests to a CID that was never claimed and is still clean.
  lemma {:induction false} ForgedDelivery()
    ensures CidComparison.ClassifyLists(["a", "a"], ["a", "b"]) == CidComparison.Clean
    ensures Elems(["a", "b"]) != Elems(["a", "a"])
  {
    assert "b"[0] != "a"[0];
    assert ["a", "b"][1] in Elems(["a", "b"]);
  }

  const CONFIG := Accounting.Config(s => Some([s]), 60)
  const BLOCK := Accounting.Key("s", 1)
  const CLAIM := Accounting.ClaimRequest(BLOCK, "indexer", "cid", "hash", "")
  const ATTEST := Accounting.AttestRequest(BLOCK, "host", "cid", "")

  const FILED := Accounting.Claim(BLOCK, "indexer", "cid", "hash", "", 0, Accounting.Pending)
  const ATTESTED := Accounting.Attestation(BLOCK, "host", "cid", "", 0, Accounting.Pending)

  function Filed(ledgers: map<string, Accounting.Ledger>): Accounting.Books {
    Accounting.Books([FILED], [ATTESTED], ledgers, [])
  }

  function Compared(ledgers: map<string, Accounting.Ledger>): Accounting.Books {
    Accounting.Books([FILED.(status := Accounting.Confirmed)], [ATTESTED.(status := Accounting.Confirmed)],
                     Accounting.ChargeSession(ledgers, BLOCK),
                     [Accounting.Comparison(BLOCK, CidComparison.Clean, Some(0), Some(0))])
  }

  // The round finds one key to compare.
  lemma {:induction false} OneKeyListed()
    ensures Accounting.SortKeys(Accounting.ClaimKeys(Accounting.PendingClaims([FILED]))) == [BLOCK]
  {
    assert [FILED][..0] == [];
    assert Accounting.PendingClaims([FILED]) == Accounting.PendingClaims([]) + [FILED] == [FILED];
    var keys := Accounting.ClaimKeys([FILED]);
    assert keys == [BLOCK] && keys[1..] == [];
  }

  lemma {:induction false} OneBlockCompared(ledgers: map<string, Accounting.Ledger>)
    ensures AccountingRuns.Apply(CONFIG, Filed(ledgers), AccountingRuns.RoundRun(0)) == Compared(ledgers)
  {
    var b := Filed(ledgers);
    OneKeyListed();
    assert Accounting.FindClaim(b.claims, BLOCK) == Some(0);
    assert Accounting.FindAttestation(b.attestations, BLOCK) == Some(0);
    assert CidComparison.ClassifyLists(["cid"], ["cid"]) == CidComparison.Clean;
    assert Accounting.CompareStep(CONFIG, b, BLOCK, 0) == Compared(ledgers);
    assert [BLOCK][0] == BLOCK && [BLOCK][1..] == [];
    assert Accounting.CompareAll(CONFIG, b, [BLOCK], 0) == Accounting.CompareAll(CONFIG, Compared(ledgers), [], 0);
    assert Accounting.Round(CONFIG, b, 0) == Accounting.CompareAll(CONFIG, b, [BLOCK], 0);
  }

  lemma {:induction false} BothFiled(ledgers: map<string, Accounting.Ledger>)
    ensures Accounting.SubmitClaim(Accounting.Books([], [], ledgers, []), CLAIM, 0).0
         == Accounting.Books([FILED], [], ledgers, [])
    ensures Accounting.SubmitAttest(Accounting.Books([FILED], [], ledgers, []), ATTEST, 0).0 == Filed(ledgers)
  {
  }

  // One claim, a matching attestation and a round.
  function CleanRun(): seq<AccountingRuns.Event> {
    [AccountingRuns.ClaimSubmitted(CLAIM, 0), AccountingRuns.AttestationSubmitted(ATTEST, 0),
     AccountingRuns.RoundRun(0)]
  }

  lemma {:induction false} ThreeEvents(b: Accounting.Books, e0: AccountingRuns.Event, e1: AccountingRuns.Event,
                                       e2: AccountingRuns.Event)
    ensures AccountingRuns.Run(CONFIG, b, [e0, e1, e2])
         == AccountingRuns.Apply(CONFIG, AccountingRuns.Apply(CONFIG, AccountingRuns.Apply(CONFIG, b, e0), e1), e2)
  {
    var b1 := AccountingRuns.Apply(CONFIG, b, e0);
    var b2 := AccountingRuns.Apply(CONFIG, b1, e1);
    assert [e0, e1, e2][1..] == [e1, e2] && [e1, e2][1..] == [e2] && [e2][1..] == [];
    assert AccountingRuns.Run(CONFIG, b2, [e2]) == AccountingRuns.Apply(CONFIG, b2, e2);
    assert AccountingRuns.Run(CONFIG, b1, [e1, e2]) == AccountingRuns.Run(CONFIG, b2, [e2]);
  }

  // They make the block clean.
  lemma {:induction false} OneCleanBlock(ledgers: map<string, Accounting.Ledger>)
    ensures AccountingRuns.Run(CONFIG, Accounting.Books([], [], ledgers, []), CleanRun()) == Compared(ledgers)
  {
    ThreeEvents(Accounting.Books([], [], ledgers, []), AccountingRuns.ClaimSubmitted(CLAIM, 0),
                AccountingRuns.AttestationSubmitted(ATTEST, 0), AccountingRuns.RoundRun(0));
    BothFiled(ledgers);
    OneBlockCompared(ledgers);
  }

  // A block compared before the ledger opens is clean and is not counted.
  lemma {:induction false} CleanBlockMissedByLateLedger()
    ensures var es := CleanRun();
            var opening := AccountingRuns.LedgerOpened("s", "host", "indexer", 10.0, 1.0);
            var b := AccountingRuns.Run(CONFIG, AccountingRuns.EMPTY, es + [opening]);
            && AccountingRuns.CleanBlocks(b.comparisons, "s") == {1}
            && "s" in b.ledgers && b.ledgers["s"].blocksVerified == 0
  {
    OneCleanBlock(map[]);
    var es := CleanRun();
    var opening := AccountingRuns.LedgerOpened("s", "host", "indexer", 10.0, 1.0);
    AccountingRuns.RunSplits(CONFIG, AccountingRuns.EMPTY, es, [opening]);
    var b := AccountingRuns.Run(CONFIG, AccountingRuns.EMPTY, es);
    assert AccountingRuns.Run(CONFIG, b, [opening]) == AccountingRuns.Apply(CONFIG, b, opening);
    assert b.comparisons[0] in b.comparisons;
  }

  // Comparing the same block directly counts it a second time.
  lemma {:induction false} DirectCompareCountsTwice()
    ensures var es := [AccountingRuns.LedgerOpened("s", "host", "indexer", 10.0, 1.0)] + CleanRun();
            var b := AccountingRuns.Run(CONFIG, AccountingRuns.EMPTY, es);
            var b' := Accounting.CompareStep(CONFIG, b, BLOCK, 0);
            && "s" in b.ledgers && b.ledgers["s"].blocksVerified == 1
            && "s" in b'.ledgers && b'.ledgers["s"].blocksVerified == 2
            && AccountingRuns.CleanBlocks(b'.comparisons, "s") == {1}
  {
    var opening := AccountingRuns.LedgerOpened("s", "host", "indexer", 10.0, 1.0);
    var rest := CleanRun();
    var es := [opening] + rest;
    assert es[1..] == rest;
    var b0 := AccountingRuns.Apply(CONFIG, AccountingRuns.EMPTY, opening);
    OneCleanBlock(b0.ledgers);
    var b := AccountingRuns.Run(CONFIG, AccountingRuns.EMPTY, es);
    assert b == AccountingRuns.Run(CONFIG, b0, rest);
    assert b.comparisons[0] in b.comparisons;
    assert 1 in AccountingRuns.CleanBlocks(b.comparisons, "s");
    AccountingRuns.EveryReachableStateIsSound(CONFIG, es);
    AccountingRuns.CleanIsJudgedAgain(CONFIG, b, BLOCK, 0);
    var v := Accounting.Judge(CONFIG, b, BLOCK, 0);
    AccountingRuns.ComparedKeysSnoc(b.comparisons, Accounting.Comparison(BLOCK, v.outcome, v.claim, v.attestation));
  }

  // A claim submitted one nanosecond before a full second has its window closed that second short.
  lemma {:induction false} WindowCutShort()
    ensures !Accounting.WithinWindow(CONFIG, Stamp(SECOND - 1), 60 * SECOND)
    ensures 60 * SECOND - (SECOND - 1) < 60 * SECOND
  {
  }

  // ----- Escrow and settlement -----------------------------------------------------------

  const TERMS := Escrow.EscrowConfig(5.0, 60)

  function Account(status: Escrow.EscrowStatus): Escrow.Account {
    Escrow.Account("host", "indexer", 10.0, 10.0, 1.0, 5.0, false, None, status)
  }

  function Ledger(blocks: int, price: real): Accounting.Ledger {
    Accounting.Ledger("host", "indexer", blocks, 10.0, 10.0, price, blocks)
  }

  // A top-up reactivates a settled account.
  lemma {:induction false} SettledAccountReactivated(st: EscrowRuns.State)
    requires "s" in st.book.accounts && st.book.accounts["s"] == Account(Escrow.Settled)
    ensures var st' := EscrowRuns.RunMoney(TERMS, st, [EscrowRuns.TopUpPaid("s", 1.0)]);
            "s" in st'.book.accounts && st'.book.accounts["s"].status == Escrow.Active
  {
    var e := EscrowRuns.TopUpPaid("s", 1.0);
    assert [e][..0] == [];
    assert EscrowRuns.RunMoney(TERMS, st, [e]) == EscrowRuns.Step(TERMS, st, e);
  }

  function NoFaults(): Settlement.Faults {
    Settlement.Faults({}, {}, {}, {})
  }

  // A batch that settles the session once and that the hub accepts.
  function SettleOnce(): Settlement.Batch {
    Settlement.Batch(["s"], "done", NoFaults(), Some("tx"))
  }

  lemma {:induction false} SettledOnce(a: Escrow.Account, l: Accounting.Ledger)
    ensures Settlement.BatchStep(map["s" := a], map["s" := l], SettleOnce())
         == (map["s" := a.(status := Escrow.Settled)], [Settlement.Payout("s", "done", a, l)])
  {
    var accounts, ledgers := map["s" := a], map["s" := l];
    assert ["s"][1..] == [] && ["s"][..0] == [];
    assert Settlement.FirstProblem(accounts, ledgers, NoFaults(), []).None?;
    assert Settlement.FirstProblem(accounts, ledgers, NoFaults(), ["s"]).None?;
    assert Settlement.Messages(accounts, ledgers, ["s"], "done") == [Settlement.Payout("s", "done", a, l)];
    assert Settlement.Marked(accounts, ["s"], {}) == map["s" := a.(status := Escrow.Settled)];
  }

  function Funded(balance: real, status: Escrow.EscrowStatus): Escrow.Account {
    Escrow.Account("host", "indexer", balance, balance, 1.0, 5.0, false, None, status)
  }

  // The opening of a session's escrow and ledger, with a deposit of ten.
  function Opening(): seq<SettlementRuns.TillEvent> {
    [SettlementRuns.MoneyMoved(EscrowRuns.EscrowOpening("s", "host", "indexer", 10.0, 1.0)),
     SettlementRuns.MoneyMoved(EscrowRuns.LedgerOpening("s", "host", "indexer", 10.0, 1.0))]
  }

  lemma {:induction false} SessionOpened()
    ensures var till := SettlementRuns.RunTill(TERMS, Opening());
            && till.state.book.accounts == map["s" := Funded(10.0, Escrow.Active)]
            && till.state.book.ledgers == map["s" := Ledger(0, 1.0)]
            && till.paid == []
  {
    var e0, e1 := Opening()[0], Opening()[1];
    assert Opening()[..1] == [e0] && [e0][..0] == [];
    assert SettlementRuns.RunTill(TERMS, [e0])
        == SettlementRuns.StepTill(TERMS, SettlementRuns.Till(EscrowRuns.START, []), e0);
    assert SettlementRuns.RunTill(TERMS, Opening())
        == SettlementRuns.StepTill(TERMS, SettlementRuns.RunTill(TERMS, [e0]), e1);
  }

  // From a session just opened: it is settled, topped up by five and settled again.
  lemma {:induction false} SettledToppedUpSettled(till: SettlementRuns.Till)
    returns (till1: SettlementRuns.Till, till2: SettlementRuns.Till, till3: SettlementRuns.Till)
    requires till.state.book.accounts == map["s" := Funded(10.0, Escrow.Active)]
    requires till.state.book.ledgers == map["s" := Ledger(0, 1.0)] && till.paid == []
    ensures till1 == SettlementRuns.StepTill(TERMS, till, SettlementRuns.BatchRun(SettleOnce()))
    ensures till2 == SettlementRuns.StepTill(TERMS, till1, SettlementRuns.MoneyMoved(EscrowRuns.TopUpPaid("s", 5.0)))
    ensures till3 == SettlementRuns.StepTill(TERMS, till2, SettlementRuns.BatchRun(SettleOnce()))
    ensures Settlement.Paid(till3.paid) == 25.0
  {
    till1 := SettlementRuns.StepTill(TERMS, till, SettlementRuns.BatchRun(SettleOnce()));
    till2 := SettlementRuns.StepTill(TERMS, till1, SettlementRuns.MoneyMoved(EscrowRuns.TopUpPaid("s", 5.0)));
    till3 := SettlementRuns.StepTill(TERMS, till2, SettlementRuns.BatchRun(SettleOnce()));
    SettledOnce(Funded(10.0, Escrow.Active), Ledger(0, 1.0));
    SettledOnce(Funded(15.0, Escrow.Active), Ledger(0, 1.0));
    assert till2.state.book.accounts == map["s" := Funded(15.0, Escrow.Active)];
    var first := Settlement.Payout("s", "done", Funded(10.0, Escrow.Active), Ledger(0, 1.0));
    var second := Settlement.Payout("s", "done", Funded(15.0, Escrow.Active), Ledger(0, 1.0));
    assert till3.paid == [first, second];
    TwoPayouts(first, second);
  }

  lemma {:induction false} TwoPayouts(first: Settlement.CloseMessage, second: Settlement.CloseMessage)
    ensures Settlement.Paid([first, second])
         == first.indexerAmount + first.hostRefund + second.indexerAmount + second.hostRefund
  {
    assert [first, second][..1] == [first] && [first][..0] == [];
    assert Settlement.Paid([first]) == first.indexerAmount + first.hostRefund;
  }

  lemma {:induction false} TillSnoc(es: seq<SettlementRuns.TillEvent>, e: SettlementRuns.TillEvent)
    ensures SettlementRuns.RunTill(TERMS, es + [e])
         == SettlementRuns.StepTill(TERMS, SettlementRuns.RunTill(TERMS, es), e)
  {
    assert (es + [e])[..|es|] == es;
  }

  // A session of ten is settled, topped up by five and settled again: 25 are paid out of 15.
  lemma {:induction false} SettledAccountPaidAgain()
    ensures var settle := SettlementRuns.BatchRun(SettleOnce());
            var topUp := SettlementRuns.MoneyMoved(EscrowRuns.TopUpPaid("s", 5.0));
            Settlement.Paid(SettlementRuns.RunTill(TERMS, Opening() + [settle] + [topUp] + [settle]).paid) == 25.0
  {
    var settle := SettlementRuns.BatchRun(SettleOnce());
    var topUp := SettlementRuns.MoneyMoved(EscrowRuns.TopUpPaid("s", 5.0));
    SessionOpened();
    var till1, till2, till3 := SettledToppedUpSettled(SettlementRuns.RunTill(TERMS, Opening()));
    TillSnoc(Opening(), settle);
    TillSnoc(Opening() + [settle], topUp);
    TillSnoc(Opening() + [settle] + [topUp], settle);
  }

  // A session listed twice in one batch is paid twice.
  lemma {:induction false} ListedTwicePaidTwice()
    ensures var accounts, ledgers := map["s" := Account(Escrow.Active)], map["s" := Ledger(4, 1.0)];
            && Settlement.Known(accounts, ledgers, ["s", "s"])
            && Settlement.Paid(Settlement.Messages(accounts, ledgers, ["s", "s"], "done")) == 20.0
  {
    var accounts, ledgers := map["s" := Account(Escrow.Active)], map["s" := Ledger(4, 1.0)];
    assert ["s", "s"][..1] == ["s"] && ["s"][..0] == [];
    Settlement.PaidIsTotal(accounts, ledgers, ["s", "s"], "done");
    assert Settlement.TotalOf(Settlement.Gross(accounts, ledgers), ["s"]) == 10.0;
  }

  // The payout is broadcast, its record is not written and the account stays active.
  lemma {:induction false} WritesLost()
    ensures var accounts := map["s" := Account(Escrow.Active)];
            var m := Settlement.Payout("s", "done", Account(Escrow.Active), Ledger(4, 1.0));
            && Settlement.Recorded("batch", "tx", [m], {"s"}) == []
            && Settlement.Marked(accounts, ["s"], {"s"})["s"].status == Escrow.Active
  {
    var m := Settlement.Payout("s", "done", Account(Escrow.Active), Ledger(4, 1.0));
    assert [m][..0] == [];
  }

  // Twelve blocks at a price of one overrun a deposit of ten.
  lemma {:induction false} OverrunPaidBeyondDeposit()
    ensures var m := Settlement.Payout("s", "done", Account(Escrow.Active), Ledger(12, 1.0));
            m.indexerAmount == 12.0 && m.hostRefund == 0.0 && Account(Escrow.Active).initialBalance == 10.0
  {
  }

  // Four blocks at two in the ledger and one in the escrow: the refund is not the drained balance.
  lemma {:induction false} RefundBelowDrainedBalance()
    ensures Settlement.Payout("s", "done", Account(Escrow.Active), Ledger(4, 2.0)).hostRefund == 2.0
    ensures Escrow.DrainBalance(Account(Escrow.Active), Ledger(4, 2.0)) == 6.0
  {
  }

  // A drain warns one nanosecond before a full second; 59 seconds and two nanoseconds later the
  // grace period of 60 seconds is over.
  lemma {:induction false} GraceCutShort()
    ensures var warned := Escrow.Drained(TERMS, Account(Escrow.Active), Ledger(6, 1.0), SECOND - 1);
            && warned.lowCreditSignaled && warned.status == Escrow.Active
            && Escrow.Drained(TERMS, warned, Ledger(6, 1.0), 60 * SECOND + 1).status == Escrow.Expired
  {
  }

  // ----- Contradictions --------------------------------------------------------------------

  const OPEN := Contradictions.Contradiction(Contradictions.EvidenceId("p", 1), "p", false)
  const SLASH := Contradictions.Slash("p", [OPEN.evidenceId], true)

  // A check of the one open record that the hub accepts and whose update is lost.
  function LostCheck(): ContradictionRuns.Event {
    ContradictionRuns.Checked([0], ["p"], x => true, {0})
  }

  lemma {:induction false} LostCheckIsLegal(slashes: seq<Contradictions.Slash>)
    ensures ContradictionRuns.Legal(Contradictions.State([OPEN], slashes), LostCheck())
  {
    assert 0 in [0] && ["p"][0] in ["p"];
    assert forall d: nat :: d in [0] <==> d in Contradictions.OpenDocs([OPEN]);
    assert Contradictions.Lists([OPEN], [0]);
    assert Contradictions.Visits([OPEN], [0], ["p"]);
  }

  lemma {:induction false} LostCheckSlashes(slashes: seq<Contradictions.Slash>)
    ensures Contradictions.SlashAll(1, Contradictions.State([OPEN], slashes), [0], ["p"], LostCheck().accepts, {0})
         == Contradictions.State([OPEN], slashes + [SLASH])
  {
    var st := Contradictions.State([OPEN], slashes);
    assert [0][..0] == [] && ["p"][..0] == [];
    assert Contradictions.Group([OPEN], [], "p") == [];
    assert Contradictions.Group([OPEN], [0], "p") == [0];
    assert Contradictions.Evidence([OPEN], [0]) == [OPEN.evidenceId];
    assert Contradictions.SlashAll(1, st, [0], [], LostCheck().accepts, {0}) == st;
    assert Contradictions.SlashGroup(1, st, "p", [0], true, {0}) == Contradictions.State([OPEN], slashes + [SLASH]);
  }

  lemma {:induction false} LostCheckApplied(slashes: seq<Contradictions.Slash>)
    ensures var st := Contradictions.State([OPEN], slashes);
            && ContradictionRuns.Legal(st, LostCheck())
            && ContradictionRuns.Apply(1, st, LostCheck()) == Contradictions.State([OPEN], slashes + [SLASH])
  {
    LostCheckIsLegal(slashes);
    LostCheckSlashes(slashes);
  }

  lemma {:induction false} SlashedTwice()
    ensures ContradictionRuns.CitedTwice([SLASH, SLASH], OPEN.evidenceId)
  {
    assert [SLASH, SLASH][0] == SLASH && [SLASH, SLASH][1] == SLASH && OPEN.evidenceId in SLASH.evidence;
  }

  // With a threshold of one, a slash whose update is lost is followed by a second one that cites
  // the same evidence.
  lemma {:induction false} EvidenceCitedAgain()
    ensures var st := Contradictions.State([OPEN], []);
            && ContradictionRuns.Legal(st, LostCheck())
            && var st1 := ContradictionRuns.Apply(1, st, LostCheck());
            && ContradictionRuns.Legal(st1, LostCheck())
            && ContradictionRuns.CitedTwice(ContradictionRuns.Apply(1, st1, LostCheck()).slashes, OPEN.evidenceId)
  {
    LostCheckApplied([]);
    LostCheckApplied([SLASH]);
    assert [] + [SLASH] == [SLASH] && [SLASH] + [SLASH] == [SLASH, SLASH];
    SlashedTwice();
  }

  // ----- Discovery -----------------------------------------------------------------------

  // An ask of five passes a budget of zero and clears at half the ask.
  lemma {:induction false} ZeroBudgetClearsBelowAsk()
    ensures var p, b := Some(Pricing.Price(5.0, 5.0)), Some(Pricing.Budget(0.0, 0.0));
            && Pricing.PriceOverlaps(p, b, Pricing.TipSub)
            && Discovery.PriceMatch(p, b, Pricing.TipSub, 1.0) == 2.5
  {
  }

  // The only survivor of the first pass has a tip of -10 and lags behind the reference tip 0.
  lemma {:induction false} NegativeTipsExcludeEverybody()
    ensures var idx := Discovery.Indexer("p", -10, 1.0, None, [], Discovery.Missing);
            var cfg, q := Discovery.DiscoveryConfig(0, 5, 0), Discovery.TipQuery(0.0, 0, None);
            && Discovery.FirstPass(cfg, q, [idx], 0) == [idx]
            && Discovery.TipPool(cfg, q, [idx], None, 0) == []
  {
    var idx := Discovery.Indexer("p", -10, 1.0, None, [], Discovery.Missing);
    assert [idx][..0] == [];
    assert Discovery.ReferenceTip([idx]) == 0;
  }

  // An indexer with the smallest tip passes the lag filter that a tip of -10 does not.
  lemma {:induction false} SmallestTipIsKept()
    ensures var idx := Discovery.Indexer("p", MIN_INT64, 1.0, None, [], Discovery.Missing);
            var cfg := Discovery.DiscoveryConfig(0, 5, 0);
            !Discovery.LagsBehind(cfg, 0, idx) && Discovery.LagsBehind(cfg, 0, idx.(currentTip := -10))
  {
  }

  // ----- Probing -------------------------------------------------------------------------

  lemma {:induction false} ListedPair(a: ProbeHistory.Probe, b: ProbeHistory.Probe)
    requires a.indexerId == b.indexerId
    ensures ProbeHistory.OfIndexer([a, b], a.indexerId) == [a, b]
  {
    assert [a, b][..1] == [a] && [a][..0] == [];
    assert ProbeHistory.OfIndexer([a], a.indexerId) == ProbeHistory.OfIndexer([], a.indexerId) + [a] == [a];
    assert [a] + [b] == [a, b];
  }

  lemma {:induction false} PairWithout(a: ProbeHistory.Probe, b: ProbeHistory.Probe)
    requires a.docId != b.docId
    ensures ProbeHistory.Without([a, b], {a.docId}) == [b]
    ensures ProbeHistory.Without([a, b], {b.docId}) == [a]
  {
    assert [a, b][..1] == [a] && [a][..0] == [];
    assert ProbeHistory.Without([a], {a.docId}) == ProbeHistory.Without([], {a.docId}) + [] == [];
    assert ProbeHistory.Without([a], {b.docId}) == ProbeHistory.Without([], {b.docId}) + [a] == [a];
    assert [] + [b] == [b] && [a] + [] == [a];
  }

  // Of two records listed in this order, the first goes.
  lemma {:induction false} FirstListedGoes(s: seq<ProbeHistory.Probe>, x: string, a: ProbeHistory.Probe,
                                           b: ProbeHistory.Probe)
    requires a.indexerId == b.indexerId == x && a.probedAt == b.probedAt
    requires ProbeHistory.Without(s, {a.docId}) == [b]
    ensures ProbeHistory.Prunes(s, [a, b], x, 1, [b])
  {
    var listed := [a, b];
    TieIsSorted(a, b);
    ListedPair(a, b);
    assert listed[..1] == [a];
    assert ProbeHistory.Ids([a]) == {a.docId};
    ProbeHistory.SortDecides(s, listed, x, 1, [b], listed, listed);
  }

  lemma {:induction false} TieIsSorted(a: ProbeHistory.Probe, b: ProbeHistory.Probe)
    requires a.probedAt == b.probedAt
    ensures ProbeHistory.SortedByTime([a, b])
  {
    Ordering.StrLtTotal(a.probedAt, a.probedAt);
  }

  lemma {:induction false} EitherOrderIsAWalk(a: ProbeHistory.Probe, b: ProbeHistory.Probe)
    ensures ProbeHistory.Walks([a, b], [a, b]) && ProbeHistory.Walks([a, b], [b, a])
  {
    assert [b, a] == [b] + [a] && [a, b] == [a] + [b];
  }

  // Two records of one indexer and one instant, and a limit of one: the listing decides.
  lemma {:induction false} ListingDecidesTie(s: seq<ProbeHistory.Probe>, x: string, a: ProbeHistory.Probe,
                                             b: ProbeHistory.Probe)
    requires s == [a, b] && a.indexerId == b.indexerId == x && a.probedAt == b.probedAt && a.docId != b.docId
    ensures ProbeHistory.Walks(s, [a, b]) && ProbeHistory.Prunes(s, [a, b], x, 1, [b])
    ensures ProbeHistory.Walks(s, [b, a]) && ProbeHistory.Prunes(s, [b, a], x, 1, [a])
  {
    EitherOrderIsAWalk(a, b);
    PairWithout(a, b);
    FirstListedGoes(s, x, a, b);
    FirstListedGoes(s, x, b, a);
  }

  // Two unanswered probes 50 seconds apart, with a limit of one minute: still active.
  lemma {:induction false} UnansweredButActive()
    ensures var cfg := Prober.ProberConfig(200, 60 * SECOND);
            var i := Prober.Indexer(1.0, 100, Some(0), Prober.Active, false);
            var es := [Prober.ProbeRun(None, 50 * SECOND), Prober.ProbeRun(None, 100 * SECOND)];
            Prober.Run(cfg, i, es).status == Prober.Active && Prober.Run(cfg, i, es).currentTip == 0
  {
    var e0, e1 := Prober.ProbeRun(None, 50 * SECOND), Prober.ProbeRun(None, 100 * SECOND);
    assert [e0, e1][..1] == [e0] && [e0][..0] == [];
    var cfg, i := Prober.ProberConfig(200, 60 * SECOND), Prober.Indexer(1.0, 100, Some(0), Prober.Active, false);
    assert Stamp(50 * SECOND) == 50;
    assert Prober.Run(cfg, i, [e0]) == Prober.Probed(cfg, i, None, 50 * SECOND);
    assert Prober.Run(cfg, i, [e0, e1]) == Prober.Probed(cfg, Prober.Run(cfg, i, [e0]), None, 100 * SECOND);
  }

  // ----- Epochs --------------------------------------------------------------------------

  // At the largest height an epoch of one block is over at once.
  lemma {:induction false} EpochWrapsAround(cfg: EpochActivation.HubConfig, data: string)
    requires cfg.epochSize == 1 && cfg.parse(data).Some? && EpochActivation.Complete(cfg.parse(data).value)
    ensures exists es :: !EpochActivation.RespectsEpoch(cfg, es, MAX_INT64)
  {
    var es := EpochActivation.EarlyActivation(cfg, MAX_INT64, data);
    EpochActivation.TooEarly(cfg, es, MAX_INT64);
  }
}
