// Whole runs of the money path of many sessions: escrow and ledger openings, verified blocks,
// top-ups, drains and settlement marks, interleaved in any way.
module EscrowRuns {
  import opened Common
  import opened Accounting
  import opened AccountingRuns
  import opened Escrow

  datatype Book = Book(accounts: map<string, Account>, ledgers: map<string, Ledger>, signals: seq<LowCredit>)

  datatype MoneyEvent =
    | EscrowOpening(session: string, hostId: string, indexerId: string, balance: real, price: real)
    | LedgerOpening(session: string, hostId: string, indexerId: string, escrow: real, price: real)
    | BlockVerified(session: string, block: int)
    | TopUpPaid(session: string, amount: real)
    | DrainRun(session: string, now: int)
    | SettleMark(session: string)

  function ApplyBook(cfg: EscrowConfig, b: Book, e: MoneyEvent): Book {
    match e
    case EscrowOpening(s, h, i, balance, price) => b.(accounts := OpenAccount(cfg, b.accounts, s, h, i, balance, price))
    case LedgerOpening(s, h, i, escrow, price) => b.(ledgers := OpenedLedgers(b.ledgers, s, h, i, escrow, price))
    case BlockVerified(s, block) => b.(ledgers := ChargeSession(b.ledgers, Key(s, block)))
    case TopUpPaid(s, amount) => b.(accounts := TopUpAccount(b.accounts, s, amount))
    case DrainRun(s, now) =>
      b.(accounts := DrainAccount(cfg, b.accounts, b.ledgers, s, now),
         signals := b.signals + SignalOf(b.accounts, b.ledgers, s))
    case SettleMark(s) => b.(accounts := SettleAccount(b.accounts, s))
  }

  // What an outside observer of the calls and broadcasts of one session notes down.
  datatype Trail = Trail(hostId: string, indexerId: string, price: real, deposited: real, topUps: seq<real>,
                         signalledAt: Option<int>)

  function Note(b: Book, b': Book, trails: map<string, Trail>, e: MoneyEvent): map<string, Trail> {
    match e
    case EscrowOpening(s, h, i, balance, price) =>
      if s in b.accounts then trails else trails[s := Trail(h, i, price, balance, [], None)]
    case TopUpPaid(s, amount) =>
      if amount > 0.0 && s in trails
      then trails[s := trails[s].(topUps := trails[s].topUps + [amount], signalledAt := None)] else trails
    case DrainRun(s, now) =>
      if |b'.signals| > |b.signals| && s in trails then trails[s := trails[s].(signalledAt := Some(now))] else trails
    case _ => trails
  }

  datatype State = State(book: Book, trails: map<string, Trail>)

  const START := State(Book(map[], map[], []), map[])

  function Step(cfg: EscrowConfig, st: State, e: MoneyEvent): State {
    var b' := ApplyBook(cfg, st.book, e);
    State(b', Note(st.book, b', st.trails, e))
  }

  function RunMoney(cfg: EscrowConfig, st: State, es: seq<MoneyEvent>): State
    decreases |es|
  {
    if es == [] then st else Step(cfg, RunMoney(cfg, st, es[..|es| - 1]), es[|es| - 1])
  }

  lemma {:induction false} RunMoneyConcat(cfg: EscrowConfig, st: State, es: seq<MoneyEvent>, more: seq<MoneyEvent>)
    ensures RunMoney(cfg, st, es + more) == RunMoney(cfg, RunMoney(cfg, st, es), more)
    decreases |more|
  {
    if more == [] {
      assert es + more == es;
    } else {
      assert (es + more)[..|es + more| - 1] == es + more[..|more| - 1];
      RunMoneyConcat(cfg, st, es, more[..|more| - 1]);
    }
  }

  lemma {:induction false} OneMoneyStep(cfg: EscrowConfig, st: State, e: MoneyEvent)
    ensures RunMoney(cfg, st, [e]) == Step(cfg, st, e)
  {
    assert [e][..0] == [];
  }

  lemma {:induction false} RunMoneySnoc(cfg: EscrowConfig, es: seq<MoneyEvent>, e: MoneyEvent)
    ensures RunMoney(cfg, START, es + [e]) == Step(cfg, RunMoney(cfg, START, es), e)
  {
    assert (es + [e])[..|es|] == es;
  }

  function Sum(xs: seq<real>): real {
    if xs == [] then 0.0 else Sum(xs[..|xs| - 1]) + xs[|xs| - 1]
  }

  // Low-credit broadcasts made for a session.
  function SignalCount(signals: seq<LowCredit>, s: string): nat {
    if signals == [] then 0
    else SignalCount(signals[..|signals| - 1], s) + if signals[|signals| - 1].session == s then 1 else 0
  }

  // ----- The invariant, session by session ---------------------------------------------

  ghost predicate TrailSound(cfg: EscrowConfig, a: Account, t: Trail, signals: seq<LowCredit>, s: string) {
    && a.hostId == t.hostId && a.indexerId == t.indexerId && a.pricePerBlock == t.price
    && a.initialBalance == t.deposited + Sum(t.topUps)
    && Sum(t.topUps) >= 0.0
    && a.lowWaterThreshold == LowWater(cfg, t.price)
    && a.lowCreditSignaled == t.signalledAt.Some?
    && a.graceEndsAt == (match t.signalledAt
                         case None => None
                         case Some(at) => Some(Stamp(at + cfg.gracePeriodSeconds * SECOND)))
    && SignalCount(signals, s) <= |t.topUps| + (if a.lowCreditSignaled then 1 else 0)
  }

  ghost predicate SignalsSound(cfg: EscrowConfig, b: Book) {
    forall i :: 0 <= i < |b.signals| ==>
      var m := b.signals[i];
      && m.session in b.accounts && m.pricePerBlock == b.accounts[m.session].pricePerBlock
      && 0.0 <= m.creditRemaining < LowWater(cfg, m.pricePerBlock)
  }

  ghost predicate LedgerInStep(l: Ledger) {
    && l.blocksVerified >= 0
    && (l.pricePerBlock >= 0.0 ==>
          l.creditRemaining == CreditAfter(l.initialEscrow, l.pricePerBlock, l.blocksVerified))
  }

  // The stored balance never falls below the balance a drain would store now.
  ghost predicate BalanceInStep(b: Book, s: string)
    requires s in b.accounts
  {
    var a := b.accounts[s];
    if s !in b.ledgers then a.currentBalance == a.initialBalance
    else
      a.pricePerBlock >= 0.0 && a.initialBalance >= 0.0 ==>
        DrainBalance(a, b.ledgers[s]) <= a.currentBalance <= a.initialBalance
  }

  ghost predicate TrailsSound(cfg: EscrowConfig, st: State) {
    && st.trails.Keys == st.book.accounts.Keys
    && forall s :: s in st.trails ==> TrailSound(cfg, st.book.accounts[s], st.trails[s], st.book.signals, s)
  }

  ghost predicate LedgersInStep(b: Book) {
    forall s :: s in b.ledgers ==> LedgerInStep(b.ledgers[s])
  }

  ghost predicate BalancesInStep(st: State)
    requires st.trails.Keys == st.book.accounts.Keys
  {
    forall s :: s in st.book.accounts && st.trails[s].deposited >= 0.0 ==> BalanceInStep(st.book, s)
  }

  ghost predicate Inv(cfg: EscrowConfig, st: State) {
    TrailsSound(cfg, st) && SignalsSound(cfg, st.book) && LedgersInStep(st.book) && BalancesInStep(st)
  }

  // ----- Each event keeps it ------------------------------------------------------------

  lemma {:induction false} SumSnoc(xs: seq<real>, x: real)
    ensures Sum(xs + [x]) == Sum(xs) + x
  {
    assert (xs + [x])[..|xs|] == xs;
  }

  lemma {:induction false} SignalCountSnoc(signals: seq<LowCredit>, m: LowCredit, s: string)
    ensures SignalCount(signals + [m], s) == SignalCount(signals, s) + (if m.session == s then 1 else 0)
  {
    assert (signals + [m])[..|signals|] == signals;
  }

  lemma {:induction false} NoSignalsFromStrangers(cfg: EscrowConfig, b: Book, signals: seq<LowCredit>, s: string)
    requires forall i :: 0 <= i < |signals| ==> signals[i].session in b.accounts
    requires s !in b.accounts
    ensures SignalCount(signals, s) == 0
  {
    if signals != [] {
      NoSignalsFromStrangers(cfg, b, signals[..|signals| - 1], s);
    }
  }

  lemma {:induction false} CostGrows(n: int, price: real)
    requires price >= 0.0
    ensures Cost(n + 1, price) == Cost(n, price) + price
    ensures n >= 0 ==> Cost(n, price) >= 0.0
    ensures Cost(0, price) == 0.0
  {
    assert Cost(n + 1, price) == Cost(n, price) + price;
  }

  lemma {:induction false} EscrowOpeningKeepsTrails(cfg: EscrowConfig, st: State, e: MoneyEvent)
    requires Inv(cfg, st) && e.EscrowOpening?
    ensures TrailsSound(cfg, Step(cfg, st, e)) && SignalsSound(cfg, Step(cfg, st, e).book)
  {
    var s := e.session;
    if s !in st.book.accounts {
      NoSignalsFromStrangers(cfg, st.book, st.book.signals, s);
      var account := NewAccount(cfg, e.hostId, e.indexerId, e.balance, e.price);
      assert TrailSound(cfg, account, Trail(e.hostId, e.indexerId, e.price, e.balance, [], None), st.book.signals, s);
    }
  }

  // A balance on which nothing but the deposit stands covers every drain.
  lemma {:induction false} FullBalanceCovers(a: Account, l: Ledger)
    requires a.currentBalance == a.initialBalance >= 0.0 && a.pricePerBlock >= 0.0 && l.blocksVerified >= 0
    ensures DrainBalance(a, l) <= a.currentBalance <= a.initialBalance
  {
    CostGrows(l.blocksVerified, a.pricePerBlock);
  }

  lemma {:induction false} OpeningKeepsBalances(cfg: EscrowConfig, st: State, e: MoneyEvent)
    requires Inv(cfg, st) && (e.EscrowOpening? || e.LedgerOpening?)
    requires TrailsSound(cfg, Step(cfg, st, e))
    ensures BalancesInStep(Step(cfg, st, e))
  {
    var st' := Step(cfg, st, e);
    forall x | x in st'.book.accounts && st'.trails[x].deposited >= 0.0 ensures BalanceInStep(st'.book, x) {
      if x in st.book.accounts {
        assert BalanceInStep(st.book, x);
      }
      var a := st'.book.accounts[x];
      if x in st'.book.ledgers && a.pricePerBlock >= 0.0 && a.currentBalance == a.initialBalance >= 0.0 {
        assert x in st.book.ledgers ==> LedgerInStep(st.book.ledgers[x]);
        FullBalanceCovers(a, st'.book.ledgers[x]);
      }
    }
  }

  lemma {:induction false} OpeningKeepsInv(cfg: EscrowConfig, st: State, e: MoneyEvent)
    requires Inv(cfg, st) && (e.EscrowOpening? || e.LedgerOpening?)
    ensures Inv(cfg, Step(cfg, st, e))
  {
    if e.EscrowOpening? {
      EscrowOpeningKeepsTrails(cfg, st, e);
    }
    OpeningKeepsBalances(cfg, st, e);
  }

  lemma {:induction false} VerifiedKeepsInv(cfg: EscrowConfig, st: State, e: MoneyEvent)
    requires Inv(cfg, st) && e.BlockVerified?
    ensures Inv(cfg, Step(cfg, st, e))
  {
    var st' := Step(cfg, st, e);
    var s := e.session;
    if s in st.book.ledgers {
      var l := st.book.ledgers[s];
      assert LedgerInStep(l);
      if l.pricePerBlock >= 0.0 {
        ChargedKeepsCredit(l, e.block);
      }
    }
    forall x | x in st'.book.accounts && st'.trails[x].deposited >= 0.0 ensures BalanceInStep(st'.book, x) {
      assert BalanceInStep(st.book, x);
      if x in st.book.ledgers && st.book.accounts[x].pricePerBlock >= 0.0 {
        CostGrows(st.book.ledgers[x].blocksVerified, st.book.accounts[x].pricePerBlock);
      }
    }
  }

  lemma {:induction false} TopUpKeepsTrail(cfg: EscrowConfig, a: Account, t: Trail, signals: seq<LowCredit>,
                                           s: string, amount: real)
    requires TrailSound(cfg, a, t, signals, s) && amount > 0.0
    ensures TrailSound(cfg, ToppedUp(a, amount), t.(topUps := t.topUps + [amount], signalledAt := None), signals, s)
  {
    SumSnoc(t.topUps, amount);
  }

  lemma {:induction false} TopUpKeepsInv(cfg: EscrowConfig, st: State, e: MoneyEvent)
    requires Inv(cfg, st) && e.TopUpPaid?
    ensures Inv(cfg, Step(cfg, st, e))
  {
    var s := e.session;
    var st' := Step(cfg, st, e);
    if e.amount > 0.0 && s in st.trails {
      TopUpKeepsTrail(cfg, st.book.accounts[s], st.trails[s], st.book.signals, s, e.amount);
    }
    assert TrailsSound(cfg, st');
    TopUpKeepsBalances(cfg, st, e);
  }

  lemma {:induction false} TopUpKeepsBalances(cfg: EscrowConfig, st: State, e: MoneyEvent)
    requires Inv(cfg, st) && e.TopUpPaid? && TrailsSound(cfg, Step(cfg, st, e))
    ensures BalancesInStep(Step(cfg, st, e))
  {
    var st' := Step(cfg, st, e);
    forall x | x in st'.trails && st'.trails[x].deposited >= 0.0 ensures BalanceInStep(st'.book, x) {
      assert BalanceInStep(st.book, x);
      assert TrailSound(cfg, st.book.accounts[x], st.trails[x], st.book.signals, x);
    }
  }

  lemma {:induction false} SettleKeepsInv(cfg: EscrowConfig, st: State, e: MoneyEvent)
    requires Inv(cfg, st) && e.SettleMark?
    ensures Inv(cfg, Step(cfg, st, e))
  {
    var st' := Step(cfg, st, e);
    forall x | x in st'.trails
      ensures TrailSound(cfg, st'.book.accounts[x], st'.trails[x], st'.book.signals, x)
      ensures st'.trails[x].deposited >= 0.0 ==> BalanceInStep(st'.book, x)
    {
      assert TrailSound(cfg, st.book.accounts[x], st.trails[x], st.book.signals, x);
      assert st.trails[x].deposited >= 0.0 ==> BalanceInStep(st.book, x);
    }
  }

  lemma {:induction false} DrainKeepsTrail(cfg: EscrowConfig, a: Account, l: Ledger, t: Trail,
                                           signals: seq<LowCredit>, s: string, now: int)
    requires TrailSound(cfg, a, t, signals, s)
    ensures var m := LowCredit(s, DrainBalance(a, l), a.pricePerBlock);
            TrailSound(cfg, Drained(cfg, a, l, now),
                       if Signals(a, l) then t.(signalledAt := Some(now)) else t,
                       if Signals(a, l) then signals + [m] else signals, s)
  {
    SignalCountSnoc(signals, LowCredit(s, DrainBalance(a, l), a.pricePerBlock), s);
  }

  lemma {:induction false} DrainKeepsTrails(cfg: EscrowConfig, st: State, e: MoneyEvent)
    requires Inv(cfg, st) && e.DrainRun? && Drains(st.book.accounts, st.book.ledgers, e.session)
    ensures var st' := Step(cfg, st, e);
            && st'.trails.Keys == st'.book.accounts.Keys
            && forall x :: x in st'.trails ==>
                 TrailSound(cfg, st'.book.accounts[x], st'.trails[x], st'.book.signals, x)
  {
    var s := e.session;
    var st' := Step(cfg, st, e);
    assert st'.trails.Keys == st.trails.Keys;
    forall x | x in st.trails ensures TrailSound(cfg, st'.book.accounts[x], st'.trails[x], st'.book.signals, x) {
      if x == s {
        DrainKeepsOwnTrail(cfg, st, e);
      } else {
        DrainKeepsOtherTrail(cfg, st, e, x);
      }
    }
  }

  // What a drain adds to the broadcasts.
  lemma {:induction false} DrainSignals(cfg: EscrowConfig, st: State, e: MoneyEvent)
    requires e.DrainRun? && Drains(st.book.accounts, st.book.ledgers, e.session) && e.session in st.trails
    ensures var a, l := st.book.accounts[e.session], st.book.ledgers[e.session];
            var m := LowCredit(e.session, DrainBalance(a, l), a.pricePerBlock);
            var st' := Step(cfg, st, e);
            && st'.book.signals == (if Signals(a, l) then st.book.signals + [m] else st.book.signals)
            && st'.trails == (if Signals(a, l)
                              then st.trails[e.session := st.trails[e.session].(signalledAt := Some(e.now))]
                              else st.trails)
  {
    assert st.book.signals + [] == st.book.signals;
  }

  lemma {:induction false} DrainKeepsOwnTrail(cfg: EscrowConfig, st: State, e: MoneyEvent)
    requires Inv(cfg, st) && e.DrainRun? && Drains(st.book.accounts, st.book.ledgers, e.session)
    ensures var s, st' := e.session, Step(cfg, st, e);
            && s in st'.trails && s in st'.book.accounts
            && TrailSound(cfg, st'.book.accounts[s], st'.trails[s], st'.book.signals, s)
  {
    var b, s := st.book, e.session;
    DrainSignals(cfg, st, e);
    DrainKeepsTrail(cfg, b.accounts[s], b.ledgers[s], st.trails[s], b.signals, s, e.now);
  }

  lemma {:induction false} DrainKeepsOtherTrail(cfg: EscrowConfig, st: State, e: MoneyEvent, x: string)
    requires Inv(cfg, st) && e.DrainRun? && Drains(st.book.accounts, st.book.ledgers, e.session)
    requires x in st.trails && x != e.session
    ensures var st' := Step(cfg, st, e);
            && x in st'.trails && x in st'.book.accounts
            && TrailSound(cfg, st'.book.accounts[x], st'.trails[x], st'.book.signals, x)
  {
    var b, s := st.book, e.session;
    DrainSignals(cfg, st, e);
    assert TrailSound(cfg, b.accounts[x], st.trails[x], b.signals, x);
    var m := LowCredit(s, DrainBalance(b.accounts[s], b.ledgers[s]), b.accounts[s].pricePerBlock);
    OtherTrailStays(cfg, b.accounts[x], st.trails[x], b.signals, m, x);
  }

  lemma {:induction false} OtherTrailStays(cfg: EscrowConfig, a: Account, t: Trail, signals: seq<LowCredit>,
                                           m: LowCredit, x: string)
    requires TrailSound(cfg, a, t, signals, x) && m.session != x
    ensures TrailSound(cfg, a, t, signals + [m], x)
  {
    SignalCountSnoc(signals, m, x);
  }

  lemma {:induction false} DrainKeepsBalances(cfg: EscrowConfig, st: State, e: MoneyEvent)
    requires Inv(cfg, st) && e.DrainRun? && Drains(st.book.accounts, st.book.ledgers, e.session)
    ensures var b' := ApplyBook(cfg, st.book, e);
            && SignalsSound(cfg, b')
            && forall x :: x in st.trails && st.trails[x].deposited >= 0.0 ==> BalanceInStep(b', x)
  {
    var b, s := st.book, e.session;
    var b' := ApplyBook(cfg, b, e);
    assert TrailSound(cfg, b.accounts[s], st.trails[s], b.signals, s);
    assert LedgerInStep(b.ledgers[s]);
    if b.accounts[s].pricePerBlock >= 0.0 {
      CostGrows(b.ledgers[s].blocksVerified, b.accounts[s].pricePerBlock);
    }
    forall x | x in st.trails && st.trails[x].deposited >= 0.0 ensures BalanceInStep(b', x) {
      assert BalanceInStep(b, x);
    }
  }

  lemma {:induction false} DrainKeepsInv(cfg: EscrowConfig, st: State, e: MoneyEvent)
    requires Inv(cfg, st) && e.DrainRun?
    ensures Inv(cfg, Step(cfg, st, e))
  {
    var b := st.book;
    if Drains(b.accounts, b.ledgers, e.session) {
      DrainKeepsTrails(cfg, st, e);
      DrainKeepsBalances(cfg, st, e);
    } else {
      assert b.signals + [] == b.signals;
      assert Step(cfg, st, e) == st;
    }
  }

  lemma {:induction false} RunKeepsMoneyInv(cfg: EscrowConfig, es: seq<MoneyEvent>)
    ensures Inv(cfg, RunMoney(cfg, START, es))
    decreases |es|
  {
    if es != [] {
      RunKeepsMoneyInv(cfg, es[..|es| - 1]);
      var st, e := RunMoney(cfg, START, es[..|es| - 1]), es[|es| - 1];
      match e
      case EscrowOpening(_, _, _, _, _) => OpeningKeepsInv(cfg, st, e);
      case LedgerOpening(_, _, _, _, _) => OpeningKeepsInv(cfg, st, e);
      case BlockVerified(_, _) => VerifiedKeepsInv(cfg, st, e);
      case TopUpPaid(_, _) => TopUpKeepsInv(cfg, st, e);
      case SettleMark(_) => SettleKeepsInv(cfg, st, e);
      case DrainRun(_, _) => DrainKeepsInv(cfg, st, e);
    }
  }

  // ----- Main results ----------------------------------------------------------------------

  // The ledger subtracts block by block with a clamp; the escrow recomputes from scratch and
  // learns of top-ups. On equal terms the stored escrow balance always covers the balance owed
  // by the from-scratch formula, which in turn covers the ledger's credit.
  lemma {:induction false} LedgerCreditIsCoveredByEscrow(cfg: EscrowConfig, es: seq<MoneyEvent>, s: string)
    requires var st := RunMoney(cfg, START, es);
             && s in st.trails && s in st.book.accounts && s in st.book.ledgers
             && EqualTerms(st.book.accounts[s], st.trails[s], st.book.ledgers[s])
    ensures var st := RunMoney(cfg, START, es);
            var a, l, t := st.book.accounts[s], st.book.ledgers[s], st.trails[s];
            && l.creditRemaining == MaxReal(t.deposited - Cost(l.blocksVerified, l.pricePerBlock), 0.0)
            && a.initialBalance == t.deposited + Sum(t.topUps)
            && l.creditRemaining <= DrainBalance(a, l) <= a.currentBalance <= a.initialBalance
  {
    RunKeepsMoneyInv(cfg, es);
    var st := RunMoney(cfg, START, es);
    var l := st.book.ledgers[s];
    assert LedgerInStep(l);
    assert TrailSound(cfg, st.book.accounts[s], st.trails[s], st.book.signals, s);
    assert BalanceInStep(st.book, s);
    CostGrows(0, l.pricePerBlock);
  }

  // So it covers what the verified blocks have left of the deposit.
  lemma {:induction false} BalanceCoversBlocks(cfg: EscrowConfig, es: seq<MoneyEvent>, s: string, a: Account, l: Ledger,
                                               t: Trail)
    requires var st := RunMoney(cfg, START, es);
             && s in st.book.accounts && a == st.book.accounts[s]
             && s in st.book.ledgers && l == st.book.ledgers[s]
             && s in st.trails && t == st.trails[s]
    requires EqualTerms(a, t, l)
    ensures t.deposited - l.blocksVerified as real * l.pricePerBlock <= a.currentBalance
  {
    LedgerCreditIsCoveredByEscrow(cfg, es, s);
    CreditCoversBlocks(t.deposited, l, a.currentBalance);
  }

  lemma {:induction false} CreditCoversBlocks(deposited: real, l: Ledger, balance: real)
    requires MaxReal(deposited - Cost(l.blocksVerified, l.pricePerBlock), 0.0) == l.creditRemaining <= balance
    ensures deposited - l.blocksVerified as real * l.pricePerBlock <= balance
  {
  }

  ghost predicate EqualTerms(a: Account, t: Trail, l: Ledger) {
    l.initialEscrow == t.deposited >= 0.0 && a.pricePerBlock == l.pricePerBlock >= 0.0
  }

  // Right after a drain the escrow is exact, and it exceeds the ledger's credit by at most the
  // money topped up.
  lemma {:induction false} DrainMakesEscrowExact(cfg: EscrowConfig, es: seq<MoneyEvent>, s: string, now: int)
    requires var st := RunMoney(cfg, START, es);
             && s in st.trails && Drains(st.book.accounts, st.book.ledgers, s)
             && EqualTerms(st.book.accounts[s], st.trails[s], st.book.ledgers[s])
    ensures var st := RunMoney(cfg, START, es + [DrainRun(s, now)]);
            && s in st.trails && s in st.book.accounts && s in st.book.ledgers
            && var a, l, t := st.book.accounts[s], st.book.ledgers[s], st.trails[s];
            && a.currentBalance == MaxReal(a.initialBalance - Cost(l.blocksVerified, l.pricePerBlock), 0.0)
            && 0.0 <= a.currentBalance - l.creditRemaining <= Sum(t.topUps)
  {
    var es' := es + [DrainRun(s, now)];
    assert es'[..|es'| - 1] == es;
    LedgerCreditIsCoveredByEscrow(cfg, es, s);
    RunKeepsMoneyInv(cfg, es');
    var st := RunMoney(cfg, START, es');
    assert TrailSound(cfg, st.book.accounts[s], st.trails[s], st.book.signals, s);
  }

  // One warning per funding: at most one low-credit broadcast before the first top-up and one
  // after each, every one of them at a non-negative balance below the threshold.
  lemma {:induction false} LowCreditSignalsAreBounded(cfg: EscrowConfig, es: seq<MoneyEvent>, s: string)
    requires s in RunMoney(cfg, START, es).trails
    ensures var st := RunMoney(cfg, START, es);
            && SignalCount(st.book.signals, s) <= 1 + |st.trails[s].topUps|
            && forall m :: m in st.book.signals ==>
                 0.0 <= m.creditRemaining < m.pricePerBlock * cfg.lowCreditMultiplier
  {
    var st := RunMoney(cfg, START, es);
    TrailsAreOfAccounts(cfg, es);
    RunKeepsTrail(cfg, es, s);
    SignalsAreLow(cfg, es);
  }

  lemma {:induction false} RunKeepsSignals(cfg: EscrowConfig, es: seq<MoneyEvent>)
    ensures SignalsSound(cfg, RunMoney(cfg, START, es).book)
  {
    RunKeepsMoneyInv(cfg, es);
  }

  lemma {:induction false} LowWaterIsProduct(cfg: EscrowConfig, price: real)
    ensures LowWater(cfg, price) == price * cfg.lowCreditMultiplier
  {
  }

  lemma {:induction false} SignalsAreLow(cfg: EscrowConfig, es: seq<MoneyEvent>)
    ensures forall m :: m in RunMoney(cfg, START, es).book.signals ==>
              0.0 <= m.creditRemaining < m.pricePerBlock * cfg.lowCreditMultiplier
  {
    RunKeepsSignals(cfg, es);
    forall m | m in RunMoney(cfg, START, es).book.signals
      ensures 0.0 <= m.creditRemaining < m.pricePerBlock * cfg.lowCreditMultiplier
    {
      LowWaterIsProduct(cfg, m.pricePerBlock);
    }
  }

  lemma {:induction false} ExpiresIff(cfg: EscrowConfig, a: Account, l: Ledger, t: Trail, signals: seq<LowCredit>,
                                      s: string, now: int)
    requires TrailSound(cfg, a, t, signals, s) && a.status == Active
    ensures Drained(cfg, a, l, now).status in {Active, Expired}
    ensures Drained(cfg, a, l, now).status == Expired <==>
            || DrainBalance(a, l) == 0.0
            || (t.signalledAt.Some? && now > Stamp(t.signalledAt.value + cfg.gracePeriodSeconds * SECOND) * SECOND)
  {
  }

  lemma {:induction false} DrainStores(cfg: EscrowConfig, b: Book, s: string, now: int)
    requires Drains(b.accounts, b.ledgers, s)
    ensures var b' := ApplyBook(cfg, b, DrainRun(s, now));
            s in b'.accounts && b'.accounts[s] == Drained(cfg, b.accounts[s], b.ledgers[s], now)
  {
  }

  // What was put in for a session, less what its verified blocks cost, and never below zero.
  function Left(t: Trail, blocksVerified: int): real {
    var owed := t.deposited + Sum(t.topUps) - blocksVerified as real * t.price;
    if owed < 0.0 then 0.0 else owed
  }

  // What the observer noted describes the account, in every run.
  lemma {:induction false} RunKeepsTrail(cfg: EscrowConfig, es: seq<MoneyEvent>, s: string)
    requires s in RunMoney(cfg, START, es).book.accounts
    ensures var st := RunMoney(cfg, START, es);
            s in st.trails && TrailSound(cfg, st.book.accounts[s], st.trails[s], st.book.signals, s)
  {
    RunKeepsMoneyInv(cfg, es);
  }

  lemma {:induction false} LeftIsTheDrainBalance(cfg: EscrowConfig, a: Account, l: Ledger, t: Trail,
                                                 signals: seq<LowCredit>, s: string)
    requires TrailSound(cfg, a, t, signals, s)
    ensures DrainBalance(a, l) == Left(t, l.blocksVerified)
    ensures Signals(a, l) <==> Left(t, l.blocksVerified) < t.price * cfg.lowCreditMultiplier && t.signalledAt == None
    ensures a.pricePerBlock == t.price
  {
    assert Cost(l.blocksVerified, a.pricePerBlock) == l.blocksVerified as real * t.price;
  }

  // What a drain stores and broadcasts, in terms of the observer's notes.
  ghost predicate DrainTells(cfg: EscrowConfig, st: State, st': State, s: string, now: int)
    requires s in st.trails && s in st.book.ledgers
  {
    var t, left := st.trails[s], Left(st.trails[s], st.book.ledgers[s].blocksVerified);
    && s in st'.trails && s in st'.book.accounts
    && st'.book.accounts[s].currentBalance == left
    && if left < t.price * cfg.lowCreditMultiplier && t.signalledAt == None
       then st'.book.signals == st.book.signals + [LowCredit(s, left, t.price)]
            && st'.trails[s] == t.(signalledAt := Some(now))
       else st'.book.signals == st.book.signals && st'.trails[s] == t
  }

  lemma {:induction false} DrainStepTells(cfg: EscrowConfig, st: State, s: string, now: int)
    requires s in st.trails && Drains(st.book.accounts, st.book.ledgers, s)
    requires TrailSound(cfg, st.book.accounts[s], st.trails[s], st.book.signals, s)
    ensures DrainTells(cfg, st, Step(cfg, st, DrainRun(s, now)), s, now)
  {
    LeftIsTheDrainBalance(cfg, st.book.accounts[s], st.book.ledgers[s], st.trails[s], st.book.signals, s);
    DrainSignals(cfg, st, DrainRun(s, now));
    DrainStores(cfg, st.book, s, now);
  }

  // In every reachable state, a drain looks at active accounts with a ledger. It stores what is left
  // and broadcasts exactly if that is below the price times the multiplier and there was no warning
  // since the last top-up; the broadcast tells what is left and the price.
  lemma {:induction false} DrainBroadcastsIff(cfg: EscrowConfig, es: seq<MoneyEvent>, s: string, now: int)
    requires var b := RunMoney(cfg, START, es).book;
             s in b.accounts && b.accounts[s].status == Active && s in b.ledgers
    ensures var st, st' := RunMoney(cfg, START, es), RunMoney(cfg, START, es + [DrainRun(s, now)]);
            s in st.trails && DrainTells(cfg, st, st', s, now)
  {
    RunMoneySnoc(cfg, es, DrainRun(s, now));
    RunKeepsTrail(cfg, es, s);
    DrainStepTells(cfg, RunMoney(cfg, START, es), s, now);
  }

  // A drain of any other account does nothing.
  lemma {:induction false} OtherDrainsDoNothing(cfg: EscrowConfig, st: State, s: string, now: int)
    requires !(s in st.book.accounts && st.book.accounts[s].status == Active && s in st.book.ledgers)
    ensures Step(cfg, st, DrainRun(s, now)) == st
  {
    assert st.book.signals + [] == st.book.signals;
  }

  // Exactly when a drain expires an account, in terms of what an observer saw: the balance is
  // gone, or a drain broadcast a warning at `at`, nobody topped up since, and the clock is past
  // the stored whole-second end of the grace period.
  lemma {:induction false} DrainExpiresIff(cfg: EscrowConfig, es: seq<MoneyEvent>, s: string, now: int)
    requires var st := RunMoney(cfg, START, es); s in st.trails && Drains(st.book.accounts, st.book.ledgers, s)
    ensures var st := RunMoney(cfg, START, es);
            var b' := ApplyBook(cfg, st.book, DrainRun(s, now));
            && s in b'.accounts && b'.accounts[s].status in {Active, Expired}
            && (b'.accounts[s].status == Expired <==>
                || Left(st.trails[s], st.book.ledgers[s].blocksVerified) == 0.0
                || (st.trails[s].signalledAt.Some?
                    && now > Stamp(st.trails[s].signalledAt.value + cfg.gracePeriodSeconds * SECOND) * SECOND))
  {
    var st := RunMoney(cfg, START, es);
    RunKeepsTrail(cfg, es, s);
    LeftIsTheDrainBalance(cfg, st.book.accounts[s], st.book.ledgers[s], st.trails[s], st.book.signals, s);
    DrainStores(cfg, st.book, s, now);
    ExpiresIff(cfg, st.book.accounts[s], st.book.ledgers[s], st.trails[s], st.book.signals, s, now);
  }

  // Whether a drain at `now` would expire the account.
  ghost predicate ExpiresAt(cfg: EscrowConfig, b: Book, s: string, now: int) {
    var b' := ApplyBook(cfg, b, DrainRun(s, now));
    s in b'.accounts && b'.accounts[s].status == Expired
  }

  // The same in elapsed time, while there is money left: an account is never expired without a
  // warning, the grace period is cut short by less than one second, and it is never extended. It
  // is always full if and only if the warning was broadcast on a whole second.
  lemma {:induction false} GraceIsFullIff(cfg: EscrowConfig, es: seq<MoneyEvent>, s: string)
    requires var st := RunMoney(cfg, START, es); s in st.trails && Drains(st.book.accounts, st.book.ledgers, s)
    requires var st := RunMoney(cfg, START, es); Left(st.trails[s], st.book.ledgers[s].blocksVerified) > 0.0
    ensures var st := RunMoney(cfg, START, es);
            match st.trails[s].signalledAt
            case None => forall now :: !ExpiresAt(cfg, st.book, s, now)
            case Some(at) =>
              && (forall now :: ExpiresAt(cfg, st.book, s, now) ==>
                    now - at > (cfg.gracePeriodSeconds - 1) * 1_000_000_000)
              && (forall now :: now - at > cfg.gracePeriodSeconds * 1_000_000_000 ==>
                    ExpiresAt(cfg, st.book, s, now))
              && ((forall now :: ExpiresAt(cfg, st.book, s, now) ==>
                     now - at > cfg.gracePeriodSeconds * 1_000_000_000)
                  <==> at % 1_000_000_000 == 0)
  {
    var st := RunMoney(cfg, START, es);
    forall now
      ensures ExpiresAt(cfg, st.book, s, now) <==>
              st.trails[s].signalledAt.Some?
              && now > (Stamp(st.trails[s].signalledAt.value) + cfg.gracePeriodSeconds) * SECOND
    {
      DrainExpiresIff(cfg, es, s, now);
    }
    if st.trails[s].signalledAt.Some? {
      var at := st.trails[s].signalledAt.value;
      assert at == Stamp(at) * SECOND + at % SECOND;
      assert ExpiresAt(cfg, st.book, s, (Stamp(at) + cfg.gracePeriodSeconds) * SECOND + 1);
    }
  }

  // ----- What the observer notes --------------------------------------------------------------

  ghost predicate Reactivates(e: MoneyEvent, s: string) {
    e.TopUpPaid? && e.session == s && e.amount > 0.0
  }

  // The positive amounts paid in for a session, in order.
  function PaidIn(es: seq<MoneyEvent>, s: string): seq<real> {
    if es == [] then []
    else
      var earlier, e := PaidIn(es[..|es| - 1], s), es[|es| - 1];
      if e.TopUpPaid? && e.session == s && e.amount > 0.0 then earlier + [e.amount] else earlier
  }

  lemma {:induction false} StepKeepsTerms(cfg: EscrowConfig, st: State, e: MoneyEvent, s: string)
    requires s in st.trails && st.trails.Keys == st.book.accounts.Keys
    ensures var st' := Step(cfg, st, e);
            && s in st'.trails
            && st'.trails[s].(signalledAt := None)
               == st.trails[s].(topUps := st.trails[s].topUps + (if Reactivates(e, s) then [e.amount] else []),
                                signalledAt := None)
  {
    assert st.trails[s].topUps + [] == st.trails[s].topUps;
  }

  // What the observer noted for a session in a run, but for the warning.
  ghost predicate IsNoted(cfg: EscrowConfig, es: seq<MoneyEvent>, s: string, t: Trail) {
    var trails := RunMoney(cfg, START, es).trails;
    s in trails && trails[s].(signalledAt := None) == t
  }

  lemma {:induction false} OpeningIsNoted(cfg: EscrowConfig, before: seq<MoneyEvent>, e: MoneyEvent)
    requires e.EscrowOpening? && e.session !in RunMoney(cfg, START, before).book.accounts
    ensures IsNoted(cfg, before + [e], e.session, Trail(e.hostId, e.indexerId, e.price, e.balance, [], None))
  {
    RunMoneySnoc(cfg, before, e);
  }

  lemma {:induction false} NotedSnoc(cfg: EscrowConfig, es: seq<MoneyEvent>, e: MoneyEvent, s: string, t: Trail)
    requires IsNoted(cfg, es, s, t)
    ensures IsNoted(cfg, es + [e], s, t.(topUps := t.topUps + if Reactivates(e, s) then [e.amount] else []))
  {
    RunMoneySnoc(cfg, es, e);
    TrailsAreOfAccounts(cfg, es);
    StepKeepsTerms(cfg, RunMoney(cfg, START, es), e, s);
    var trail := RunMoney(cfg, START, es).trails[s];
    assert trail.(signalledAt := None).topUps == t.topUps;
  }

  lemma {:induction false} NotedSince(cfg: EscrowConfig, start: seq<MoneyEvent>, after: seq<MoneyEvent>, s: string,
                                      t: Trail)
    requires IsNoted(cfg, start, s, t) && t.topUps == []
    ensures IsNoted(cfg, start + after, s, t.(topUps := PaidIn(after, s)))
    decreases |after|
  {
    if after == [] {
      assert start + after == start;
    } else {
      var front, e := after[..|after| - 1], after[|after| - 1];
      NotedSince(cfg, start, front, s, t);
      assert start + after == start + front + [e];
      NotedSnoc(cfg, start + front, e, s, t.(topUps := PaidIn(front, s)));
    }
  }

  // The observer's notes for a session are the terms of its opening and, as top-ups, the positive
  // amounts paid in since.
  lemma {:induction false} TrailIsTheOpeningAndTopUps(cfg: EscrowConfig, before: seq<MoneyEvent>, opening: MoneyEvent,
                                                      after: seq<MoneyEvent>)
    requires opening.EscrowOpening? && opening.session !in RunMoney(cfg, START, before).book.accounts
    ensures IsNoted(cfg, before + [opening] + after, opening.session,
                    Trail(opening.hostId, opening.indexerId, opening.price, opening.balance,
                          PaidIn(after, opening.session), None))
  {
    OpeningIsNoted(cfg, before, opening);
    NotedSince(cfg, before + [opening], after, opening.session,
               Trail(opening.hostId, opening.indexerId, opening.price, opening.balance, [], None));
  }

  lemma {:induction false} TrailsAreOfAccounts(cfg: EscrowConfig, es: seq<MoneyEvent>)
    ensures RunMoney(cfg, START, es).trails.Keys == RunMoney(cfg, START, es).book.accounts.Keys
  {
    RunKeepsMoneyInv(cfg, es);
  }

  // From its opening on, the account has the parties, the price and the money it was given.
  lemma {:induction false} AccountKeepsItsTerms(cfg: EscrowConfig, before: seq<MoneyEvent>, opening: MoneyEvent,
                                                after: seq<MoneyEvent>)
    requires opening.EscrowOpening? && opening.session !in RunMoney(cfg, START, before).book.accounts
    ensures var s, b := opening.session, RunMoney(cfg, START, before + [opening] + after).book;
            && s in b.accounts
            && b.accounts[s].hostId == opening.hostId && b.accounts[s].indexerId == opening.indexerId
            && b.accounts[s].pricePerBlock == opening.price
            && b.accounts[s].initialBalance == opening.balance + Sum(PaidIn(after, s))
  {
    var s, es := opening.session, before + [opening] + after;
    TrailIsTheOpeningAndTopUps(cfg, before, opening, after);
    TrailsAreOfAccounts(cfg, es);
    RunKeepsTrail(cfg, es, s);
    var t := RunMoney(cfg, START, es).trails[s].(signalledAt := None);
    assert t.hostId == opening.hostId && t.topUps == PaidIn(after, s) && t.price == opening.price;
  }

  // What the events do to the status of an account: a positive top-up makes any account active, a
  // mark settles it, a drain expires active ones only, and nothing else touches it. Only a positive
  // top-up ends a warning.
  lemma {:induction false} StatusMoves(cfg: EscrowConfig, st: State, e: MoneyEvent, s: string)
    requires s in st.book.accounts && s in st.trails
    ensures var st' := Step(cfg, st, e);
            && s in st'.book.accounts && s in st'.trails
            && var before, after := st.book.accounts[s].status, st'.book.accounts[s].status;
            && (Reactivates(e, s) ==> after == Active && st'.trails[s].signalledAt == None)
            && (e == SettleMark(s) ==> after == Settled)
            && (after != before ==>
                  Reactivates(e, s) || e == SettleMark(s)
                  || (e.DrainRun? && e.session == s && before == Active && after == Expired))
            && (st.trails[s].signalledAt.Some? && st'.trails[s].signalledAt == None ==> Reactivates(e, s))
  {
  }

  // What the events do to the stored balance: an opening sets it to the deposit, a positive top-up
  // raises it by its amount, and but for drains nothing else changes it.
  lemma {:induction false} BalanceMoves(cfg: EscrowConfig, st: State, e: MoneyEvent, s: string)
    ensures var before, after := st.book.accounts, Step(cfg, st, e).book.accounts;
            && (s in before ==>
                  s in after
                  && (!(e.DrainRun? && e.session == s) ==>
                        after[s].currentBalance
                        == before[s].currentBalance + if Reactivates(e, s) then e.amount else 0.0))
            && (s !in before && s in after ==>
                  e.EscrowOpening? && e.session == s && after[s].currentBalance == e.balance
                  && after[s].status == Active)
  {
  }

  // ----- Settled accounts --------------------------------------------------------------------

  ghost predicate IsSettled(b: Book, s: string) {
    s in b.accounts && b.accounts[s].status == Settled
  }

  lemma {:induction false} SettledAfterStep(cfg: EscrowConfig, st: State, e: MoneyEvent, s: string)
    requires IsSettled(st.book, s)
    ensures IsSettled(Step(cfg, st, e).book, s) <==> !Reactivates(e, s)
  {
  }

  lemma {:induction false} SettledWithoutTopUps(cfg: EscrowConfig, st: State, es: seq<MoneyEvent>, s: string)
    requires IsSettled(st.book, s)
    requires forall i :: 0 <= i < |es| ==> !Reactivates(es[i], s)
    ensures IsSettled(RunMoney(cfg, st, es).book, s)
    decreases |es|
  {
    if es != [] {
      var front, last := es[..|es| - 1], es[|es| - 1];
      SettledWithoutTopUps(cfg, st, front, s);
      SettledAfterStep(cfg, RunMoney(cfg, st, front), last, s);
    }
  }

  // From any state in which an account is settled, it is settled throughout what follows if and
  // only if nobody tops it up: drains, settlements and openings leave it alone.
  lemma {:induction false} SettledIsFinalIff(cfg: EscrowConfig, st: State, es: seq<MoneyEvent>, s: string)
    requires IsSettled(st.book, s)
    ensures (forall n :: 0 <= n <= |es| ==> IsSettled(RunMoney(cfg, st, es[..n]).book, s))
            <==> forall i :: 0 <= i < |es| ==> !Reactivates(es[i], s)
  {
    if forall n :: 0 <= n <= |es| ==> IsSettled(RunMoney(cfg, st, es[..n]).book, s) {
      forall i | 0 <= i < |es| ensures !Reactivates(es[i], s) {
        assert es[..i + 1][..i] == es[..i];
        assert IsSettled(RunMoney(cfg, st, es[..i]).book, s) && IsSettled(RunMoney(cfg, st, es[..i + 1]).book, s);
        SettledAfterStep(cfg, RunMoney(cfg, st, es[..i]), es[i], s);
      }
    }
    if forall i :: 0 <= i < |es| ==> !Reactivates(es[i], s) {
      forall n | 0 <= n <= |es| ensures IsSettled(RunMoney(cfg, st, es[..n]).book, s) {
        SettledWithoutTopUps(cfg, st, es[..n], s);
      }
    }
  }
}
