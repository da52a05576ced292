// Deliveries and money in one run: submissions, comparison rounds, escrow calls, drains and
// settlement marks, interleaved in any way over one set of ledgers.
module SystemRuns {
  import opened CidComparison
  import opened Accounting
  import opened AccountingRuns
  import opened Escrow
  import opened EscrowRuns
  import opened Settlement

  datatype World = World(books: Books, accounts: map<string, Account>, signals: seq<LowCredit>)

  datatype SystemEvent =
    | Delivery(event: Event)
    | EscrowCreated(session: string, hostId: string, indexerId: string, balance: real, price: real)
    | FundsAdded(session: string, amount: real)
    | SessionDrained(session: string, now: int)
    | SessionSettled(session: string)

  const DAWN := World(EMPTY, map[], [])

  function StepWorld(cfg: Config, ecfg: EscrowConfig, w: World, e: SystemEvent): World {
    match e
    case Delivery(event) => w.(books := Apply(cfg, w.books, event))
    case EscrowCreated(s, h, i, balance, price) =>
      w.(accounts := OpenAccount(ecfg, w.accounts, s, h, i, balance, price))
    case FundsAdded(s, amount) => w.(accounts := TopUpAccount(w.accounts, s, amount))
    case SessionDrained(s, now) =>
      w.(accounts := DrainAccount(ecfg, w.accounts, w.books.ledgers, s, now),
         signals := w.signals + SignalOf(w.accounts, w.books.ledgers, s))
    case SessionSettled(s) => w.(accounts := SettleAccount(w.accounts, s))
  }

  function RunWorld(cfg: Config, ecfg: EscrowConfig, es: seq<SystemEvent>): World {
    if es == [] then DAWN else StepWorld(cfg, ecfg, RunWorld(cfg, ecfg, es[..|es| - 1]), es[|es| - 1])
  }

  // ----- The two sides of a run ------------------------------------------------------------

  function Deliveries(es: seq<SystemEvent>): seq<Event> {
    if es == [] then []
    else
      var front, last := Deliveries(es[..|es| - 1]), es[|es| - 1];
      if last.Delivery? then front + [last.event] else front
  }

  // The blocks a round charges to ledgers, in order.
  function CleanWork(cfg: Config, b: Books, ks: seq<Key>, now: int): seq<MoneyEvent>
    decreases |ks|
  {
    if ks == [] then []
    else
      var v := Judge(cfg, b, ks[0], now);
      (if v.Decided? && v.outcome == Clean then [BlockVerified(ks[0].session, ks[0].block)] else [])
      + CleanWork(cfg, CompareStep(cfg, b, ks[0], now), ks[1..], now)
  }

  // What an event means for the money.
  function MoneyOf(cfg: Config, b: Books, e: SystemEvent): seq<MoneyEvent> {
    match e
    case Delivery(LedgerOpened(s, h, i, escrow, price)) => [LedgerOpening(s, h, i, escrow, price)]
    case Delivery(RoundRun(at)) => CleanWork(cfg, b, SortKeys(ClaimKeys(PendingClaims(b.claims))), at)
    case Delivery(_) => []
    case EscrowCreated(s, h, i, balance, price) => [EscrowOpening(s, h, i, balance, price)]
    case FundsAdded(s, amount) => [TopUpPaid(s, amount)]
    case SessionDrained(s, now) => [DrainRun(s, now)]
    case SessionSettled(s) => [SettleMark(s)]
  }

  function MoneyTrace(cfg: Config, ecfg: EscrowConfig, es: seq<SystemEvent>): seq<MoneyEvent> {
    if es == [] then []
    else
      var front := es[..|es| - 1];
      MoneyTrace(cfg, ecfg, front) + MoneyOf(cfg, RunWorld(cfg, ecfg, front).books, es[|es| - 1])
  }

  lemma {:induction false} DeliveriesConcat(es: seq<SystemEvent>, more: seq<SystemEvent>)
    ensures Deliveries(es + more) == Deliveries(es) + Deliveries(more)
    decreases |more|
  {
    if more == [] {
      assert es + more == es;
    } else {
      assert (es + more)[..|es + more| - 1] == es + more[..|more| - 1];
      DeliveriesConcat(es, more[..|more| - 1]);
    }
  }

  // The books of a run are those of its deliveries alone.
  lemma {:induction false} BooksFollowDeliveries(cfg: Config, ecfg: EscrowConfig, es: seq<SystemEvent>)
    ensures RunWorld(cfg, ecfg, es).books == Run(cfg, EMPTY, Deliveries(es))
    decreases |es|
  {
    if es != [] {
      var front, last := es[..|es| - 1], es[|es| - 1];
      BooksFollowDeliveries(cfg, ecfg, front);
      if last.Delivery? {
        RunSplits(cfg, EMPTY, Deliveries(front), [last.event]);
        var b := Run(cfg, EMPTY, Deliveries(front));
        assert Run(cfg, b, [last.event]) == Apply(cfg, b, last.event);
      }
    }
  }

  // A round moves the ledgers exactly as its clean blocks do, one by one.
  lemma {:induction false} RoundIsCleanWork(cfg: Config, ecfg: EscrowConfig, st: State, b: Books, ks: seq<Key>,
                                            now: int)
    requires st.book.ledgers == b.ledgers
    ensures RunMoney(ecfg, st, CleanWork(cfg, b, ks, now))
         == State(st.book.(ledgers := CompareAll(cfg, b, ks, now).ledgers), st.trails)
    decreases |ks|
  {
    if ks != [] {
      var k := ks[0];
      var b' := CompareStep(cfg, b, k, now);
      var rest := CleanWork(cfg, b', ks[1..], now);
      var v := Judge(cfg, b, k, now);
      if v.Decided? && v.outcome == Clean {
        var e := BlockVerified(k.session, k.block);
        OneMoneyStep(ecfg, st, e);
        RunMoneyConcat(ecfg, st, [e], rest);
        assert Key(k.session, k.block) == k;
        RoundIsCleanWork(cfg, ecfg, Step(ecfg, st, e), b', ks[1..], now);
      } else {
        assert [] + rest == rest;
        RoundIsCleanWork(cfg, ecfg, st, b', ks[1..], now);
      }
    }
  }

  lemma {:induction false} EventIsMoney(cfg: Config, ecfg: EscrowConfig, w: World, st: State, e: SystemEvent)
    requires st.book == Book(w.accounts, w.books.ledgers, w.signals)
    ensures var w' := StepWorld(cfg, ecfg, w, e);
            RunMoney(ecfg, st, MoneyOf(cfg, w.books, e)).book == Book(w'.accounts, w'.books.ledgers, w'.signals)
  {
    var ms := MoneyOf(cfg, w.books, e);
    if e.Delivery? && e.event.RoundRun? {
      RoundIsCleanWork(cfg, ecfg, st, w.books, SortKeys(ClaimKeys(PendingClaims(w.books.claims))), e.event.at);
    } else if ms != [] {
      assert ms == [ms[0]];
      OneMoneyStep(ecfg, st, ms[0]);
    }
  }

  // ----- Main results ------------------------------------------------------------------------

  // Every run of the whole system is a money run: accounts, ledgers and broadcasts are what the
  // corresponding money events produce. So every theorem about money runs holds of the ledgers
  // that comparison rounds write.
  lemma {:induction false} SystemIsAMoneyRun(cfg: Config, ecfg: EscrowConfig, es: seq<SystemEvent>)
    ensures var w := RunWorld(cfg, ecfg, es);
            RunMoney(ecfg, START, MoneyTrace(cfg, ecfg, es)).book == Book(w.accounts, w.books.ledgers, w.signals)
    decreases |es|
  {
    if es != [] {
      var front := es[..|es| - 1];
      SystemIsAMoneyRun(cfg, ecfg, front);
      var trace := MoneyTrace(cfg, ecfg, front);
      EventIsMoney(cfg, ecfg, RunWorld(cfg, ecfg, front), RunMoney(ecfg, START, trace), es[|es| - 1]);
      RunMoneyConcat(ecfg, START, trace, MoneyOf(cfg, RunWorld(cfg, ecfg, front).books, es[|es| - 1]));
    }
  }

  // What the host of a session put in during a run.
  function PutIn(cfg: Config, ecfg: EscrowConfig, es: seq<SystemEvent>): map<string, Trail> {
    RunMoney(ecfg, START, MoneyTrace(cfg, ecfg, es)).trails
  }

  // The ledger is opened for the first time, and before any block of the session is clean.
  ghost predicate OpensInTime(cfg: Config, ecfg: EscrowConfig, before: seq<SystemEvent>, opening: Event) {
    var b := RunWorld(cfg, ecfg, before).books;
    opening.LedgerOpened? && opening.session !in b.ledgers && CleanBlocks(b.comparisons, opening.session) == {}
  }

  lemma {:induction false} LedgerCountsCleanBlocks(cfg: Config, ecfg: EscrowConfig, before: seq<SystemEvent>,
                                                   opening: Event, after: seq<SystemEvent>)
    requires OpensInTime(cfg, ecfg, before, opening)
    ensures var b := RunWorld(cfg, ecfg, before + [Delivery(opening)] + after).books;
            && opening.session in b.ledgers
            && b.ledgers[opening.session].blocksVerified == |CleanBlocks(b.comparisons, opening.session)|
            && b.ledgers[opening.session].pricePerBlock == opening.price
  {
    BooksFollowDeliveries(cfg, ecfg, before);
    BooksFollowDeliveries(cfg, ecfg, before + [Delivery(opening)] + after);
    DeliveriesConcat(before, [Delivery(opening)]);
    DeliveriesConcat(before + [Delivery(opening)], after);
    assert [Delivery(opening)][..0] == [];
    assert Deliveries([Delivery(opening)]) == [opening];
    CreditIsEscrowLessCleanBlocks(cfg, Deliveries(before), opening, Deliveries(after));
  }

  lemma {:induction false} AccountsAreFunded(cfg: Config, ecfg: EscrowConfig, es: seq<SystemEvent>, s: string)
    requires s in RunWorld(cfg, ecfg, es).accounts
    ensures s in PutIn(cfg, ecfg, es)
    ensures var t := PutIn(cfg, ecfg, es)[s];
            RunWorld(cfg, ecfg, es).accounts[s].initialBalance == t.deposited + Sum(t.topUps)
  {
    SystemIsAMoneyRun(cfg, ecfg, es);
    RunKeepsTrail(ecfg, MoneyTrace(cfg, ecfg, es), s);
  }

  // What a session's message is built from.
  lemma {:induction false} TermsOfSettlement(cfg: Config, ecfg: EscrowConfig, before: seq<SystemEvent>, opening: Event,
                                             after: seq<SystemEvent>, w: World, trails: map<string, Trail>)
    returns (l: Ledger, balance: real)
    requires OpensInTime(cfg, ecfg, before, opening)
    requires w == RunWorld(cfg, ecfg, before + [Delivery(opening)] + after)
    requires trails == PutIn(cfg, ecfg, before + [Delivery(opening)] + after)
    requires opening.session in w.accounts
    ensures opening.session in trails && opening.session in w.books.ledgers && l == w.books.ledgers[opening.session]
    ensures l.blocksVerified == |CleanBlocks(w.books.comparisons, opening.session)| && l.pricePerBlock == opening.price
    ensures balance == trails[opening.session].deposited + Sum(trails[opening.session].topUps)
    ensures w.accounts[opening.session].initialBalance == balance
  {
    LedgerCountsCleanBlocks(cfg, ecfg, before, opening, after);
    AccountsAreFunded(cfg, ecfg, before + [Delivery(opening)] + after, opening.session);
    l := w.books.ledgers[opening.session];
    balance := w.accounts[opening.session].initialBalance;
  }

  // From delivery to settlement in one run: the message for a session whose ledger was opened in
  // time tells the number of distinct blocks that a round found clean. It pays the indexer one price
  // for each, and the host what is left of everything the host put in.
  lemma {:induction false} SettlementPaysForCleanBlocks(cfg: Config, ecfg: EscrowConfig, before: seq<SystemEvent>,
                                                        opening: Event, after: seq<SystemEvent>, w: World,
                                                        trails: map<string, Trail>, reason: string)
    returns (message: CloseMessage, balance: real)
    requires OpensInTime(cfg, ecfg, before, opening)
    requires w == RunWorld(cfg, ecfg, before + [Delivery(opening)] + after)
    requires trails == PutIn(cfg, ecfg, before + [Delivery(opening)] + after)
    requires opening.session in w.accounts
    ensures opening.session in trails && opening.session in w.books.ledgers
    ensures message == Payout(opening.session, reason, w.accounts[opening.session], w.books.ledgers[opening.session])
    ensures balance == trails[opening.session].deposited + Sum(trails[opening.session].topUps)
    ensures message == MessageFor(opening.session, reason, |CleanBlocks(w.books.comparisons, opening.session)|,
                                  opening.price, balance)
  {
    var l;
    l, balance := TermsOfSettlement(cfg, ecfg, before, opening, after, w, trails);
    message := Payout(opening.session, reason, w.accounts[opening.session], l);
    PayoutIsMessageFor(opening.session, reason, w.accounts[opening.session], l,
                       |CleanBlocks(w.books.comparisons, opening.session)|, opening.price, balance);
  }

  // A batch over several sessions pays out what their hosts put in plus the overruns.
  lemma {:induction false} SystemConservesMoney(cfg: Config, ecfg: EscrowConfig, es: seq<SystemEvent>, w: World,
                                                trails: map<string, Trail>, ids: seq<string>, reason: string)
    requires w == RunWorld(cfg, ecfg, es) && trails == PutIn(cfg, ecfg, es)
    requires Known(w.accounts, w.books.ledgers, ids)
    ensures forall s :: s in ids ==> s in trails
    ensures Paid(Messages(w.accounts, w.books.ledgers, ids, reason))
         == Funded(trails, ids) + Overruns(w.accounts, w.books.ledgers, ids)
  {
    SystemIsAMoneyRun(cfg, ecfg, es);
    SettlementConservesMoney(ecfg, MoneyTrace(cfg, ecfg, es), ids, reason);
  }

  lemma {:induction false} BalanceCoversVerified(cfg: Config, ecfg: EscrowConfig, es: seq<SystemEvent>, s: string,
                                                 a: Account, l: Ledger, t: Trail)
    requires var w := RunWorld(cfg, ecfg, es);
             s in w.accounts && a == w.accounts[s] && s in w.books.ledgers && l == w.books.ledgers[s]
    requires s in PutIn(cfg, ecfg, es) && t == PutIn(cfg, ecfg, es)[s]
    requires EqualTerms(a, t, l)
    ensures t.deposited - l.blocksVerified as real * l.pricePerBlock <= a.currentBalance
  {
    SystemIsAMoneyRun(cfg, ecfg, es);
    BalanceCoversBlocks(ecfg, MoneyTrace(cfg, ecfg, es), s, a, l, t);
  }

  // Until then the stored escrow balance covers what clean blocks have left of the deposit.
  lemma {:induction false} BalanceCoversCleanBlocks(cfg: Config, ecfg: EscrowConfig, before: seq<SystemEvent>,
                                                    opening: Event, after: seq<SystemEvent>, w: World,
                                                    trails: map<string, Trail>, s: string)
    requires OpensInTime(cfg, ecfg, before, opening) && s == opening.session
    requires w == RunWorld(cfg, ecfg, before + [Delivery(opening)] + after)
    requires trails == PutIn(cfg, ecfg, before + [Delivery(opening)] + after)
    requires s in w.accounts && s in w.books.ledgers && s in trails
    requires EqualTerms(w.accounts[s], trails[s], w.books.ledgers[s])
    ensures trails[s].deposited - |CleanBlocks(w.books.comparisons, s)| as real * opening.price
              <= w.accounts[s].currentBalance
  {
    LedgerCountsCleanBlocks(cfg, ecfg, before, opening, after);
    var es, l := before + [Delivery(opening)] + after, w.books.ledgers[s];
    BalanceCoversVerified(cfg, ecfg, es, s, w.accounts[s], l, trails[s]);
    assert l.blocksVerified == |CleanBlocks(w.books.comparisons, s)| && l.pricePerBlock == opening.price;
  }
}
