// Escrow accounts: opening, draining against the session ledger, low-credit signals,
// grace periods and top-ups. Escrow accounts are unique by session.
module Escrow {
  import opened Common
  import opened Accounting

  datatype EscrowConfig = EscrowConfig(lowCreditMultiplier: real, gracePeriodSeconds: int)

  datatype EscrowStatus = Active | Expired | Settled

  datatype Account = Account(hostId: string, indexerId: string, initialBalance: real, currentBalance: real,
                             pricePerBlock: real, lowWaterThreshold: real, lowCreditSignaled: bool,
                             graceEndsAt: Option<int>, status: EscrowStatus)

  datatype LowCredit = LowCredit(session: string, creditRemaining: real, pricePerBlock: real)

  datatype EscrowError = AmountNotPositive | EscrowNotFound | EscrowExists

  // ----- One account --------------------------------------------------------------

  function LowWater(cfg: EscrowConfig, price: real): real {
    price * cfg.lowCreditMultiplier
  }

  function NewAccount(cfg: EscrowConfig, hostId: string, indexerId: string, balance: real, price: real): Account {
    Account(hostId, indexerId, balance, balance, price, LowWater(cfg, price), false, None, Active)
  }

  // The balance a drain stores: recomputed from the initial balance every time.
  function DrainBalance(a: Account, l: Ledger): real {
    MaxReal(a.initialBalance - Cost(l.blocksVerified, a.pricePerBlock), 0.0)
  }

  predicate Signals(a: Account, l: Ledger) {
    DrainBalance(a, l) < a.lowWaterThreshold && !a.lowCreditSignaled
  }

  // Read before this drain's own signal takes effect.
  predicate GraceOver(a: Account, now: int) {
    a.lowCreditSignaled && a.graceEndsAt.Some? && now > a.graceEndsAt.value * SECOND
  }

  function Drained(cfg: EscrowConfig, a: Account, l: Ledger, now: int): Account {
    var signal := Signals(a, l);
    a.(currentBalance := DrainBalance(a, l),
       lowCreditSignaled := a.lowCreditSignaled || signal,
       graceEndsAt := if signal then Some(Stamp(now + cfg.gracePeriodSeconds * SECOND)) else a.graceEndsAt,
       status := if GraceOver(a, now) || DrainBalance(a, l) <= 0.0 then Expired else a.status)
  }

  function ToppedUp(a: Account, amount: real): Account {
    a.(currentBalance := a.currentBalance + amount, initialBalance := a.initialBalance + amount,
       lowCreditSignaled := false, graceEndsAt := None, status := Active)
  }

  // ----- All accounts -----------------------------------------------------------------

  function OpenAccount(cfg: EscrowConfig, accounts: map<string, Account>, s: string, hostId: string,
                       indexerId: string, balance: real, price: real): map<string, Account>
  {
    if s in accounts then accounts else accounts[s := NewAccount(cfg, hostId, indexerId, balance, price)]
  }

  function TopUpAccount(accounts: map<string, Account>, s: string, amount: real): map<string, Account> {
    if amount > 0.0 && s in accounts then accounts[s := ToppedUp(accounts[s], amount)] else accounts
  }

  function SettleAccount(accounts: map<string, Account>, s: string): map<string, Account> {
    if s in accounts then accounts[s := accounts[s].(status := Settled)] else accounts
  }

  predicate Drains(accounts: map<string, Account>, ledgers: map<string, Ledger>, s: string) {
    s in accounts && accounts[s].status == Active && s in ledgers
  }

  function DrainAccount(cfg: EscrowConfig, accounts: map<string, Account>, ledgers: map<string, Ledger>,
                        s: string, now: int): map<string, Account>
  {
    if Drains(accounts, ledgers, s) then accounts[s := Drained(cfg, accounts[s], ledgers[s], now)] else accounts
  }

  function SignalOf(accounts: map<string, Account>, ledgers: map<string, Ledger>, s: string): seq<LowCredit> {
    if Drains(accounts, ledgers, s) && Signals(accounts[s], ledgers[s])
    then [LowCredit(s, DrainBalance(accounts[s], ledgers[s]), accounts[s].pricePerBlock)]
    else []
  }

  function SignalsOf(accounts: map<string, Account>, ledgers: map<string, Ledger>, listing: seq<string>)
    : seq<LowCredit>
  {
    if listing == [] then []
    else SignalsOf(accounts, ledgers, listing[..|listing| - 1]) + SignalOf(accounts, ledgers, listing[|listing| - 1])
  }

  function DrainEach(cfg: EscrowConfig, accounts: map<string, Account>, ledgers: map<string, Ledger>,
                     listing: seq<string>, now: int): map<string, Account>
  {
    if listing == [] then accounts
    else DrainAccount(cfg, DrainEach(cfg, accounts, ledgers, listing[..|listing| - 1], now), ledgers,
                      listing[|listing| - 1], now)
  }

  // Draining each listed session once is one independent drain per session.
  lemma {:induction false} DrainEachIsPointwise(cfg: EscrowConfig, accounts: map<string, Account>,
                                                ledgers: map<string, Ledger>, listing: seq<string>, now: int)
    requires NoDup(listing)
    ensures DrainEach(cfg, accounts, ledgers, listing, now).Keys == accounts.Keys
    ensures forall s :: s in accounts ==>
              DrainEach(cfg, accounts, ledgers, listing, now)[s] ==
                if s in listing && Drains(accounts, ledgers, s)
                then Drained(cfg, accounts[s], ledgers[s], now) else accounts[s]
  {
    if listing != [] {
      var front, last := listing[..|listing| - 1], listing[|listing| - 1];
      assert listing == front + [last];
      assert last !in front;
      DrainEachIsPointwise(cfg, accounts, ledgers, front, now);
    }
  }

  // A tick over the active sessions, listed in any order, drains every active account that has a
  // ledger exactly once and leaves the others alone.
  lemma {:induction false} TickIgnoresListingOrder(cfg: EscrowConfig, accounts: map<string, Account>,
                                                   ledgers: map<string, Ledger>, active: seq<string>, now: int)
    requires NoDup(active) && Elems(active) == ActiveSessions(accounts)
    ensures DrainEach(cfg, accounts, ledgers, active, now)
         == map s | s in accounts :: if accounts[s].status == Active && s in ledgers
                                     then Drained(cfg, accounts[s], ledgers[s], now) else accounts[s]
  {
    DrainEachIsPointwise(cfg, accounts, ledgers, active, now);
    assert forall s :: s in active <==> s in Elems(active);
  }

  function ActiveSessions(accounts: map<string, Account>): set<string> {
    set s | s in accounts && accounts[s].status == Active
  }

  // ----- The manager ---------------------------------------------------------------------

  class EscrowManager {
    const cfg: EscrowConfig
    var accounts: map<string, Account>
    var signals: seq<LowCredit>  // every low-credit broadcast attempted, in order

    constructor (cfg: EscrowConfig)
      ensures this.cfg == cfg && accounts == map[] && signals == []
    {
      this.cfg := cfg;
      accounts, signals := map[], [];
    }

    method CreateEscrow(session: string, hostId: string, indexerId: string, balance: real, price: real)
      returns (r: Result<(), EscrowError>)
      modifies this`accounts
      ensures r.Failure? <==> session in old(accounts)
      ensures accounts == OpenAccount(cfg, old(accounts), session, hostId, indexerId, balance, price)
    {
      if session in accounts {
        return Failure(EscrowExists);
      }
      var lowWater := LowWater(cfg, price);
      var account := Account(hostId, indexerId, balance, balance, price, lowWater, false, None, Active);
      accounts := accounts[session := account];
      return Success(());
    }

    method DrainSession(session: string, ledgers: map<string, Ledger>, now: int)
      modifies this
      ensures accounts == DrainAccount(cfg, old(accounts), ledgers, session, now)
      ensures signals == old(signals) + SignalOf(old(accounts), ledgers, session)
    {
      if session !in accounts || accounts[session].status != Active {
        return;
      }
      var escrow := accounts[session];
      if session !in ledgers {
        return;
      }
      var expectedDrain := Cost(ledgers[session].blocksVerified, escrow.pricePerBlock);
      var newBalance := escrow.initialBalance - expectedDrain;
      if newBalance < 0.0 {
        newBalance := 0.0;
      }
      var updated := escrow.(currentBalance := newBalance);
      if newBalance < escrow.lowWaterThreshold && !escrow.lowCreditSignaled {
        var gracePeriodEnd := Stamp(now + cfg.gracePeriodSeconds * SECOND);
        updated := updated.(lowCreditSignaled := true, graceEndsAt := Some(gracePeriodEnd));
        signals := signals + [LowCredit(session, newBalance, escrow.pricePerBlock)];
      }
      if escrow.lowCreditSignaled && escrow.graceEndsAt.Some? {
        if now > escrow.graceEndsAt.value * SECOND {
          updated := updated.(status := Expired);
        }
      }
      if newBalance <= 0.0 {
        updated := updated.(status := Expired);
      }
      accounts := accounts[session := updated];
    }

    method TopUp(session: string, amount: real) returns (r: Result<(), EscrowError>)
      modifies this`accounts
      ensures r == if amount <= 0.0 then Failure(AmountNotPositive)
                   else if session !in old(accounts) then Failure(EscrowNotFound) else Success(())
      ensures accounts == TopUpAccount(old(accounts), session, amount)
    {
      if amount <= 0.0 {
        return Failure(AmountNotPositive);
      }
      if session !in accounts {
        return Failure(EscrowNotFound);
      }
      var escrow := accounts[session];
      accounts := accounts[session := escrow.(currentBalance := escrow.currentBalance + amount,
                                              initialBalance := escrow.initialBalance + amount,
                                              lowCreditSignaled := false, graceEndsAt := None, status := Active)];
      return Success(());
    }

    // One tick of the drain loop, over the store's listing of the active accounts.
    method DrainAll(active: seq<string>, ledgers: map<string, Ledger>, now: int)
      requires NoDup(active) && Elems(active) == ActiveSessions(accounts)
      modifies this
      ensures accounts == DrainEach(cfg, old(accounts), ledgers, active, now)
      ensures signals == old(signals) + SignalsOf(old(accounts), ledgers, active)
    {
      ghost var before := accounts;
      ghost var signalled := signals;
      for i := 0 to |active|
        invariant accounts == DrainEach(cfg, before, ledgers, active[..i], now)
        invariant signals == signalled + SignalsOf(before, ledgers, active[..i])
      {
        assert active[..i + 1][..i] == active[..i];
        assert active[i] !in active[..i];
        DrainEachIsPointwise(cfg, before, ledgers, active[..i], now);
        DrainSession(active[i], ledgers, now);
      }
      assert active[..|active|] == active;
    }
  }
}
