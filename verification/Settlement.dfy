// Batch settlement: validate every session, broadcast once, then write the local books.
module Settlement {
  import opened Common
  import opened Accounting
  import opened AccountingRuns
  import opened Escrow
  import opened EscrowRuns

  datatype CloseMessage = CloseMessage(session: string, reason: string, blocksVerified: int,
                                       indexerAmount: real, hostRefund: real)

  datatype BatchMessage = BatchMessage(batchId: string, sessions: seq<CloseMessage>)

  datatype Record = Record(batchId: string, message: CloseMessage, txHash: string)

  datatype BatchError =
    | EscrowLookupFailed(session: string)
    | NoEscrow(session: string)
    | LedgerLookupFailed(session: string)
    | NoLedger(session: string)
    | BroadcastFailed
    | SessionRequired

  // Sessions whose store access fails during the call: the two lookups of the validation pass,
  // the write of the settlement record, and the second lookup or status update afterwards.
  datatype Faults = Faults(escrowLookup: set<string>, ledgerLookup: set<string>, record: set<string>, mark: set<string>)

  function Payout(s: string, reason: string, a: Account, l: Ledger): CloseMessage {
    var indexerAmount := Cost(l.blocksVerified, l.pricePerBlock);
    CloseMessage(s, reason, l.blocksVerified, indexerAmount, MaxReal(a.initialBalance - indexerAmount, 0.0))
  }

  function Problem(accounts: map<string, Account>, ledgers: map<string, Ledger>, f: Faults, s: string)
    : (r: Option<BatchError>)
    ensures r.None? ==> s in accounts && s in ledgers
  {
    if s in f.escrowLookup then Some(EscrowLookupFailed(s))
    else if s !in accounts then Some(NoEscrow(s))
    else if s in f.ledgerLookup then Some(LedgerLookupFailed(s))
    else if s !in ledgers then Some(NoLedger(s))
    else None
  }

  // The problem of the first listed session that has one.
  function FirstProblem(accounts: map<string, Account>, ledgers: map<string, Ledger>, f: Faults, ids: seq<string>)
    : (r: Option<BatchError>)
    ensures r.None? ==> Known(accounts, ledgers, ids)
  {
    if ids == [] then None
    else
      var p := Problem(accounts, ledgers, f, ids[0]);
      if p.Some? then p else FirstProblem(accounts, ledgers, f, ids[1..])
  }

  ghost predicate Known(accounts: map<string, Account>, ledgers: map<string, Ledger>, ids: seq<string>) {
    forall s :: s in ids ==> s in accounts && s in ledgers
  }

  ghost function Messages(accounts: map<string, Account>, ledgers: map<string, Ledger>, ids: seq<string>,
                          reason: string)
    : (ms: seq<CloseMessage>)
    requires Known(accounts, ledgers, ids)
    ensures |ms| == |ids|
    ensures forall i :: 0 <= i < |ids| ==> ms[i] == Payout(ids[i], reason, accounts[ids[i]], ledgers[ids[i]])
  {
    if ids == [] then []
    else
      var last := ids[|ids| - 1];
      Messages(accounts, ledgers, ids[..|ids| - 1], reason) + [Payout(last, reason, accounts[last], ledgers[last])]
  }

  // The settlement records that reach the store.
  function Recorded(batchId: string, txHash: string, ms: seq<CloseMessage>, lost: set<string>): seq<Record> {
    if ms == [] then []
    else
      var front, last := Recorded(batchId, txHash, ms[..|ms| - 1], lost), ms[|ms| - 1];
      if last.session in lost then front else front + [Record(batchId, last, txHash)]
  }

  function Marked(accounts: map<string, Account>, ids: seq<string>, lost: set<string>): map<string, Account> {
    map s | s in accounts :: if s in ids && s !in lost then accounts[s].(status := Settled) else accounts[s]
  }

  class BatchProcessor {
    var accounts: map<string, Account>
    var records: seq<Record>
    var sent: seq<BatchMessage>  // every batch handed to the hub

    constructor (accounts: map<string, Account>)
      ensures this.accounts == accounts && records == [] && sent == []
    {
      this.accounts, records, sent := accounts, [], [];
    }

    // `hub` is the hub's answer, should it be asked: a transaction hash, or None for a failure.
    method ProcessBatch(ids: seq<string>, reason: string, batchId: string, ledgers: map<string, Ledger>,
                        f: Faults, hub: Option<string>)
      returns (r: Result<(), BatchError>)
      modifies this
      ensures ids == [] ==> r == Success(()) && unchanged(this)
      ensures var p := FirstProblem(old(accounts), ledgers, f, ids);
              p.Some? ==> r == Failure(p.value) && unchanged(this)
      ensures ids != [] && FirstProblem(old(accounts), ledgers, f, ids).None? ==>
                && sent == old(sent) + [BatchMessage(batchId, Messages(old(accounts), ledgers, ids, reason))]
                && (hub.None? ==> r == Failure(BroadcastFailed) && unchanged(`accounts) && unchanged(`records))
                && (hub.Some? ==>
                      && r == Success(())
                      && records == old(records)
                           + Recorded(batchId, hub.value, Messages(old(accounts), ledgers, ids, reason), f.record)
                      && accounts == Marked(old(accounts), ids, f.mark))
      ensures accounts == BatchStep(old(accounts), ledgers, Batch(ids, reason, f, hub)).0
    {
      if |ids| == 0 {
        return Success(());
      }
      var checked := Validate(ids, reason, ledgers, f);
      if checked.Failure? {
        return Failure(checked.error);
      }
      var settlements := checked.value;
      sent := sent + [BatchMessage(batchId, settlements)];
      if hub.None? {
        return Failure(BroadcastFailed);
      }
      RecordAll(batchId, hub.value, settlements, f.record);
      MarkSettled(ids, f.mark);
      return Success(());
    }

    // The validation pass: it reads the stores and builds the messages, and writes nothing.
    method Validate(ids: seq<string>, reason: string, ledgers: map<string, Ledger>, f: Faults)
      returns (r: Result<seq<CloseMessage>, BatchError>)
      ensures var p := FirstProblem(accounts, ledgers, f, ids);
              r == if p.Some? then Failure(p.value) else Success(Messages(accounts, ledgers, ids, reason))
    {
      var settlements: seq<CloseMessage> := [];
      for i := 0 to |ids|
        invariant Known(accounts, ledgers, ids[..i])
        invariant settlements == Messages(accounts, ledgers, ids[..i], reason)
        invariant FirstProblem(accounts, ledgers, f, ids) == FirstProblem(accounts, ledgers, f, ids[i..])
      {
        assert ids[i..][0] == ids[i] && ids[i..][1..] == ids[i + 1..];
        assert ids[..i + 1][..i] == ids[..i];
        var sid := ids[i];
        if sid in f.escrowLookup {
          return Failure(EscrowLookupFailed(sid));
        }
        if sid !in accounts {
          return Failure(NoEscrow(sid));
        }
        if sid in f.ledgerLookup {
          return Failure(LedgerLookupFailed(sid));
        }
        if sid !in ledgers {
          return Failure(NoLedger(sid));
        }
        var indexerAmount := Cost(ledgers[sid].blocksVerified, ledgers[sid].pricePerBlock);
        var hostRefund := accounts[sid].initialBalance - indexerAmount;
        if hostRefund < 0.0 {
          hostRefund := 0.0;
        }
        var message := CloseMessage(sid, reason, ledgers[sid].blocksVerified, indexerAmount, hostRefund);
        settlements := settlements + [message];
      }
      assert ids[..|ids|] == ids;
      return Success(settlements);
    }

    method RecordAll(batchId: string, txHash: string, settlements: seq<CloseMessage>, lost: set<string>)
      modifies this`records
      ensures records == old(records) + Recorded(batchId, txHash, settlements, lost)
    {
      for i := 0 to |settlements|
        invariant records == old(records) + Recorded(batchId, txHash, settlements[..i], lost)
      {
        assert settlements[..i + 1][..i] == settlements[..i];
        if settlements[i].session !in lost {
          records := records + [Record(batchId, settlements[i], txHash)];
        }
      }
      assert settlements[..|settlements|] == settlements;
    }

    method MarkSettled(ids: seq<string>, lost: set<string>)
      modifies this`accounts
      ensures accounts == Marked(old(accounts), ids, lost)
    {
      for i := 0 to |ids|
        invariant accounts == Marked(old(accounts), ids[..i], lost)
      {
        assert ids[..i + 1] == ids[..i] + [ids[i]];
        if ids[i] !in lost && ids[i] in accounts {
          accounts := SettleAccount(accounts, ids[i]);
        }
      }
      assert ids[..|ids|] == ids;
    }

    method CloseSession(session: string, reason: string, batchId: string, ledgers: map<string, Ledger>,
                        f: Faults, hub: Option<string>)
      returns (r: Result<(), BatchError>)
      modifies this
      ensures session == "" ==> r == Failure(SessionRequired) && unchanged(this)
      ensures r.Success? <==> session != "" && Problem(old(accounts), ledgers, f, session).None? && hub.Some?
      ensures r.Failure? ==> unchanged(`accounts) && unchanged(`records)
      ensures r.Success? ==>
                var message := Payout(session, reason, old(accounts)[session], ledgers[session]);
                && sent == old(sent) + [BatchMessage(batchId, [message])]
                && records == old(records) + (if session in f.record then [] else [Record(batchId, message, hub.value)])
                && accounts == Marked(old(accounts), [session], f.mark)
    {
      if session == "" {
        return Failure(SessionRequired);
      }
      OneSessionBatch(accounts, ledgers, f, session, reason, batchId, if hub.Some? then hub.value else "");
      r := ProcessBatch([session], reason, batchId, ledgers, f, hub);
    }
  }

  lemma {:induction false} OneSessionBatch(accounts: map<string, Account>, ledgers: map<string, Ledger>, f: Faults,
                                           s: string, reason: string, batchId: string, txHash: string)
    ensures FirstProblem(accounts, ledgers, f, [s]) == Problem(accounts, ledgers, f, s)
    ensures s in accounts && s in ledgers ==>
              var message := Payout(s, reason, accounts[s], ledgers[s]);
              && Messages(accounts, ledgers, [s], reason) == [message]
              && Recorded(batchId, txHash, [message], f.record)
                 == if s in f.record then [] else [Record(batchId, message, txHash)]
  {
    assert [s][1..] == [];
    if s in accounts && s in ledgers {
      var ms := [Payout(s, reason, accounts[s], ledgers[s])];
      assert ms[..0] == [];
    }
  }

  // ----- Money -----------------------------------------------------------------------

  function Paid(ms: seq<CloseMessage>): real {
    if ms == [] then 0.0
    else Paid(ms[..|ms| - 1]) + ms[|ms| - 1].indexerAmount + ms[|ms| - 1].hostRefund
  }

  // How much a session's verified blocks cost beyond everything its host put in.
  function Overrun(a: Account, l: Ledger): real {
    MaxReal(Cost(l.blocksVerified, l.pricePerBlock) - a.initialBalance, 0.0)
  }

  ghost function Overruns(accounts: map<string, Account>, ledgers: map<string, Ledger>, ids: seq<string>): real
    requires Known(accounts, ledgers, ids)
  {
    if ids == [] then 0.0
    else
      var last := ids[|ids| - 1];
      Overruns(accounts, ledgers, ids[..|ids| - 1]) + Overrun(accounts[last], ledgers[last])
  }

  // Everything the hosts of the listed sessions put in: opening deposits and top-ups.
  ghost function Funded(trails: map<string, Trail>, ids: seq<string>): real
    requires forall s :: s in ids ==> s in trails
  {
    if ids == [] then 0.0
    else
      var last := ids[|ids| - 1];
      Funded(trails, ids[..|ids| - 1]) + trails[last].deposited + Sum(trails[last].topUps)
  }

  // After any run, a batch pays out exactly what was put in for the listed sessions, plus the
  // overruns.
  lemma {:induction false} SettlementConservesMoney(cfg: EscrowConfig, es: seq<MoneyEvent>, ids: seq<string>,
                                                    reason: string)
    requires var st := RunMoney(cfg, START, es); Known(st.book.accounts, st.book.ledgers, ids)
    ensures var st := RunMoney(cfg, START, es);
            && (forall s :: s in ids ==> s in st.trails)
            && Paid(Messages(st.book.accounts, st.book.ledgers, ids, reason))
               == Funded(st.trails, ids) + Overruns(st.book.accounts, st.book.ledgers, ids)
    decreases |ids|
  {
    RunKeepsMoneyInv(cfg, es);
    var st := RunMoney(cfg, START, es);
    if ids != [] {
      SettlementConservesMoney(cfg, es, ids[..|ids| - 1], reason);
      var last := ids[|ids| - 1];
      assert last in ids;
      assert TrailSound(cfg, st.book.accounts[last], st.trails[last], st.book.signals, last);
    }
  }

  // So it pays out exactly the money put in if and only if no listed session overran.
  lemma {:induction false} PaysExactlyTheFundsIff(cfg: EscrowConfig, es: seq<MoneyEvent>, ids: seq<string>,
                                                  reason: string)
    requires var st := RunMoney(cfg, START, es); Known(st.book.accounts, st.book.ledgers, ids)
    ensures var st := RunMoney(cfg, START, es);
            && (forall s :: s in ids ==> s in st.trails)
            && (Paid(Messages(st.book.accounts, st.book.ledgers, ids, reason)) == Funded(st.trails, ids) <==>
                forall s :: s in ids ==>
                  Cost(st.book.ledgers[s].blocksVerified, st.book.ledgers[s].pricePerBlock)
                    <= st.book.accounts[s].initialBalance)
  {
    SettlementConservesMoney(cfg, es, ids, reason);
    var st := RunMoney(cfg, START, es);
    NoOverrunsIff(st.book.accounts, st.book.ledgers, ids);
  }

  lemma {:induction false} NoOverrunsIff(accounts: map<string, Account>, ledgers: map<string, Ledger>, ids: seq<string>)
    requires Known(accounts, ledgers, ids)
    ensures Overruns(accounts, ledgers, ids) >= 0.0
    ensures Overruns(accounts, ledgers, ids) == 0.0 <==>
            forall s :: s in ids ==>
              Cost(ledgers[s].blocksVerified, ledgers[s].pricePerBlock) <= accounts[s].initialBalance
    decreases |ids|
  {
    if ids != [] {
      var front, last := ids[..|ids| - 1], ids[|ids| - 1];
      assert ids == front + [last];
      NoOverrunsIff(accounts, ledgers, front);
    }
  }

  // The message that pays an indexer for so many blocks at a price, and returns the rest of the
  // balance, if there is any, to the host.
  function MessageFor(s: string, reason: string, blocks: int, price: real, balance: real): CloseMessage {
    var amount := blocks as real * price;
    CloseMessage(s, reason, blocks, amount, if amount < balance then balance - amount else 0.0)
  }

  lemma {:induction false} PayoutIsMessageFor(s: string, reason: string, a: Account, l: Ledger, blocks: int,
                                              price: real, balance: real)
    requires l.blocksVerified == blocks && l.pricePerBlock == price && a.initialBalance == balance
    ensures Payout(s, reason, a, l) == MessageFor(s, reason, blocks, price, balance)
  {
  }

  // From delivery to payment: for a session whose ledger was opened before any clean block, the
  // settlement message carries the caller's reason and the number of distinct blocks with a clean
  // comparison result; it pays the indexer one price for each and the host the rest.
  lemma {:induction false} IndexerIsPaidPerCleanBlock(cfg: Config, before: seq<Event>, opening: Event,
                                                      after: seq<Event>, a: Account, reason: string)
    requires opening.LedgerOpened? && opening.session !in Run(cfg, EMPTY, before).ledgers
    requires CleanBlocks(Run(cfg, EMPTY, before).comparisons, opening.session) == {}
    ensures var s := opening.session;
            var final := Run(cfg, EMPTY, before + [opening] + after);
            && s in final.ledgers
            && Payout(s, reason, a, final.ledgers[s])
               == MessageFor(s, reason, |CleanBlocks(final.comparisons, s)|, opening.price, a.initialBalance)
  {
    CreditIsEscrowLessCleanBlocks(cfg, before, opening, after);
    var s, final := opening.session, Run(cfg, EMPTY, before + [opening] + after);
    PayoutIsMessageFor(s, reason, a, final.ledgers[s], |CleanBlocks(final.comparisons, s)|, opening.price,
                       a.initialBalance);
  }

  // The refund in the message is the balance a drain at that moment would store, if and only if
  // escrow and ledger charge the same for the verified blocks or both charges use up the deposit.
  lemma {:induction false} RefundIsTheDrainBalanceIff(s: string, reason: string, a: Account, l: Ledger)
    ensures Payout(s, reason, a, l).hostRefund == DrainBalance(a, l) <==>
            (var byEscrow, byLedger := Cost(l.blocksVerified, a.pricePerBlock), Cost(l.blocksVerified, l.pricePerBlock);
             byEscrow == byLedger || (byEscrow >= a.initialBalance && byLedger >= a.initialBalance))
  {
  }

  // What one mention of each session in a batch pays out.
  function Gross(accounts: map<string, Account>, ledgers: map<string, Ledger>): map<string, real> {
    map s | s in accounts && s in ledgers ::
      MaxReal(accounts[s].initialBalance, Cost(ledgers[s].blocksVerified, ledgers[s].pricePerBlock))
  }

  function TotalOf(gross: map<string, real>, ids: seq<string>): real {
    if ids == [] then 0.0
    else
      var last := ids[|ids| - 1];
      TotalOf(gross, ids[..|ids| - 1]) + if last in gross then gross[last] else 0.0
  }

  lemma {:induction false} PaidIsTotal(accounts: map<string, Account>, ledgers: map<string, Ledger>, ids: seq<string>,
                                       reason: string)
    requires Known(accounts, ledgers, ids)
    ensures Paid(Messages(accounts, ledgers, ids, reason)) == TotalOf(Gross(accounts, ledgers), ids)
    decreases |ids|
  {
    if ids != [] {
      PaidIsTotal(accounts, ledgers, ids[..|ids| - 1], reason);
      var ms := Messages(accounts, ledgers, ids, reason);
      assert ms[..|ids| - 1] == Messages(accounts, ledgers, ids[..|ids| - 1], reason);
    }
  }

  // No session that has something to pay out is listed twice.
  ghost predicate RepeatsPayNothing(gross: map<string, real>, ids: seq<string>) {
    forall i, j :: 0 <= i < j < |ids| && ids[i] == ids[j] && ids[i] in gross ==> gross[ids[i]] == 0.0
  }

  ghost predicate NothingNegative(gross: map<string, real>, ids: seq<string>) {
    forall i :: 0 <= i < |ids| ==> ids[i] in gross && gross[ids[i]] >= 0.0
  }

  lemma {:induction false} TotalOnceIff(gross: map<string, real>, ids: seq<string>)
    requires NothingNegative(gross, ids)
    ensures TotalOf(gross, ids) >= TotalOf(gross, Distinct(ids))
    ensures TotalOf(gross, ids) == TotalOf(gross, Distinct(ids)) <==> RepeatsPayNothing(gross, ids)
    decreases |ids|
  {
    if ids != [] {
      var front, last := ids[..|ids| - 1], ids[|ids| - 1];
      assert ids == front + [last];
      TotalOnceIff(gross, front);
      RepeatsSnoc(gross, front, last);
      DistinctSnoc(front, last);
      assert (Distinct(front) + [last])[..|Distinct(front)|] == Distinct(front);
    }
  }

  lemma {:induction false} RepeatsSnoc(gross: map<string, real>, front: seq<string>, last: string)
    requires last in gross
    ensures RepeatsPayNothing(gross, front + [last]) <==>
            RepeatsPayNothing(gross, front) && (last in front ==> gross[last] == 0.0)
  {
    var ids := front + [last];
    if RepeatsPayNothing(gross, ids) {
      forall i, j | 0 <= i < j < |front| && front[i] == front[j] && front[i] in gross ensures gross[front[i]] == 0.0 {
        assert ids[i] == ids[j];
      }
      if i :| 0 <= i < |front| && front[i] == last {
        assert ids[i] == ids[|front|];
      }
    }
  }

  // The caller must not list a session twice: a batch pays each account once if and only if no
  // session with something to pay out is repeated in the list, and otherwise it pays more.
  lemma {:induction false} PaysEachAccountOnceIff(accounts: map<string, Account>, ledgers: map<string, Ledger>,
                                                  ids: seq<string>, reason: string)
    requires Known(accounts, ledgers, ids)
    requires NothingNegative(Gross(accounts, ledgers), ids)
    ensures Known(accounts, ledgers, Distinct(ids))
    ensures Paid(Messages(accounts, ledgers, ids, reason)) >= Paid(Messages(accounts, ledgers, Distinct(ids), reason))
    ensures Paid(Messages(accounts, ledgers, ids, reason)) == Paid(Messages(accounts, ledgers, Distinct(ids), reason))
            <==> RepeatsPayNothing(Gross(accounts, ledgers), ids)
  {
    DistinctSnoc(ids, "");
    PaidIsTotal(accounts, ledgers, ids, reason);
    PaidIsTotal(accounts, ledgers, Distinct(ids), reason);
    TotalOnceIff(Gross(accounts, ledgers), ids);
  }

  // One call and the hub's answer to it.
  datatype Batch = Batch(ids: seq<string>, reason: string, faults: Faults, hub: Option<string>)

  predicate Accepted(accounts: map<string, Account>, ledgers: map<string, Ledger>, b: Batch) {
    b.hub.Some? && FirstProblem(accounts, ledgers, b.faults, b.ids).None?
  }

  // The accounts after a call, and the payouts the hub accepted.
  ghost function BatchStep(accounts: map<string, Account>, ledgers: map<string, Ledger>, b: Batch)
    : (map<string, Account>, seq<CloseMessage>)
  {
    if Accepted(accounts, ledgers, b)
    then (Marked(accounts, b.ids, b.faults.mark), Messages(accounts, ledgers, b.ids, b.reason)) else (accounts, [])
  }

  lemma {:induction false} PaidConcat(ms: seq<CloseMessage>, more: seq<CloseMessage>)
    ensures Paid(ms + more) == Paid(ms) + Paid(more)
    decreases |more|
  {
    if more == [] {
      assert ms + more == ms;
    } else {
      assert (ms + more)[..|ms + more| - 1] == ms + more[..|more| - 1];
      PaidConcat(ms, more[..|more| - 1]);
    }
  }

  // Both lookups of the session find something.
  predicate IsFine(accounts: map<string, Account>, ledgers: map<string, Ledger>, f: Faults, s: string) {
    s !in f.escrowLookup && s in accounts && s !in f.ledgerLookup && s in ledgers
  }

  // The session, whose lookups do not both find something, is refused for the first that does not.
  predicate IsRefusal(accounts: map<string, Account>, ledgers: map<string, Ledger>, f: Faults, s: string,
                      e: BatchError)
  {
    match e
    case EscrowLookupFailed(x) => x == s && s in f.escrowLookup
    case NoEscrow(x) => x == s && s !in f.escrowLookup && s !in accounts
    case LedgerLookupFailed(x) => x == s && s !in f.escrowLookup && s in accounts && s in f.ledgerLookup
    case NoLedger(x) => x == s && s !in f.escrowLookup && s in accounts && s !in f.ledgerLookup && s !in ledgers
    case BroadcastFailed => false
    case SessionRequired => false
  }

  // A batch is refused for the first listed session that is not fine.
  lemma {:induction false} FirstProblemIsFirst(accounts: map<string, Account>, ledgers: map<string, Ledger>,
                                               f: Faults, ids: seq<string>)
    ensures var r := FirstProblem(accounts, ledgers, f, ids);
            && (r.None? <==> forall i :: 0 <= i < |ids| ==> IsFine(accounts, ledgers, f, ids[i]))
            && (r.Some? ==> exists i :: 0 <= i < |ids| && IsRefusal(accounts, ledgers, f, ids[i], r.value)
                              && forall j :: 0 <= j < i ==> IsFine(accounts, ledgers, f, ids[j]))
    decreases |ids|
  {
    if ids != [] {
      var rest := ids[1..];
      FirstProblemIsFirst(accounts, ledgers, f, rest);
      assert forall i :: 0 <= i < |rest| ==> rest[i] == ids[i + 1];
      var p := Problem(accounts, ledgers, f, ids[0]);
      if p.Some? {
        assert IsRefusal(accounts, ledgers, f, ids[0], p.value);
      } else if FirstProblem(accounts, ledgers, f, rest).Some? {
        var e := FirstProblem(accounts, ledgers, f, rest).value;
        var i :| 0 <= i < |rest| && IsRefusal(accounts, ledgers, f, rest[i], e)
                 && forall j :: 0 <= j < i ==> IsFine(accounts, ledgers, f, rest[j]);
        assert forall j :: 0 <= j < i + 1 ==> j == 0 || ids[j] == rest[j - 1];
        assert IsRefusal(accounts, ledgers, f, ids[i + 1], e);
      }
    }
  }

  // ----- Local books against the hub ------------------------------------------------------

  // After a successful broadcast the settlement records are the broadcast messages, one for
  // one and in order, if and only if no record write of a listed session failed.
  lemma {:induction false} RecordsMatchTheBroadcastIff(batchId: string, txHash: string, ms: seq<CloseMessage>,
                                                       lost: set<string>)
    ensures |Recorded(batchId, txHash, ms, lost)| <= |ms|
    ensures (|Recorded(batchId, txHash, ms, lost)| == |ms|
             && forall i :: 0 <= i < |ms| ==> Recorded(batchId, txHash, ms, lost)[i] == Record(batchId, ms[i], txHash))
            <==> forall i :: 0 <= i < |ms| ==> ms[i].session !in lost
  {
    if ms != [] {
      RecordsMatchTheBroadcastIff(batchId, txHash, ms[..|ms| - 1], lost);
      assert ms == ms[..|ms| - 1] + [ms[|ms| - 1]];
    }
  }

  // In any case they are the messages whose record could be written, in order.
  lemma {:induction false} RecordsAreTheWrittenMessages(batchId: string, txHash: string, ms: seq<CloseMessage>,
                                                        lost: set<string>)
    ensures var records := Recorded(batchId, txHash, ms, lost);
            var written := Filtered(ms, (m: CloseMessage) => m.session !in lost);
            && |records| == |written|
            && forall i :: 0 <= i < |written| ==>
                 records[i].batchId == batchId && records[i].txHash == txHash && records[i].message == written[i]
  {
    if ms != [] {
      RecordsAreTheWrittenMessages(batchId, txHash, ms[..|ms| - 1], lost);
    }
  }

  // Every listed account ends settled if and only if each one was already settled or had no
  // failing update. Nothing but the status of an account changes, and unlisted accounts do not.
  lemma {:induction false} ListedAccountsSettleIff(accounts: map<string, Account>, ids: seq<string>, lost: set<string>)
    requires forall s :: s in ids ==> s in accounts
    ensures (forall s :: s in ids ==> Marked(accounts, ids, lost)[s].status == Settled)
            <==> forall s :: s in ids ==> s !in lost || accounts[s].status == Settled
    ensures Marked(accounts, ids, lost).Keys == accounts.Keys
    ensures forall s :: s in accounts ==>
              Marked(accounts, ids, lost)[s]
              == if s in ids && s !in lost then accounts[s].(status := Settled) else accounts[s]
  {
    if forall s :: s in ids ==> Marked(accounts, ids, lost)[s].status == Settled {
      forall s | s in ids ensures s !in lost || accounts[s].status == Settled {
        assert Marked(accounts, ids, lost)[s].status == Settled;
      }
    }
  }
}
