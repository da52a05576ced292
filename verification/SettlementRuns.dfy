// Batch after batch, with deposits, top-ups, drains and verified blocks in between.
module SettlementRuns {
  import opened Escrow
  import opened EscrowRuns
  import opened Settlement

  datatype TillEvent = MoneyMoved(event: MoneyEvent) | BatchRun(batch: Batch)

  // The money, and every payout the hub accepted so far.
  datatype Till = Till(state: State, paid: seq<CloseMessage>)

  ghost function StepTill(cfg: EscrowConfig, till: Till, e: TillEvent): Till {
    match e
    case MoneyMoved(event) => till.(state := Step(cfg, till.state, event))
    case BatchRun(batch) =>
      var book := till.state.book;
      var (accounts, payouts) := BatchStep(book.accounts, book.ledgers, batch);
      Till(till.state.(book := book.(accounts := accounts)), till.paid + payouts)
  }

  ghost function RunTill(cfg: EscrowConfig, es: seq<TillEvent>): Till {
    if es == [] then Till(START, []) else StepTill(cfg, RunTill(cfg, es[..|es| - 1]), es[|es| - 1])
  }

  // ----- What was paid for ---------------------------------------------------------------------

  // One mention of a session in an accepted batch, and what the session had to pay out then.
  datatype Mention = Mention(session: string, amount: real)

  ghost function MentionsOf(book: Book, ids: seq<string>): (ms: seq<Mention>)
    requires Known(book.accounts, book.ledgers, ids)
    ensures |ms| == |ids|
    ensures forall i :: 0 <= i < |ids| ==> ms[i] == Mention(ids[i], Gross(book.accounts, book.ledgers)[ids[i]])
  {
    if ids == [] then []
    else
      var last := ids[|ids| - 1];
      MentionsOf(book, ids[..|ids| - 1]) + [Mention(last, Gross(book.accounts, book.ledgers)[last])]
  }

  ghost function MentionsIn(book: Book, e: TillEvent): seq<Mention> {
    if e.BatchRun? && Accepted(book.accounts, book.ledgers, e.batch) then MentionsOf(book, e.batch.ids) else []
  }

  ghost function Mentions(cfg: EscrowConfig, es: seq<TillEvent>): seq<Mention> {
    if es == [] then []
    else
      var front := es[..|es| - 1];
      Mentions(cfg, front) + MentionsIn(RunTill(cfg, front).state.book, es[|es| - 1])
  }

  function Total(ms: seq<Mention>): real {
    if ms == [] then 0.0 else Total(ms[..|ms| - 1]) + ms[|ms| - 1].amount
  }

  ghost predicate Mentioned(ms: seq<Mention>, s: string) {
    exists i :: 0 <= i < |ms| && ms[i].session == s
  }

  // The amounts of first mentions only.
  ghost function TotalOnce(ms: seq<Mention>): real {
    if ms == [] then 0.0
    else
      var front, last := ms[..|ms| - 1], ms[|ms| - 1];
      TotalOnce(front) + if Mentioned(front, last.session) then 0.0 else last.amount
  }

  ghost predicate LaterMentionsPayNothing(ms: seq<Mention>) {
    forall i, j :: 0 <= i < j < |ms| && ms[i].session == ms[j].session ==> ms[j].amount == 0.0
  }

  lemma {:induction false} TotalConcat(ms: seq<Mention>, more: seq<Mention>)
    ensures Total(ms + more) == Total(ms) + Total(more)
    decreases |more|
  {
    if more == [] {
      assert ms + more == ms;
    } else {
      assert (ms + more)[..|ms + more| - 1] == ms + more[..|more| - 1];
      TotalConcat(ms, more[..|more| - 1]);
    }
  }

  lemma {:induction false} MentionsTotal(book: Book, ids: seq<string>)
    requires Known(book.accounts, book.ledgers, ids)
    ensures Total(MentionsOf(book, ids)) == TotalOf(Gross(book.accounts, book.ledgers), ids)
    decreases |ids|
  {
    if ids != [] {
      var front, last := ids[..|ids| - 1], ids[|ids| - 1];
      MentionsTotal(book, front);
      var ms := MentionsOf(book, front);
      assert (ms + [Mention(last, Gross(book.accounts, book.ledgers)[last])])[..|ms|] == ms;
    }
  }

  lemma {:induction false} MentionsArePaid(book: Book, ids: seq<string>, reason: string)
    requires Known(book.accounts, book.ledgers, ids)
    ensures Paid(Messages(book.accounts, book.ledgers, ids, reason)) == Total(MentionsOf(book, ids))
  {
    MentionsTotal(book, ids);
    PaidIsTotal(book.accounts, book.ledgers, ids, reason);
  }

  // Whatever happens between batches: every mention in an accepted list is paid, at what the
  // session has to pay out then, whether it was settled before or not.
  lemma {:induction false} EveryAcceptedMentionIsPaid(cfg: EscrowConfig, es: seq<TillEvent>)
    ensures Paid(RunTill(cfg, es).paid) == Total(Mentions(cfg, es))
    decreases |es|
  {
    if es != [] {
      var front, e := es[..|es| - 1], es[|es| - 1];
      EveryAcceptedMentionIsPaid(cfg, front);
      var till := RunTill(cfg, front);
      var book := till.state.book;
      TotalConcat(Mentions(cfg, front), MentionsIn(book, e));
      if e.BatchRun? {
        PaidConcat(till.paid, BatchStep(book.accounts, book.ledgers, e.batch).1);
        if Accepted(book.accounts, book.ledgers, e.batch) {
          MentionsArePaid(book, e.batch.ids, e.batch.reason);
        }
      }
    }
  }

  // ----- Once ------------------------------------------------------------------------------------

  lemma {:induction false} LaterMentionsSnoc(front: seq<Mention>, last: Mention)
    ensures LaterMentionsPayNothing(front + [last]) <==>
            LaterMentionsPayNothing(front) && (Mentioned(front, last.session) ==> last.amount == 0.0)
  {
    var ms := front + [last];
    if LaterMentionsPayNothing(ms) {
      forall i, j | 0 <= i < j < |front| && front[i].session == front[j].session ensures front[j].amount == 0.0 {
        assert ms[i].session == ms[j].session;
      }
      if i :| 0 <= i < |front| && front[i].session == last.session {
        assert ms[i].session == ms[|front|].session;
      }
    }
  }

  lemma {:induction false} TotalIsOnceIff(ms: seq<Mention>)
    requires forall i :: 0 <= i < |ms| ==> ms[i].amount >= 0.0
    ensures Total(ms) >= TotalOnce(ms)
    ensures Total(ms) == TotalOnce(ms) <==> LaterMentionsPayNothing(ms)
    decreases |ms|
  {
    if ms != [] {
      var front, last := ms[..|ms| - 1], ms[|ms| - 1];
      assert ms == front + [last];
      TotalIsOnceIff(front);
      LaterMentionsSnoc(front, last);
    }
  }

  // Over any run, each session is paid for its first mention only if and only if no later mention
  // finds it with something to pay out; otherwise more is paid.
  lemma {:induction false} PaidOnceAcrossBatchesIff(cfg: EscrowConfig, es: seq<TillEvent>)
    requires forall i :: 0 <= i < |Mentions(cfg, es)| ==> Mentions(cfg, es)[i].amount >= 0.0
    ensures Paid(RunTill(cfg, es).paid) >= TotalOnce(Mentions(cfg, es))
    ensures Paid(RunTill(cfg, es).paid) == TotalOnce(Mentions(cfg, es)) <==> LaterMentionsPayNothing(Mentions(cfg, es))
  {
    EveryAcceptedMentionIsPaid(cfg, es);
    TotalIsOnceIff(Mentions(cfg, es));
  }

  // ----- A till run is a money run ---------------------------------------------------------------

  // A batch marks its sessions one by one.
  function Marks(ids: seq<string>, lost: set<string>): seq<MoneyEvent> {
    if ids == [] then []
    else
      var front, last := Marks(ids[..|ids| - 1], lost), ids[|ids| - 1];
      if last in lost then front else front + [SettleMark(last)]
  }

  ghost function MoneyIn(book: Book, e: TillEvent): seq<MoneyEvent> {
    match e
    case MoneyMoved(event) => [event]
    case BatchRun(b) => if Accepted(book.accounts, book.ledgers, b) then Marks(b.ids, b.faults.mark) else []
  }

  ghost function TillTrace(cfg: EscrowConfig, es: seq<TillEvent>): seq<MoneyEvent> {
    if es == [] then []
    else
      var front := es[..|es| - 1];
      TillTrace(cfg, front) + MoneyIn(RunTill(cfg, front).state.book, es[|es| - 1])
  }

  lemma {:induction false} MarkedSnoc(accounts: map<string, Account>, ids: seq<string>, last: string, lost: set<string>)
    ensures Marked(accounts, ids + [last], lost)
         == if last in lost then Marked(accounts, ids, lost) else SettleAccount(Marked(accounts, ids, lost), last)
  {
    assert forall s :: s in ids + [last] <==> s in ids || s == last;
  }

  lemma {:induction false} MarksSettle(cfg: EscrowConfig, st: State, ids: seq<string>, lost: set<string>)
    ensures RunMoney(cfg, st, Marks(ids, lost))
         == State(st.book.(accounts := Marked(st.book.accounts, ids, lost)), st.trails)
    decreases |ids|
  {
    if ids == [] {
      assert Marked(st.book.accounts, ids, lost) == st.book.accounts;
    } else {
      var front, last := ids[..|ids| - 1], ids[|ids| - 1];
      assert ids == front + [last];
      MarksSettle(cfg, st, front, lost);
      MarkedSnoc(st.book.accounts, front, last, lost);
      if last !in lost {
        var mid := RunMoney(cfg, st, Marks(front, lost));
        RunMoneyConcat(cfg, st, Marks(front, lost), [SettleMark(last)]);
        OneMoneyStep(cfg, mid, SettleMark(last));
      }
    }
  }

  lemma {:induction false} TillIsAMoneyRun(cfg: EscrowConfig, es: seq<TillEvent>)
    ensures RunTill(cfg, es).state == RunMoney(cfg, START, TillTrace(cfg, es))
    decreases |es|
  {
    if es != [] {
      var front, e := es[..|es| - 1], es[|es| - 1];
      TillIsAMoneyRun(cfg, front);
      var trace, st := TillTrace(cfg, front), RunTill(cfg, front).state;
      RunMoneyConcat(cfg, START, trace, MoneyIn(st.book, e));
      match e
      case MoneyMoved(event) => OneMoneyStep(cfg, st, event);
      case BatchRun(b) =>
        if Accepted(st.book.accounts, st.book.ledgers, b) {
          MarksSettle(cfg, st, b.ids, b.faults.mark);
        }
    }
  }

  // So each accepted batch of a run pays out what the hosts of its sessions put in up to then, plus
  // the overruns up to then, whatever earlier batches paid.
  lemma {:induction false} EachBatchPaysTheFundsSoFar(cfg: EscrowConfig, es: seq<TillEvent>, b: Batch)
    requires var book := RunTill(cfg, es).state.book; Accepted(book.accounts, book.ledgers, b)
    ensures var st := RunTill(cfg, es).state;
            && Known(st.book.accounts, st.book.ledgers, b.ids)
            && (forall s :: s in b.ids ==> s in st.trails)
            && Total(MentionsIn(st.book, BatchRun(b)))
               == Funded(st.trails, b.ids) + Overruns(st.book.accounts, st.book.ledgers, b.ids)
  {
    TillIsAMoneyRun(cfg, es);
    SettlementConservesMoney(cfg, TillTrace(cfg, es), b.ids, b.reason);
    MentionsArePaid(RunTill(cfg, es).state.book, b.ids, b.reason);
  }
}
