// The on-chain side: transaction events from the hub, epoch waiters, and the callbacks into the
// subscription manager. Heights are 64-bit signed integers.
module EpochActivation {
  import opened Common
  import opened Subscriptions

  const ON_CHAIN := "shinzohub:on-chain"
  const CREATED := "SubscriptionCreated"
  const EXPIRED := "SubscriptionExpired"

  datatype CreatedEvent = CreatedEvent(subscriptionId: string, hostId: string, indexerId: string, expiresAt: Expiry)

  datatype TxEvent = TxEvent(kind: string, attributes: seq<(string, string)>)

  datatype Waiter = Waiter(fromHeight: Int64, target: Int64, event: CreatedEvent)

  datatype HubConfig = HubConfig(epochSize: Int64, parse: string -> Option<CreatedEvent>)

  // What one event asks for.
  datatype Request = Nothing | Activation(event: CreatedEvent) | Cancellation(id: string)

  // A later attribute of the same name wins.
  function Attribute(attributes: seq<(string, string)>, key: string): Option<string> {
    if attributes == [] then None
    else
      var last := attributes[|attributes| - 1];
      if last.0 == key then Some(last.1) else Attribute(attributes[..|attributes| - 1], key)
  }

  predicate Complete(e: CreatedEvent) {
    e.subscriptionId != "" && e.hostId != "" && e.indexerId != "" && e.expiresAt != Never
  }

  function Understand(cfg: HubConfig, ev: TxEvent): Request {
    if ev.kind == CREATED then
      var data := Attribute(ev.attributes, "data");
      if data.Some? && cfg.parse(data.value).Some? && Complete(cfg.parse(data.value).value)
      then Activation(cfg.parse(data.value).value) else Nothing
    else if ev.kind == EXPIRED then
      var id := Attribute(ev.attributes, "subscription_id");
      if id.Some? && id.value != "" then Cancellation(id.value) else Nothing
    else Nothing
  }

  predicate Waits(cfg: HubConfig, height: Int64) {
    cfg.epochSize > 0 && height > 0
  }

  // The effect of one event at a height: subscriptions and waiters afterwards.
  function Handle(cfg: HubConfig, subs: Subs, waiters: seq<Waiter>, height: Int64, ev: TxEvent, now: int)
    : (Subs, seq<Waiter>)
  {
    match Understand(cfg, ev)
    case Nothing => (subs, waiters)
    case Cancellation(id) => (CancelSub(subs, id).0, waiters)
    case Activation(e) =>
      if Waits(cfg, height) then (subs, waiters + [Waiter(height, Wrapped(height + cfg.epochSize), e)])
      else (ActivateSub(subs, e.subscriptionId, ON_CHAIN, e.expiresAt, now).0, waiters)
  }

  function HandleAll(cfg: HubConfig, subs: Subs, waiters: seq<Waiter>, height: Int64, evs: seq<TxEvent>, now: int)
    : (Subs, seq<Waiter>)
  {
    if evs == [] then (subs, waiters)
    else
      var (subs', waiters') := HandleAll(cfg, subs, waiters, height, evs[..|evs| - 1], now);
      Handle(cfg, subs', waiters', height, evs[|evs| - 1], now)
  }

  // One poll of one waiter; `observed` is None when the height query fails.
  function PollWaiter(subs: Subs, waiters: seq<Waiter>, i: nat, observed: Option<Int64>, now: int): (Subs, seq<Waiter>)
    requires i < |waiters|
  {
    var w := waiters[i];
    if observed.None? || observed.value < w.target then (subs, waiters)
    else
      (ActivateSub(subs, w.event.subscriptionId, ON_CHAIN, w.event.expiresAt, now).0, waiters[..i] + waiters[i + 1..])
  }

  class HubSubscriber {
    const cfg: HubConfig
    const mgr: SubscriptionManager
    var waiters: seq<Waiter>  // the goroutines still polling

    constructor (cfg: HubConfig, mgr: SubscriptionManager)
      ensures this.cfg == cfg && this.mgr == mgr && waiters == []
    {
      this.cfg, this.mgr, waiters := cfg, mgr, [];
    }

    method Dispatch(height: Int64, events: seq<TxEvent>, now: int)
      modifies this, mgr
      ensures (mgr.subs, waiters) == HandleAll(cfg, old(mgr.subs), old(waiters), height, events, now)
    {
      for i := 0 to |events|
        invariant (mgr.subs, waiters) == HandleAll(cfg, old(mgr.subs), old(waiters), height, events[..i], now)
      {
        assert events[..i + 1][..i] == events[..i];
        HandleEvent(height, events[i], now);
      }
      assert events[..|events|] == events;
    }

    method HandleEvent(height: Int64, ev: TxEvent, now: int)
      modifies this, mgr
      ensures (mgr.subs, waiters) == Handle(cfg, old(mgr.subs), old(waiters), height, ev, now)
    {
      if ev.kind == CREATED {
        var data := AttributeOf(ev.attributes, "data");
        if data.None? {
          return;
        }
        var parsed := cfg.parse(data.value);
        if parsed.None? || !Complete(parsed.value) {
          return;
        }
        var e := parsed.value;
        if cfg.epochSize > 0 && height > 0 {
          waiters := waiters + [Waiter(height, Wrapped(height + cfg.epochSize), e)];
        } else {
          var _ := mgr.Activate(e.subscriptionId, ON_CHAIN, e.expiresAt, now);
        }
      } else if ev.kind == EXPIRED {
        var id := AttributeOf(ev.attributes, "subscription_id");
        if id.None? || id.value == "" {
          return;
        }
        var _ := mgr.Cancel(id.value);
      }
    }

    method AttributeOf(attributes: seq<(string, string)>, key: string) returns (r: Option<string>)
      ensures r == Attribute(attributes, key)
    {
      r := None;
      for i := 0 to |attributes|
        invariant r == Attribute(attributes[..i], key)
      {
        assert attributes[..i + 1][..i] == attributes[..i];
        if attributes[i].0 == key {
          r := Some(attributes[i].1);
        }
      }
      assert attributes[..|attributes|] == attributes;
    }

    method Poll(i: nat, observed: Option<Int64>, now: int)
      requires i < |waiters|
      modifies this, mgr
      ensures (mgr.subs, waiters) == PollWaiter(old(mgr.subs), old(waiters), i, observed, now)
    {
      if observed.None? {
        return;
      }
      if observed.value >= waiters[i].target {
        var e := waiters[i].event;
        var _ := mgr.Activate(e.subscriptionId, ON_CHAIN, e.expiresAt, now);
        waiters := waiters[..i] + waiters[i + 1..];
      }
    }
  }

  // ----- Runs --------------------------------------------------------------------------------

  datatype Event =
    | Created(id: string, req: CreateRequest, indexerActive: bool)
    | Paid(id: string, paymentRef: string, expiresAt: Expiry, now: int)
    | CancelAsked(id: string)
    | ExpiryTick(now: int)
    | Observed(height: Int64, ev: TxEvent, now: int)
    | Polled(i: nat, observed: Option<Int64>, now: int)

  datatype Source = OverHttp | AtOnce(height: Int64) | AfterEpoch(fromHeight: Int64, observed: Int64)

  // A successful activation, as an observer of the run notes it down.
  datatype Entry = Entry(id: string, paymentRef: string, source: Source)

  datatype World = World(subs: Subs, waiters: seq<Waiter>, log: seq<Entry>)

  const START := World(map[], [], [])

  function Step(cfg: HubConfig, w: World, e: Event): World {
    match e
    case Created(id, req, active) => w.(subs := CreateSub(w.subs, id, req, active).0)
    case Paid(id, ref, expiresAt, now) =>
      LogActivation(w, w.(subs := ActivateSub(w.subs, id, ref, expiresAt, now).0), Entry(id, ref, OverHttp))
    case CancelAsked(id) => w.(subs := CancelSub(w.subs, id).0)
    case ExpiryTick(now) => w.(subs := ExpireSubs(w.subs, now))
    case Observed(height, ev, now) =>
      var (subs, waiters) := Handle(cfg, w.subs, w.waiters, height, ev, now);
      var w' := w.(subs := subs, waiters := waiters);
      if Understand(cfg, ev).Activation?
      then LogActivation(w, w', Entry(Understand(cfg, ev).event.subscriptionId, ON_CHAIN, AtOnce(height))) else w'
    case Polled(i, observed, now) =>
      if i < |w.waiters| then
        var (subs, waiters) := PollWaiter(w.subs, w.waiters, i, observed, now);
        var w' := w.(subs := subs, waiters := waiters);
        if observed.Some?
        then LogActivation(w, w', Entry(w.waiters[i].event.subscriptionId, ON_CHAIN,
                                        AfterEpoch(w.waiters[i].fromHeight, observed.value))) else w'
      else w
  }

  // An activation happened when the subscription was pending before and is active after.
  function LogActivation(before: World, after: World, entry: Entry): World {
    if entry.id in before.subs && before.subs[entry.id].status == Pending
       && entry.id in after.subs && after.subs[entry.id].status == Active
    then after.(log := after.log + [entry]) else after
  }

  function Run(cfg: HubConfig, w: World, es: seq<Event>): World
    decreases |es|
  {
    if es == [] then w else Run(cfg, Step(cfg, w, es[0]), es[1..])
  }

  // ----- The invariant ---------------------------------------------------------------------------

  ghost predicate SourceSound(cfg: HubConfig, source: Source) {
    match source
    case OverHttp => true
    case AtOnce(height) => !Waits(cfg, height)
    case AfterEpoch(from, observed) => Waits(cfg, from) && observed >= Wrapped(from + cfg.epochSize)
  }

  ghost predicate WaitersSound(cfg: HubConfig, ws: seq<Waiter>) {
    forall i :: 0 <= i < |ws| ==>
      Waits(cfg, ws[i].fromHeight) && ws[i].target == Wrapped(ws[i].fromHeight + cfg.epochSize)
  }

  ghost predicate LogSound(cfg: HubConfig, w: World, e: Entry) {
    && e.id in w.subs && w.subs[e.id].status != Pending && w.subs[e.id].paymentRef == e.paymentRef
    && SourceSound(cfg, e.source)
  }

  ghost predicate Logged(w: World, id: string) {
    exists k :: 0 <= k < |w.log| && w.log[k].id == id
  }

  ghost predicate Inv(cfg: HubConfig, w: World) {
    && (forall k :: 0 <= k < |w.log| ==> LogSound(cfg, w, w.log[k]))
    && (forall j, k :: 0 <= j < k < |w.log| ==> w.log[j].id != w.log[k].id)
    && (forall id :: id in w.subs && (w.subs[id].status == Active || w.subs[id].status == Expired) ==> Logged(w, id))
    && WaitersSound(cfg, w.waiters)
  }

  // What any later world owes to an earlier one.
  ghost predicate Follows(w: World, w': World) {
    && w.log <= w'.log
    && (forall k :: |w.log| <= k < |w'.log| && w'.log[k].id in w.subs ==> w.subs[w'.log[k].id].status == Pending)
    && forall id :: id in w.subs ==>
         && id in w'.subs
         && (w.subs[id].status == Expired || w.subs[id].status == Cancelled ==> w'.subs[id] == w.subs[id])
         && (w.subs[id].status != Pending ==>
               && w'.subs[id].status != Pending
               && w'.subs[id].paymentRef == w.subs[id].paymentRef
               && w'.subs[id].activatedAt == w.subs[id].activatedAt)
  }

  ghost predicate Moves(s: Subscription, s': Subscription, entry: Option<Entry>) {
    if entry.Some? then s'.status == Active && s'.paymentRef == entry.value.paymentRef
    else
      || s' == s
      || (s' == s.(status := Cancelled) && (s.status == Pending || s.status == Active))
      || (s' == s.(status := Expired) && s.status == Active)
  }

  // The subscriptions change only along the lifecycle, and only a logged activation activates.
  ghost predicate Lifecycle(w: World, w': World, entry: Option<Entry>) {
    && w'.log == (if entry.Some? then w.log + [entry.value] else w.log)
    && (entry.Some? ==> entry.value.id in w.subs && w.subs[entry.value.id].status == Pending)
    && (forall id :: id in w.subs ==>
          id in w'.subs && Moves(w.subs[id], w'.subs[id], if entry.Some? && entry.value.id == id then entry else None))
    && (forall id :: id in w'.subs && id !in w.subs ==> w'.subs[id].status == Pending)
  }

  lemma {:induction false} LifecycleKeepsInv(cfg: HubConfig, w: World, w': World, entry: Option<Entry>)
    requires Inv(cfg, w) && Lifecycle(w, w', entry)
    requires (entry.Some? ==> SourceSound(cfg, entry.value.source)) && WaitersSound(cfg, w'.waiters)
    ensures Inv(cfg, w') && Follows(w, w')
  {
    forall k | 0 <= k < |w'.log| ensures LogSound(cfg, w', w'.log[k]) {
      if k < |w.log| {
        assert LogSound(cfg, w, w.log[k]);
      }
    }
    forall j | 0 <= j < |w.log| && entry.Some? ensures w.log[j].id != entry.value.id {
      assert LogSound(cfg, w, w.log[j]);
    }
    forall id | id in w'.subs && (w'.subs[id].status == Active || w'.subs[id].status == Expired)
      ensures Logged(w', id)
    {
      if entry.Some? && entry.value.id == id {
        assert w'.log[|w.log|].id == id;
      } else {
        assert Logged(w, id);
        var k :| 0 <= k < |w.log| && w.log[k].id == id;
        assert w'.log[k].id == id;
      }
    }
  }

  // An activation attempt is one lifecycle step, logged exactly when it succeeds.
  lemma {:induction false} AttemptIsLifecycle(w: World, waiters: seq<Waiter>, e: Entry, expiresAt: Expiry, now: int)
    returns (entry: Option<Entry>)
    ensures var subs := ActivateSub(w.subs, e.id, e.paymentRef, expiresAt, now).0;
            var w' := LogActivation(w, World(subs, waiters, w.log), e);
            Lifecycle(w, w', entry) && w'.waiters == waiters && (entry.Some? ==> entry.value == e)
  {
    entry := if e.id in w.subs && w.subs[e.id].status == Pending then Some(e) else None;
  }

  // The step is a lifecycle step with this entry in the log, if any.
  ghost predicate IsLifecycleStep(cfg: HubConfig, w: World, w': World, entry: Option<Entry>) {
    && Lifecycle(w, w', entry)
    && (entry.Some? ==> SourceSound(cfg, entry.value.source))
    && WaitersSound(cfg, w'.waiters)
  }

  lemma {:induction false} ObservationIsLifecycle(cfg: HubConfig, w: World, e: Event) returns (entry: Option<Entry>)
    requires WaitersSound(cfg, w.waiters) && e.Observed?
    ensures IsLifecycleStep(cfg, w, Step(cfg, w, e), entry)
  {
    entry := None;
    var request := Understand(cfg, e.ev);
    if request.Activation? && !Waits(cfg, e.height) {
      var id := request.event.subscriptionId;
      entry := AttemptIsLifecycle(w, w.waiters, Entry(id, ON_CHAIN, AtOnce(e.height)), request.event.expiresAt, e.now);
    }
  }

  lemma {:induction false} RemainingWaitersAreSound(cfg: HubConfig, ws: seq<Waiter>, i: nat)
    requires WaitersSound(cfg, ws) && i < |ws|
    ensures WaitersSound(cfg, ws[..i] + ws[i + 1..])
    ensures SourceSound(cfg, AfterEpoch(ws[i].fromHeight, ws[i].target))
  {
  }

  lemma {:induction false} PollIsLifecycle(cfg: HubConfig, w: World, e: Event) returns (entry: Option<Entry>)
    requires WaitersSound(cfg, w.waiters) && e.Polled?
    ensures IsLifecycleStep(cfg, w, Step(cfg, w, e), entry)
  {
    entry := None;
    if e.i < |w.waiters| && e.observed.Some? && e.observed.value >= w.waiters[e.i].target {
      var waiter := w.waiters[e.i];
      RemainingWaitersAreSound(cfg, w.waiters, e.i);
      entry := AttemptIsLifecycle(w, w.waiters[..e.i] + w.waiters[e.i + 1..],
                                  Entry(waiter.event.subscriptionId, ON_CHAIN,
                                        AfterEpoch(waiter.fromHeight, e.observed.value)),
                                  waiter.event.expiresAt, e.now);
    }
  }

  lemma {:induction false} StepIsLifecycle(cfg: HubConfig, w: World, e: Event) returns (entry: Option<Entry>)
    requires WaitersSound(cfg, w.waiters)
    ensures IsLifecycleStep(cfg, w, Step(cfg, w, e), entry)
  {
    entry := None;
    match e
    case Paid(id, ref, expiresAt, now) =>
      entry := AttemptIsLifecycle(w, w.waiters, Entry(id, ref, OverHttp), expiresAt, now);
    case Observed(_, _, _) => entry := ObservationIsLifecycle(cfg, w, e);
    case Polled(_, _, _) => entry := PollIsLifecycle(cfg, w, e);
    case _ =>
  }

  lemma {:induction false} RunKeepsInv(cfg: HubConfig, w: World, es: seq<Event>)
    requires Inv(cfg, w)
    ensures Inv(cfg, Run(cfg, w, es)) && Follows(w, Run(cfg, w, es))
    decreases |es|
  {
    if es != [] {
      var w1 := Step(cfg, w, es[0]);
      var entry := StepIsLifecycle(cfg, w, es[0]);
      LifecycleKeepsInv(cfg, w, w1, entry);
      RunKeepsInv(cfg, w1, es[1..]);
    }
  }

  lemma {:induction false} RunSplits(cfg: HubConfig, w: World, before: seq<Event>, after: seq<Event>)
    ensures Run(cfg, w, before + after) == Run(cfg, Run(cfg, w, before), after)
    decreases |before|
  {
    if before == [] {
      assert before + after == after;
    } else {
      assert (before + after)[1..] == before[1..] + after;
      RunSplits(cfg, Step(cfg, w, before[0]), before[1..], after);
    }
  }

  // A dispatched transaction is its events, observed one after the other.
  lemma {:induction false} DispatchIsARun(cfg: HubConfig, w: World, height: Int64, evs: seq<TxEvent>, now: int)
    ensures var w' := Run(cfg, w, seq(|evs|, i requires 0 <= i < |evs| => Observed(height, evs[i], now)));
            (w'.subs, w'.waiters) == HandleAll(cfg, w.subs, w.waiters, height, evs, now)
    decreases |evs|
  {
    if evs != [] {
      var front, last := evs[..|evs| - 1], evs[|evs| - 1];
      DispatchIsARun(cfg, w, height, front, now);
      var es := seq(|evs|, i requires 0 <= i < |evs| => Observed(height, evs[i], now));
      var es' := seq(|front|, i requires 0 <= i < |front| => Observed(height, front[i], now));
      assert es == es' + [Observed(height, last, now)];
      RunSplits(cfg, w, es', [Observed(height, last, now)]);
      var mid := Run(cfg, w, es');
      assert Run(cfg, mid, [Observed(height, last, now)]) == Step(cfg, mid, Observed(height, last, now));
    }
  }

  // ----- Main results -------------------------------------------------------------------------------

  // However payments, waiters, cancellations and expiry race: a subscription is activated at
  // most once, whatever was ever activated carries the payment reference of that activation,
  // and nothing is active or expired without one.
  lemma {:induction false} ActivatedAtMostOnce(cfg: HubConfig, es: seq<Event>)
    ensures var w := Run(cfg, START, es);
            && (forall j, k :: 0 <= j < k < |w.log| ==> w.log[j].id != w.log[k].id)
            && (forall k :: 0 <= k < |w.log| ==>
                  w.log[k].id in w.subs && w.subs[w.log[k].id].paymentRef == w.log[k].paymentRef)
            && (forall id :: id in w.subs && (w.subs[id].status == Active || w.subs[id].status == Expired) ==>
                  Logged(w, id))
  {
    RunKeepsInv(cfg, START, es);
    var w := Run(cfg, START, es);
    forall k | 0 <= k < |w.log|
      ensures w.log[k].id in w.subs && w.subs[w.log[k].id].paymentRef == w.log[k].paymentRef
    {
      assert LogSound(cfg, w, w.log[k]);
    }
  }

  // A cancelled or expired subscription never changes again and is never activated again; a
  // payment reference, once set, is kept for ever.
  lemma {:induction false} TheEndIsFinal(cfg: HubConfig, before: seq<Event>, after: seq<Event>, id: string)
    requires id in Run(cfg, START, before).subs && Run(cfg, START, before).subs[id].status != Pending
    ensures var w, w' := Run(cfg, START, before), Run(cfg, START, before + after);
            && id in w'.subs && w'.subs[id].paymentRef == w.subs[id].paymentRef
            && w.log <= w'.log && (forall k :: |w.log| <= k < |w'.log| ==> w'.log[k].id != id)
            && (w.subs[id].status == Expired || w.subs[id].status == Cancelled ==> w'.subs[id] == w.subs[id])
  {
    RunKeepsInv(cfg, START, before);
    RunKeepsInv(cfg, Run(cfg, START, before), after);
    RunSplits(cfg, START, before, after);
  }

  // With a positive epoch size, an event of positive height activates only through a waiter
  // that has seen the wrapped sum of the event's height and the epoch size.
  lemma {:induction false} OnChainActivationsWait(cfg: HubConfig, es: seq<Event>)
    ensures var w := Run(cfg, START, es);
            forall k :: 0 <= k < |w.log| ==>
              && (w.log[k].source.AtOnce? ==> !(cfg.epochSize > 0 && w.log[k].source.height > 0))
              && (w.log[k].source.AfterEpoch? ==>
                    && cfg.epochSize > 0 && w.log[k].source.fromHeight > 0
                    && w.log[k].source.observed >= Wrapped(w.log[k].source.fromHeight + cfg.epochSize))
  {
    RunKeepsInv(cfg, START, es);
    var w := Run(cfg, START, es);
    forall k | 0 <= k < |w.log| ensures SourceSound(cfg, w.log[k].source) {
      assert LogSound(cfg, w, w.log[k]);
    }
  }

  // In this run, whatever was activated through a waiter for an event of the given height waited
  // a full epoch of blocks.
  ghost predicate RespectsEpoch(cfg: HubConfig, es: seq<Event>, height: Int64) {
    forall e :: e in Run(cfg, START, es).log && e.source.AfterEpoch? && e.source.fromHeight == height ==>
      e.source.observed - height >= cfg.epochSize
  }

  // Every run waits a full epoch for the events of a height if and only if the sum of the height
  // and the epoch size does not overflow 64 bits. `data` is any event payload that decodes.
  lemma {:induction false} EpochIsRespectedIff(cfg: HubConfig, height: Int64, data: string)
    requires height > 0 && cfg.epochSize > 0
    requires cfg.parse(data).Some? && Complete(cfg.parse(data).value)
    ensures (forall es :: RespectsEpoch(cfg, es, height)) <==> height + cfg.epochSize <= MAX_INT64
  {
    if height + cfg.epochSize <= MAX_INT64 {
      forall es ensures RespectsEpoch(cfg, es, height) {
        OnChainActivationsWait(cfg, es);
      }
    } else {
      var es := EarlyActivation(cfg, height, data);
      TooEarly(cfg, es, height);
    }
  }

  lemma {:induction false} TooEarly(cfg: HubConfig, es: seq<Event>, height: Int64)
    requires cfg.epochSize > 0 && |Run(cfg, START, es).log| == 1
    requires Run(cfg, START, es).log[0].source == AfterEpoch(height, height)
    ensures !RespectsEpoch(cfg, es, height)
  {
    var log := Run(cfg, START, es).log;
    assert log[0] in log;
  }

  // When the sum wraps, the first poll activates: no block has passed since the event.
  lemma {:induction false} EarlyActivation(cfg: HubConfig, height: Int64, data: string) returns (es: seq<Event>)
    requires height > 0 && cfg.epochSize > 0 && height + cfg.epochSize > MAX_INT64
    requires cfg.parse(data).Some? && Complete(cfg.parse(data).value)
    ensures Run(cfg, START, es).log
         == [Entry(cfg.parse(data).value.subscriptionId, ON_CHAIN, AfterEpoch(height, height))]
  {
    var id := cfg.parse(data).value.subscriptionId;
    var e0 := Created(id, CreateRequest("host", "indexer", TIP, 0, 0), true);
    var ev := TxEvent(CREATED, [("data", data)]);
    var e1, e2 := Observed(height, ev, 0), Polled(0, Some(height), 0);
    assert Attribute(ev.attributes, "data") == Some(data);
    var w1 := Step(cfg, START, e0);
    var w2 := Step(cfg, w1, e1);
    assert w2.waiters == [Waiter(height, Wrapped(height + cfg.epochSize), cfg.parse(data).value)];
    var w3 := Step(cfg, w2, e2);
    es := [e0, e1, e2];
    assert es[1..] == [e1, e2] && [e1, e2][1..] == [e2] && [e2][1..] == [];
    assert Run(cfg, START, es) == Run(cfg, w1, [e1, e2]) == Run(cfg, w2, [e2]) == Run(cfg, w3, []) == w3;
  }
}
