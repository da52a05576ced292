// What a run makes of one subscription: where it comes from, what activates it, what ends it and
// when. Kinds, names and seconds are written out here.
module Lifecycles {
  import opened Common
  import opened Subscriptions
  import opened EpochActivation

  // ----- Where a subscription comes from ----------------------------------------------------------

  // A request that creates a subscription when the indexer is available and the id is free.
  predicate IsSound(req: CreateRequest) {
    && req.hostId != "" && req.indexerId != ""
    && (req.subType == "tip"
        || (req.subType == "snapshot" && req.blockFrom != 0 && req.blockTo != 0 && req.blockFrom < req.blockTo))
  }

  // Host, indexer, type and range are those of the request.
  predicate IsFor(s: Subscription, req: CreateRequest) {
    && s.hostId == req.hostId && s.indexerId == req.indexerId && s.subType == req.subType
    && s.blockFrom == req.blockFrom && s.blockTo == req.blockTo
  }

  ghost predicate IsRequested(s: Subscription, id: string, es: seq<Event>) {
    exists e :: e in es && e.Created? && e.id == id && e.indexerActive && IsSound(e.req) && IsFor(s, e.req)
  }

  // The second of a moment.
  predicate SecondOf(stamp: int, at: int) {
    stamp * 1_000_000_000 <= at < (stamp + 1) * 1_000_000_000
  }

  // A creation is refused for the first thing that is wrong with it, and otherwise the subscription
  // is pending, unpaid and without an expiry.
  lemma {:induction false} CreationAnswers(subs: Subs, id: string, req: CreateRequest, indexerActive: bool)
    ensures var (subs', r) := CreateSub(subs, id, req, indexerActive);
            && (r.Success? <==> IsSound(req) && indexerActive && id !in subs)
            && (r.Failure? ==> subs' == subs)
            && (r.Success? ==>
                  id in subs' && IsFor(subs'[id], req) && IsBlank(subs'[id]) && subs' == subs[id := subs'[id]])
            && (r == Failure(HostRequired) <==> req.hostId == "")
            && (r == Failure(IndexerRequired) <==> req.hostId != "" && req.indexerId == "")
            && (r == Failure(BadSubType) <==>
                req.hostId != "" && req.indexerId != "" && req.subType != "tip" && req.subType != "snapshot")
            && (r == Failure(RangeRequired) <==>
                && req.hostId != "" && req.indexerId != "" && req.subType == "snapshot"
                && (req.blockFrom == 0 || req.blockTo == 0))
            && (r == Failure(RangeInverted) <==>
                && req.hostId != "" && req.indexerId != "" && req.subType == "snapshot"
                && req.blockFrom != 0 && req.blockTo != 0 && req.blockFrom >= req.blockTo)
            && (r == Failure(IndexerUnavailable) <==> IsSound(req) && !indexerActive)
            && (r == Failure(IdTaken) <==> IsSound(req) && indexerActive && id in subs)
  {
  }

  // Pending and as it was created.
  predicate IsBlank(s: Subscription) {
    s.status == Pending && s.paymentRef == "" && s.activatedAt == None && s.expiresAt == Never
  }

  ghost predicate Sourced(subs: Subs, es: seq<Event>) {
    forall id :: id in subs ==> IsRequested(subs[id], id, es) && (subs[id].status == Pending ==> IsBlank(subs[id]))
  }

  lemma {:induction false} StaysSourced(s: Subscription, s': Subscription, id: string, es: seq<Event>, e: Event)
    requires IsRequested(s, id, es)
    requires s'.hostId == s.hostId && s'.indexerId == s.indexerId && s'.subType == s.subType
    requires s'.blockFrom == s.blockFrom && s'.blockTo == s.blockTo
    ensures IsRequested(s', id, es + [e])
  {
    var e' :| e' in es && e'.Created? && e'.id == id && e'.indexerActive && IsSound(e'.req) && IsFor(s, e'.req);
    assert e' in es + [e] && IsFor(s', e'.req);
  }

  lemma {:induction false} RunSnoc(cfg: HubConfig, es: seq<Event>, e: Event)
    ensures Run(cfg, START, es + [e]) == Step(cfg, Run(cfg, START, es), e)
  {
    RunSplits(cfg, START, es, [e]);
    var w := Run(cfg, START, es);
    assert [e][1..] == [];
    assert Run(cfg, w, [e]) == Run(cfg, Step(cfg, w, e), []);
  }

  // The subscription is still there, as it was requested, and if it is pending, just as it was.
  predicate KeepsRequest(subs: Subs, subs': Subs, id: string)
    requires id in subs
  {
    && id in subs'
    && subs'[id].hostId == subs[id].hostId && subs'[id].indexerId == subs[id].indexerId
    && subs'[id].subType == subs[id].subType
    && subs'[id].blockFrom == subs[id].blockFrom && subs'[id].blockTo == subs[id].blockTo
    && (subs'[id].status == Pending ==> subs'[id] == subs[id])
  }

  lemma {:induction false} ObservationKeepsRequest(cfg: HubConfig, w: World, e: Event, id: string)
    requires id in w.subs && e.Observed?
    ensures KeepsRequest(w.subs, Step(cfg, w, e).subs, id)
  {
  }

  lemma {:induction false} StepKeepsRequest(cfg: HubConfig, w: World, e: Event, id: string)
    requires id in w.subs
    ensures KeepsRequest(w.subs, Step(cfg, w, e).subs, id)
  {
    if e.Observed? {
      ObservationKeepsRequest(cfg, w, e, id);
    }
  }

  lemma {:induction false} OnlyCreationsAdd(cfg: HubConfig, w: World, e: Event, id: string)
    requires id !in w.subs && id in Step(cfg, w, e).subs
    ensures e.Created? && e.id == id && e.indexerActive && IsSound(e.req)
    ensures IsFor(Step(cfg, w, e).subs[id], e.req) && IsBlank(Step(cfg, w, e).subs[id])
  {
  }

  // Every subscription of a run was asked for by a sound request while its indexer was available,
  // and is blank for as long as it is pending.
  lemma {:induction false} SubscriptionsComeFromRequests(cfg: HubConfig, es: seq<Event>)
    ensures Sourced(Run(cfg, START, es).subs, es)
    decreases |es|
  {
    if es != [] {
      var front, e := es[..|es| - 1], es[|es| - 1];
      assert es == front + [e];
      SubscriptionsComeFromRequests(cfg, front);
      RunSnoc(cfg, front, e);
      var w := Run(cfg, START, front);
      var subs' := Step(cfg, w, e).subs;
      forall id | id in subs'
        ensures IsRequested(subs'[id], id, es) && (subs'[id].status == Pending ==> IsBlank(subs'[id]))
      {
        if id in w.subs {
          StepKeepsRequest(cfg, w, e, id);
          StaysSourced(w.subs[id], subs'[id], id, front, e);
        } else {
          OnlyCreationsAdd(cfg, w, e, id);
          assert e in es;
        }
      }
    }
  }

  // ----- What activates it -----------------------------------------------------------------------

  // The subscription, activated: everything else is as it was.
  predicate IsActivation(s: Subscription, s': Subscription, paymentRef: string, expiresAt: Expiry, now: int) {
    && s'.status == Active && s'.paymentRef == paymentRef && s'.expiresAt == expiresAt
    && s'.activatedAt.Some? && SecondOf(s'.activatedAt.value, now)
    && s'.(status := s.status, paymentRef := s.paymentRef, activatedAt := s.activatedAt, expiresAt := s.expiresAt) == s
  }

  // What an activation does to the subscriptions of a reachable state: a pending one is activated
  // and the others stay.
  ghost predicate Activates(subs: Subs, subs': Subs, id: string, paymentRef: string, expiresAt: Expiry, now: int) {
    if id in subs && subs[id].status == Pending
    then id in subs' && subs' == subs[id := subs'[id]] && IsActivation(subs[id], subs'[id], paymentRef, expiresAt, now)
    else subs' == subs
  }

  lemma {:induction false} ActivationStores(subs: Subs, id: string, paymentRef: string, expiresAt: Expiry, now: int)
    requires id in subs && subs[id].status == Pending ==> IsBlank(subs[id])
    ensures Activates(subs, ActivateSub(subs, id, paymentRef, expiresAt, now).0, id, paymentRef, expiresAt, now)
    ensures ActivateSub(subs, id, paymentRef, expiresAt, now).1
         == if id !in subs then Failure(NotFound)
            else if subs[id].status != Pending then Failure(NotPending)
            else Success(())
  {
  }

  // A payment activates the pending subscription it names, with its own reference and expiry.
  lemma {:induction false} PaymentActivates(cfg: HubConfig, es: seq<Event>, id: string, paymentRef: string,
                                            expiresAt: Expiry, now: int)
    ensures var w, w' := Run(cfg, START, es), Run(cfg, START, es + [Paid(id, paymentRef, expiresAt, now)]);
            Activates(w.subs, w'.subs, id, paymentRef, expiresAt, now) && w'.waiters == w.waiters
  {
    SubscriptionsComeFromRequests(cfg, es);
    RunSnoc(cfg, es, Paid(id, paymentRef, expiresAt, now));
    ActivationStores(Run(cfg, START, es).subs, id, paymentRef, expiresAt, now);
  }

  // The value of the last attribute of a name.
  ghost predicate IsLast(attributes: seq<(string, string)>, key: string, value: string) {
    exists i :: 0 <= i < |attributes| && attributes[i] == (key, value)
                && forall j :: i < j < |attributes| ==> attributes[j].0 != key
  }

  lemma {:induction false} AttributeIsLast(attributes: seq<(string, string)>, key: string, value: string)
    ensures Attribute(attributes, key) == Some(value) <==> IsLast(attributes, key, value)
    decreases |attributes|
  {
    if attributes != [] {
      var n := |attributes| - 1;
      var front, last := attributes[..n], attributes[n];
      if last.0 == key {
        if IsLast(attributes, key, value) {
          var i :| 0 <= i < |attributes| && attributes[i] == (key, value)
                   && forall j :: i < j < |attributes| ==> attributes[j].0 != key;
          assert i == n;
        }
        if last.1 == value {
          assert attributes[n] == (key, value);
        }
      } else {
        AttributeIsLast(front, key, value);
        if IsLast(attributes, key, value) {
          var i :| 0 <= i < |attributes| && attributes[i] == (key, value)
                   && forall j :: i < j < |attributes| ==> attributes[j].0 != key;
          assert i < n && front[i] == (key, value);
        }
        if IsLast(front, key, value) {
          var i :| 0 <= i < |front| && front[i] == (key, value) && forall j :: i < j < |front| ==> front[j].0 != key;
          assert attributes[i] == (key, value);
        }
      }
    }
  }

  // The event announces a paid subscription: the last data attribute decodes, and nothing is missing.
  ghost predicate Announces(cfg: HubConfig, ev: TxEvent, c: CreatedEvent) {
    && ev.kind == "SubscriptionCreated"
    && c.subscriptionId != "" && c.hostId != "" && c.indexerId != "" && c.expiresAt != Never
    && exists data :: IsLast(ev.attributes, "data", data) && cfg.parse(data) == Some(c)
  }

  // The event says that a subscription has expired.
  ghost predicate Ends(ev: TxEvent, id: string) {
    ev.kind == "SubscriptionExpired" && id != "" && IsLast(ev.attributes, "subscription_id", id)
  }

  lemma {:induction false} UnderstoodIff(cfg: HubConfig, ev: TxEvent)
    ensures forall c :: Understand(cfg, ev) == Activation(c) <==> Announces(cfg, ev, c)
    ensures forall id :: Understand(cfg, ev) == Cancellation(id) <==> Ends(ev, id)
  {
    forall c ensures Understand(cfg, ev) == Activation(c) <==> Announces(cfg, ev, c) {
      forall data ensures Attribute(ev.attributes, "data") == Some(data) <==> IsLast(ev.attributes, "data", data) {
        AttributeIsLast(ev.attributes, "data", data);
      }
      if Attribute(ev.attributes, "data").Some? {
        assert IsLast(ev.attributes, "data", Attribute(ev.attributes, "data").value);
      }
    }
    forall id ensures Understand(cfg, ev) == Cancellation(id) <==> Ends(ev, id) {
      AttributeIsLast(ev.attributes, "subscription_id", id);
    }
  }

  // An announcement at a positive height, with a positive epoch size, adds one waiter, whose target
  // is the 64-bit sum of both; any other announcement activates at once.
  lemma {:induction false} AnnouncementWaitsOrActivates(cfg: HubConfig, es: seq<Event>, height: Int64, ev: TxEvent,
                                                        now: int, c: CreatedEvent)
    requires Announces(cfg, ev, c)
    ensures var w, w' := Run(cfg, START, es), Run(cfg, START, es + [Observed(height, ev, now)]);
            if cfg.epochSize > 0 && height > 0 then
              var sum := height + cfg.epochSize;
              && w'.subs == w.subs && |w'.waiters| == |w.waiters| + 1 && w.waiters <= w'.waiters
              && w'.waiters[|w.waiters|].event == c && w'.waiters[|w.waiters|].fromHeight == height
              && w'.waiters[|w.waiters|].target
                 == if sum <= 0x7fff_ffff_ffff_ffff then sum else sum - 0x1_0000_0000_0000_0000
            else
              w'.waiters == w.waiters
              && Activates(w.subs, w'.subs, c.subscriptionId, "shinzohub:on-chain", c.expiresAt, now)
  {
    var w := Run(cfg, START, es);
    UnderstoodIff(cfg, ev);
    SubscriptionsComeFromRequests(cfg, es);
    RunSnoc(cfg, es, Observed(height, ev, now));
    ActivationStores(w.subs, c.subscriptionId, "shinzohub:on-chain", c.expiresAt, now);
  }

  // A poll that sees the waiter's target activates with the expiry of its event and ends the waiter;
  // any other poll changes nothing.
  lemma {:induction false} PollFiresIff(cfg: HubConfig, es: seq<Event>, i: nat, observed: Option<Int64>, now: int)
    ensures var w, w' := Run(cfg, START, es), Run(cfg, START, es + [Polled(i, observed, now)]);
            if i < |w.waiters| && observed.Some? && observed.value >= w.waiters[i].target then
              var c := w.waiters[i].event;
              && w'.waiters == w.waiters[..i] + w.waiters[i + 1..]
              && Activates(w.subs, w'.subs, c.subscriptionId, "shinzohub:on-chain", c.expiresAt, now)
            else w' == w
  {
    var w := Run(cfg, START, es);
    SubscriptionsComeFromRequests(cfg, es);
    RunSnoc(cfg, es, Polled(i, observed, now));
    if i < |w.waiters| {
      var c := w.waiters[i].event;
      ActivationStores(w.subs, c.subscriptionId, "shinzohub:on-chain", c.expiresAt, now);
    }
  }

  // ----- What ends it ----------------------------------------------------------------------------

  // Cancelling ends the pending or active subscription it names and nothing else.
  predicate Cancels(subs: Subs, subs': Subs, id: string) {
    if id in subs && (subs[id].status == Pending || subs[id].status == Active)
    then subs' == subs[id := subs[id].(status := Cancelled)] else subs' == subs
  }

  lemma {:induction false} CancellationAnswers(subs: Subs, id: string)
    ensures var (subs', r) := CancelSub(subs, id);
            && Cancels(subs, subs', id)
            && (r == Failure(NotFound) <==> id !in subs)
            && (r == Failure(AlreadyOver) <==> id in subs && subs[id].status in {Expired, Cancelled})
            && (r == Success(()) <==> id in subs && subs[id].status in {Pending, Active})
  {
  }

  // An expiry event of the hub cancels the subscription it names; an event that is neither this nor
  // an announcement does nothing at all.
  lemma {:induction false} HubExpiryCancels(cfg: HubConfig, w: World, height: Int64, ev: TxEvent, now: int)
    ensures var w' := Step(cfg, w, Observed(height, ev, now));
            && (forall id :: Ends(ev, id) ==>
                  Cancels(w.subs, w'.subs, id) && w'.waiters == w.waiters && w'.log == w.log)
            && ((forall id :: !Ends(ev, id)) && (forall c :: !Announces(cfg, ev, c)) ==> w' == w)
  {
    UnderstoodIff(cfg, ev);
    forall id | Ends(ev, id) ensures Understand(cfg, ev) == Cancellation(id) {
    }
  }

  // The subscription's expiry is readable and over.
  predicate IsOver(s: Subscription, now: int) {
    s.expiresAt.At? && now > s.expiresAt.seconds * 1_000_000_000
  }

  // A tick expires the active subscriptions that are over and changes nothing else.
  lemma {:induction false} TickExpiresTheOverdue(cfg: HubConfig, w: World, now: int)
    ensures var w' := Step(cfg, w, ExpiryTick(now));
            && w'.waiters == w.waiters && w'.log == w.log && w'.subs.Keys == w.subs.Keys
            && (forall id :: id in w.subs ==>
                  w'.subs[id] == if w.subs[id].status == Active && IsOver(w.subs[id], now)
                                 then w.subs[id].(status := Expired) else w.subs[id])
            && forall id :: id in w'.subs && w'.subs[id].status == Active ==> !IsOver(w'.subs[id], now)
  {
  }

  ghost predicate TickedPast(s: Subscription, es: seq<Event>) {
    exists e :: e in es && e.ExpiryTick? && IsOver(s, e.now)
  }

  lemma {:induction false} OnlyTicksExpire(cfg: HubConfig, w: World, e: Event, id: string)
    requires id in Step(cfg, w, e).subs && Step(cfg, w, e).subs[id].status == Expired
    ensures || (id in w.subs && w.subs[id].status == Expired && Step(cfg, w, e).subs[id] == w.subs[id])
            || (e.ExpiryTick? && IsOver(Step(cfg, w, e).subs[id], e.now))
  {
  }

  // Whatever has expired in a run had a readable expiry, and a tick of the run came after it.
  lemma {:induction false} ExpiredWasOverdue(cfg: HubConfig, es: seq<Event>)
    ensures var subs := Run(cfg, START, es).subs;
            forall id :: id in subs && subs[id].status == Expired ==> TickedPast(subs[id], es)
    decreases |es|
  {
    if es != [] {
      var front, e := es[..|es| - 1], es[|es| - 1];
      assert es == front + [e];
      ExpiredWasOverdue(cfg, front);
      RunSnoc(cfg, front, e);
      var w, w' := Run(cfg, START, front), Run(cfg, START, es);
      forall id | id in w'.subs && w'.subs[id].status == Expired ensures TickedPast(w'.subs[id], es) {
        OnlyTicksExpire(cfg, w, e, id);
        if !(e.ExpiryTick? && IsOver(w'.subs[id], e.now)) {
          var e' :| e' in front && e'.ExpiryTick? && IsOver(w.subs[id], e'.now);
          assert e' in es;
        }
      }
    }
  }

  // The event cancels the subscription, if it is not over yet.
  ghost predicate AsksToCancel(e: Event, id: string) {
    || (e.CancelAsked? && e.id == id)
    || (e.Observed? && Ends(e.ev, id))
  }

  lemma {:induction false} StepOnActive(cfg: HubConfig, w: World, e: Event, id: string)
    requires id in w.subs && w.subs[id].status == Active
    ensures var s, subs' := w.subs[id], Step(cfg, w, e).subs;
            && id in subs'
            && subs'[id] == if AsksToCancel(e, id) then s.(status := Cancelled)
                            else if e.ExpiryTick? && IsOver(s, e.now) then s.(status := Expired)
                            else s
  {
    if e.Observed? {
      UnderstoodIff(cfg, e.ev);
      assert Understand(cfg, e.ev) == Cancellation(id) <==> Ends(e.ev, id);
    }
  }

  lemma {:induction false} StepOnOver(cfg: HubConfig, w: World, e: Event, id: string)
    requires id in w.subs && w.subs[id].status in {Expired, Cancelled}
    ensures id in Step(cfg, w, e).subs && Step(cfg, w, e).subs[id] == w.subs[id]
  {
  }

  lemma {:induction false} OverIsFinal(cfg: HubConfig, w: World, es: seq<Event>, id: string)
    requires id in w.subs && w.subs[id].status in {Expired, Cancelled}
    ensures id in Run(cfg, w, es).subs && Run(cfg, w, es).subs[id] == w.subs[id]
    decreases |es|
  {
    if es != [] {
      StepOnOver(cfg, w, es[0], id);
      OverIsFinal(cfg, Step(cfg, w, es[0]), es[1..], id);
    }
  }

  // The event would end the subscription if it is active.
  ghost predicate IsEnding(s: Subscription, id: string, e: Event) {
    AsksToCancel(e, id) || (e.ExpiryTick? && IsOver(s, e.now))
  }

  ghost function FirstEnding(s: Subscription, id: string, es: seq<Event>): (n: nat)
    ensures n <= |es| && (n < |es| ==> IsEnding(s, id, es[n]))
    ensures forall i :: 0 <= i < n ==> !IsEnding(s, id, es[i])
  {
    if es == [] || IsEnding(s, id, es[0]) then 0 else 1 + FirstEnding(s, id, es[1..])
  }

  // An active subscription ends with the first event that asks to cancel it or ticks past its
  // expiry, and as that event says; without such an event it stays as it is.
  lemma {:induction false} FirstEndingDecides(cfg: HubConfig, w: World, es: seq<Event>, id: string)
    requires id in w.subs && w.subs[id].status == Active
    ensures var s, subs', n := w.subs[id], Run(cfg, w, es).subs, FirstEnding(w.subs[id], id, es);
            && id in subs'
            && subs'[id] == if n == |es| then s
                            else s.(status := if es[n].ExpiryTick? then Expired else Cancelled)
    decreases |es|
  {
    if es != [] {
      var w' := Step(cfg, w, es[0]);
      StepOnActive(cfg, w, es[0], id);
      if IsEnding(w.subs[id], id, es[0]) {
        OverIsFinal(cfg, w', es[1..], id);
      } else {
        FirstEndingDecides(cfg, w', es[1..], id);
      }
    }
  }
}
