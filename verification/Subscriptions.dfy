// The subscription lifecycle: create, activate on payment, cancel, expire. Subscriptions are
// unique by id.
module Subscriptions {
  import opened Common

  datatype Status = Pending | Active | Expired | Cancelled

  // An expiry column: empty, unreadable, or a time in whole seconds.
  datatype Expiry = Never | Unreadable | At(seconds: int)

  datatype Subscription = Subscription(hostId: string, indexerId: string, subType: string, blockFrom: int, blockTo: int,
                                       status: Status, paymentRef: string, activatedAt: Option<int>, expiresAt: Expiry)

  datatype CreateRequest = CreateRequest(hostId: string, indexerId: string, subType: string,
                                         blockFrom: int, blockTo: int)

  datatype SubError =
    | HostRequired | IndexerRequired | BadSubType | RangeRequired | RangeInverted
    | IndexerUnavailable | IdTaken | NotFound | NotPending | AlreadyOver

  const TIP := "tip"
  const SNAPSHOT := "snapshot"

  function ValidateCreate(req: CreateRequest): Option<SubError> {
    if req.hostId == "" then Some(HostRequired)
    else if req.indexerId == "" then Some(IndexerRequired)
    else if req.subType != TIP && req.subType != SNAPSHOT then Some(BadSubType)
    else if req.subType == SNAPSHOT && (req.blockFrom == 0 || req.blockTo == 0) then Some(RangeRequired)
    else if req.subType == SNAPSHOT && req.blockFrom >= req.blockTo then Some(RangeInverted)
    else None
  }

  type Subs = map<string, Subscription>

  function NewSubscription(req: CreateRequest): Subscription {
    Subscription(req.hostId, req.indexerId, req.subType, req.blockFrom, req.blockTo, Pending, "", None, Never)
  }

  function CreateSub(subs: Subs, id: string, req: CreateRequest, indexerActive: bool): (Subs, Result<(), SubError>) {
    if ValidateCreate(req).Some? then (subs, Failure(ValidateCreate(req).value))
    else if !indexerActive then (subs, Failure(IndexerUnavailable))
    else if id in subs then (subs, Failure(IdTaken))
    else (subs[id := NewSubscription(req)], Success(()))
  }

  function ActivateSub(subs: Subs, id: string, paymentRef: string, expiresAt: Expiry, now: int)
    : (Subs, Result<(), SubError>)
  {
    if id !in subs then (subs, Failure(NotFound))
    else if subs[id].status != Pending then (subs, Failure(NotPending))
    else (subs[id := subs[id].(status := Active, paymentRef := paymentRef, activatedAt := Some(Stamp(now)),
                               expiresAt := if expiresAt == Never then subs[id].expiresAt else expiresAt)],
          Success(()))
  }

  function CancelSub(subs: Subs, id: string): (Subs, Result<(), SubError>) {
    if id !in subs then (subs, Failure(NotFound))
    else if subs[id].status == Expired || subs[id].status == Cancelled then (subs, Failure(AlreadyOver))
    else (subs[id := subs[id].(status := Cancelled)], Success(()))
  }

  predicate Overdue(s: Subscription, now: int) {
    s.status == Active && s.expiresAt.At? && now > s.expiresAt.seconds * SECOND
  }

  function ExpireSubs(subs: Subs, now: int): Subs {
    map id | id in subs :: if Overdue(subs[id], now) then subs[id].(status := Expired) else subs[id]
  }

  class SubscriptionManager {
    var subs: Subs

    constructor ()
      ensures subs == map[]
    {
      subs := map[];
    }

    method Create(id: string, req: CreateRequest, indexerActive: bool) returns (r: Result<(), SubError>)
      modifies this
      ensures (subs, r) == CreateSub(old(subs), id, req, indexerActive)
    {
      var problem := ValidateCreate(req);
      if problem.Some? {
        return Failure(problem.value);
      }
      if !indexerActive {
        return Failure(IndexerUnavailable);
      }
      if id in subs {
        return Failure(IdTaken);
      }
      subs := subs[id := Subscription(req.hostId, req.indexerId, req.subType, req.blockFrom, req.blockTo,
                                      Pending, "", None, Never)];
      return Success(());
    }

    method Activate(id: string, paymentRef: string, expiresAt: Expiry, now: int) returns (r: Result<(), SubError>)
      modifies this
      ensures (subs, r) == ActivateSub(old(subs), id, paymentRef, expiresAt, now)
    {
      if id !in subs {
        return Failure(NotFound);
      }
      var sub := subs[id];
      if sub.status != Pending {
        return Failure(NotPending);
      }
      sub := sub.(status := Active, paymentRef := paymentRef, activatedAt := Some(Stamp(now)));
      if expiresAt != Never {
        sub := sub.(expiresAt := expiresAt);
      }
      subs := subs[id := sub];
      return Success(());
    }

    method Cancel(id: string) returns (r: Result<(), SubError>)
      modifies this
      ensures (subs, r) == CancelSub(old(subs), id)
    {
      if id !in subs {
        return Failure(NotFound);
      }
      var sub := subs[id];
      if sub.status == Expired || sub.status == Cancelled {
        return Failure(AlreadyOver);
      }
      subs := subs[id := sub.(status := Cancelled)];
      return Success(());
    }

    // One tick of the expiry loop, over the store's listing of active subscriptions.
    method ExpireOverdue(actives: seq<string>, now: int)
      requires forall id :: id in actives <==> id in subs && subs[id].status == Active
      modifies this
      ensures subs == ExpireSubs(old(subs), now)
    {
      ghost var before := subs;
      for i := 0 to |actives|
        invariant subs.Keys == before.Keys
        invariant forall id :: id in subs ==>
                    subs[id] == if id in actives[..i] && Overdue(before[id], now)
                                then before[id].(status := Expired) else before[id]
      {
        assert actives[..i + 1] == actives[..i] + [actives[i]];
        var sub := subs[actives[i]];
        if sub.expiresAt.At? && now > sub.expiresAt.seconds * SECOND {
          subs := subs[actives[i] := sub.(status := Expired)];
        }
      }
      assert actives[..|actives|] == actives;
    }
  }
}
