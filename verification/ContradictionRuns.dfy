// Evidence accounting over every run of recording and slashing, under any store listing order,
// any map iteration order and any pattern of broadcast failures.
module ContradictionRuns {
  import opened Common
  import opened Contradictions

  datatype Event =
    | Recorded(peer: string, milli: int)
    | Checked(listing: seq<nat>, order: seq<string>, accepts: string -> bool, lost: set<nat>)

  const START := State([], [])

  ghost predicate Legal(st: State, e: Event) {
    e.Checked? ==> Lists(st.records, e.listing) && Visits(st.records, e.listing, e.order)
  }

  ghost function Apply(t: nat, st: State, e: Event): State
    requires Legal(st, e)
  {
    match e
    case Recorded(peer, milli) => st.(records := AddRecord(st.records, peer, milli))
    case Checked(listing, order, accepts, lost) => SlashAll(t, st, listing, order, accepts, lost)
  }

  // The states reachable without a failing store update.
  ghost predicate Reaches(t: nat, es: seq<Event>, st: State) {
    if es == [] then st == START
    else
      var e := es[|es| - 1];
      && (e.Checked? ==> e.lost == {})
      && exists before: State :: Reaches(t, es[..|es| - 1], before) && Legal(before, e) && st == Apply(t, before, e)
  }

  // ----- Observations -----------------------------------------------------------------

  ghost function CitedBy(slashes: seq<Slash>): set<EvidenceId> {
    set i, id | 0 <= i < |slashes| && slashes[i].accepted && id in slashes[i].evidence :: id
  }

  function Accepted(slashes: seq<Slash>, x: string): nat {
    if slashes == [] then 0
    else
      var last := slashes[|slashes| - 1];
      Accepted(slashes[..|slashes| - 1], x) + if last.accepted && last.indexerId == x then 1 else 0
  }

  function RecordsOf(records: seq<Contradiction>, x: string): set<nat> {
    set i | 0 <= i < |records| && records[i].indexerId == x
  }

  function ResolvedOf(records: seq<Contradiction>, x: string): set<nat> {
    set i | 0 <= i < |records| && records[i].resolved && records[i].indexerId == x
  }

  // ----- The invariant ------------------------------------------------------------------

  ghost predicate UniqueEvidence(records: seq<Contradiction>) {
    forall i, j :: 0 <= i < j < |records| ==> records[i].evidenceId != records[j].evidenceId
  }

  ghost predicate ResolvedIffCited(st: State) {
    forall i :: 0 <= i < |st.records| ==> (st.records[i].resolved <==> st.records[i].evidenceId in CitedBy(st.slashes))
  }

  ghost predicate OnlyRecordedIsCited(st: State) {
    forall id :: id in CitedBy(st.slashes) ==> Known(st.records, id)
  }

  ghost predicate CitationsDisjoint(slashes: seq<Slash>) {
    forall i, j :: 0 <= i < j < |slashes| && slashes[i].accepted && slashes[j].accepted ==>
      Elems(slashes[i].evidence) !! Elems(slashes[j].evidence)
  }

  // What n accepted slashes cost in evidence.
  function Due(t: nat, n: nat): nat {
    if n == 0 then 0 else Due(t, n - 1) + t
  }

  ghost predicate PaidFor(t: nat, st: State) {
    forall x :: Due(t, Accepted(st.slashes, x)) <= |ResolvedOf(st.records, x)|
  }

  ghost predicate IsAbout(records: seq<Contradiction>, id: EvidenceId, x: string) {
    exists i :: 0 <= i < |records| && records[i].evidenceId == id && records[i].indexerId == x
  }

  // Every attempt cites at least a threshold of distinct records of the slashed indexer alone.
  ghost predicate WellFounded(t: nat, st: State) {
    forall k :: 0 <= k < |st.slashes| ==>
      && |st.slashes[k].evidence| >= t
      && NoDup(st.slashes[k].evidence)
      && forall id :: id in st.slashes[k].evidence ==> IsAbout(st.records, id, st.slashes[k].indexerId)
  }

  ghost predicate Inv(t: nat, st: State) {
    && UniqueEvidence(st.records) && ResolvedIffCited(st) && OnlyRecordedIsCited(st)
    && CitationsDisjoint(st.slashes) && PaidFor(t, st) && WellFounded(t, st)
  }

  // ----- Small facts ---------------------------------------------------------------------

  lemma {:induction false} SlashesSnoc(slashes: seq<Slash>, s: Slash)
    ensures CitedBy(slashes + [s]) == CitedBy(slashes) + (if s.accepted then Elems(s.evidence) else {})
    ensures forall x :: Accepted(slashes + [s], x) ==
              Accepted(slashes, x) + (if s.accepted && s.indexerId == x then 1 else 0)
  {
    var t := slashes + [s];
    assert t[..|slashes|] == slashes;
    forall id ensures id in CitedBy(t) <==> id in CitedBy(slashes) || (s.accepted && id in s.evidence) {
      if i :| 0 <= i < |slashes| && slashes[i].accepted && id in slashes[i].evidence {
        assert t[i] == slashes[i];
      }
      assert t[|slashes|] == s;
    }
  }

  lemma {:induction false} CitedEvidence(slashes: seq<Slash>, i: nat)
    requires i < |slashes| && slashes[i].accepted
    ensures Elems(slashes[i].evidence) <= CitedBy(slashes)
  {
  }

  lemma {:induction false} EvidenceOfDocs(records: seq<Contradiction>, docs: seq<nat>)
    requires InRange(docs, |records|) && UniqueEvidence(records)
    ensures forall i :: 0 <= i < |records| ==> (records[i].evidenceId in Evidence(records, docs) <==> i in docs)
    ensures NoDup(docs) ==> NoDup(Evidence(records, docs))
  {
    forall i: nat | i < |records| ensures records[i].evidenceId in Evidence(records, docs) <==> i in docs {
      EvidenceOfDoc(records, docs, i);
    }
    if NoDup(docs) {
      var ids := Evidence(records, docs);
      forall j, k | 0 <= j < k < |ids| ensures ids[j] != ids[k] {
        assert docs[j] != docs[k];
      }
    }
  }

  lemma {:induction false} EvidenceOfDoc(records: seq<Contradiction>, docs: seq<nat>, i: nat)
    requires InRange(docs, |records|) && UniqueEvidence(records) && i < |records|
    ensures records[i].evidenceId in Evidence(records, docs) <==> i in docs
  {
    var ids := Evidence(records, docs);
    if i in docs {
      var k :| 0 <= k < |docs| && docs[k] == i;
      assert ids[k] == records[i].evidenceId;
    }
    if records[i].evidenceId in ids {
      var k :| 0 <= k < |ids| && ids[k] == records[i].evidenceId;
      assert docs[k] == i;
    }
  }

  // ----- One group -------------------------------------------------------------------------

  // The group of an indexer as computed at the start of the check: exactly its open records.
  ghost predicate IsGroup(st: State, x: string, docs: seq<nat>) {
    NoDup(docs) && InRange(docs, |st.records|) && forall d: nat :: d in docs <==> d in OpenOf(st.records, x)
  }

  lemma {:induction false} AcceptedGroupAccounts(t: nat, st: State, x: string, docs: seq<nat>)
    requires Inv(t, st) && IsGroup(st, x, docs) && |docs| >= t
    ensures var st' := SlashGroup(t, st, x, docs, true, {});
            UniqueEvidence(st'.records) && ResolvedIffCited(st') && OnlyRecordedIsCited(st')
  {
    var st' := SlashGroup(t, st, x, docs, true, {});
    var s := Slash(x, Evidence(st.records, docs), true);
    SlashesSnoc(st.slashes, s);
    EvidenceOfDocs(st.records, docs);
    assert forall i :: 0 <= i < |st.records| ==> st'.records[i].evidenceId == st.records[i].evidenceId;
    forall id | id in CitedBy(st'.slashes) ensures Known(st'.records, id) {
      if id in CitedBy(st.slashes) {
        assert Known(st.records, id);
      } else {
        var k :| 0 <= k < |docs| && s.evidence[k] == id;
        assert st'.records[docs[k]].evidenceId == id;
      }
    }
  }

  lemma {:induction false} AcceptedGroupIsNew(t: nat, st: State, x: string, docs: seq<nat>)
    requires Inv(t, st) && IsGroup(st, x, docs)
    ensures CitationsDisjoint(st.slashes + [Slash(x, Evidence(st.records, docs), true)])
  {
    var evidence := Evidence(st.records, docs);
    forall k | 0 <= k < |docs| ensures evidence[k] !in CitedBy(st.slashes) {
      assert docs[k] in docs;
    }
    forall i | 0 <= i < |st.slashes| && st.slashes[i].accepted
      ensures Elems(st.slashes[i].evidence) !! Elems(evidence)
    {
      CitedEvidence(st.slashes, i);
    }
  }

  lemma {:induction false} ResolvingAddsTheGroup(st: State, x: string, docs: seq<nat>)
    requires IsGroup(st, x, docs)
    ensures |ResolvedOf(Resolve(st.records, docs, {}), x)| == |ResolvedOf(st.records, x)| + |docs|
  {
    CountElems(docs);
    assert ResolvedOf(Resolve(st.records, docs, {}), x) == ResolvedOf(st.records, x) + Elems(docs);
    assert ResolvedOf(st.records, x) !! Elems(docs);
  }

  lemma {:induction false} ResolvingSparesOthers(st: State, x: string, docs: seq<nat>, y: string)
    requires IsGroup(st, x, docs) && y != x
    ensures ResolvedOf(Resolve(st.records, docs, {}), y) == ResolvedOf(st.records, y)
  {
    var after := Resolve(st.records, docs, {});
    forall i | 0 <= i < |st.records| && st.records[i].indexerId == y ensures after[i] == st.records[i] {
      assert i !in docs;
    }
  }

  lemma {:induction false} AcceptedGroupIsPaidFor(t: nat, st: State, x: string, docs: seq<nat>)
    requires PaidFor(t, st) && IsGroup(st, x, docs) && |docs| >= t
    ensures PaidFor(t, SlashGroup(t, st, x, docs, true, {}))
  {
    var s := Slash(x, Evidence(st.records, docs), true);
    SlashesSnoc(st.slashes, s);
    ResolvingAddsTheGroup(st, x, docs);
    forall y | y != x ensures ResolvedOf(Resolve(st.records, docs, {}), y) == ResolvedOf(st.records, y) {
      ResolvingSparesOthers(st, x, docs, y);
    }
    PaymentGrows(t, st, x, Resolve(st.records, docs, {}), st.slashes + [s]);
  }

  lemma {:induction false} PaymentGrows(t: nat, st: State, x: string, records: seq<Contradiction>, slashes: seq<Slash>)
    requires PaidFor(t, st)
    requires forall y :: Accepted(slashes, y) == Accepted(st.slashes, y) + (if y == x then 1 else 0)
    requires |ResolvedOf(records, x)| >= |ResolvedOf(st.records, x)| + t
    requires forall y :: y != x ==> ResolvedOf(records, y) == ResolvedOf(st.records, y)
    ensures PaidFor(t, State(records, slashes))
  {
  }

  lemma {:induction false} StillAbout(records: seq<Contradiction>, records': seq<Contradiction>, id: EvidenceId,
                                      x: string)
    requires |records| <= |records'| && IsAbout(records, id, x)
    requires forall i :: 0 <= i < |records| ==>
               records'[i].evidenceId == records[i].evidenceId && records'[i].indexerId == records[i].indexerId
    ensures IsAbout(records', id, x)
  {
    var i :| 0 <= i < |records| && records[i].evidenceId == id && records[i].indexerId == x;
    assert records'[i].evidenceId == id;
  }

  lemma {:induction false} GroupIsAbout(st: State, x: string, docs: seq<nat>, records: seq<Contradiction>,
                                        id: EvidenceId)
    requires IsGroup(st, x, docs) && |records| == |st.records| && id in Evidence(st.records, docs)
    requires forall i :: 0 <= i < |records| ==>
               records[i].evidenceId == st.records[i].evidenceId && records[i].indexerId == st.records[i].indexerId
    ensures IsAbout(records, id, x)
  {
    var k :| 0 <= k < |docs| && Evidence(st.records, docs)[k] == id;
    assert docs[k] in docs;
    assert records[docs[k]].evidenceId == id;
  }

  lemma {:induction false} AttemptIsWellFounded(t: nat, st: State, x: string, docs: seq<nat>, accepted: bool)
    requires Inv(t, st) && IsGroup(st, x, docs) && |docs| >= t
    ensures WellFounded(t, SlashGroup(t, st, x, docs, accepted, {}))
  {
    var st' := SlashGroup(t, st, x, docs, accepted, {});
    EvidenceOfDocs(st.records, docs);
    forall id | id in Evidence(st.records, docs) ensures IsAbout(st'.records, id, x) {
      GroupIsAbout(st, x, docs, st'.records, id);
    }
    forall k, id | 0 <= k < |st.slashes| && id in st.slashes[k].evidence
      ensures IsAbout(st'.records, id, st.slashes[k].indexerId)
    {
      StillAbout(st.records, st'.records, id, st.slashes[k].indexerId);
    }
  }

  lemma {:induction false} GroupKeepsInv(t: nat, st: State, x: string, docs: seq<nat>, accepted: bool)
    requires Inv(t, st) && IsGroup(st, x, docs)
    ensures Inv(t, SlashGroup(t, st, x, docs, accepted, {}))
  {
    if |docs| >= t {
      AttemptIsWellFounded(t, st, x, docs, accepted);
      if accepted {
        AcceptedGroupAccounts(t, st, x, docs);
        AcceptedGroupIsNew(t, st, x, docs);
        AcceptedGroupIsPaidFor(t, st, x, docs);
      } else {
        SlashesSnoc(st.slashes, Slash(x, Evidence(st.records, docs), false));
      }
    }
  }

  // ----- One check ----------------------------------------------------------------------------

  // While the groups are visited, an indexer not yet visited keeps its open records.
  lemma {:induction false} VisitsKeepInv(t: nat, st: State, listing: seq<nat>, order: seq<string>,
                                         accepts: string -> bool)
    requires Inv(t, st) && Lists(st.records, listing) && NoDup(order)
    ensures Inv(t, SlashAll(t, st, listing, order, accepts, {}))
    ensures forall y :: y !in order ==>
              OpenOf(SlashAll(t, st, listing, order, accepts, {}).records, y) == OpenOf(st.records, y)
    decreases |order|
  {
    if order != [] {
      var front, x := order[..|order| - 1], order[|order| - 1];
      assert order == front + [x];
      assert x !in front;
      VisitsKeepInv(t, st, listing, front, accepts);
      var mid := SlashAll(t, st, listing, front, accepts, {});
      var docs := Group(st.records, listing, x);
      GroupHasNoRepeats(st.records, listing, x);
      assert OpenOf(mid.records, x) == OpenOf(st.records, x);
      assert forall d: nat :: d in docs <==> d in OpenOf(st.records, x);
      GroupKeepsInv(t, mid, x, docs, accepts(x));
      OthersStayOpen(t, mid, x, docs, accepts(x));
    }
  }

  lemma {:induction false} OthersStayOpen(t: nat, st: State, x: string, docs: seq<nat>, accepted: bool)
    requires IsGroup(st, x, docs)
    ensures forall y :: y != x ==> OpenOf(SlashGroup(t, st, x, docs, accepted, {}).records, y) == OpenOf(st.records, y)
  {
    var st' := SlashGroup(t, st, x, docs, accepted, {});
    forall i | 0 <= i < |st.records| && st.records[i].indexerId != x ensures st'.records[i] == st.records[i] {
      assert i !in docs;
    }
  }

  // ----- Recording ------------------------------------------------------------------------------

  lemma {:induction false} RecordingKeepsInv(t: nat, st: State, peer: string, milli: int)
    requires Inv(t, st)
    ensures Inv(t, st.(records := AddRecord(st.records, peer, milli)))
  {
    var st' := st.(records := AddRecord(st.records, peer, milli));
    var n := |st.records|;
    assert forall i :: 0 <= i < n ==> st'.records[i] == st.records[i];
    forall id | Known(st.records, id) ensures Known(st'.records, id) {
      var i :| 0 <= i < n && st.records[i].evidenceId == id;
      assert st'.records[i].evidenceId == id;
    }
    forall y ensures ResolvedOf(st'.records, y) == ResolvedOf(st.records, y) {
    }
    forall k, id | 0 <= k < |st.slashes| && id in st.slashes[k].evidence
      ensures IsAbout(st'.records, id, st.slashes[k].indexerId)
    {
      StillAbout(st.records, st'.records, id, st.slashes[k].indexerId);
    }
  }

  lemma {:induction false} EveryReachableStateAccounts(t: nat, es: seq<Event>, st: State)
    requires Reaches(t, es, st)
    ensures Inv(t, st)
    decreases |es|
  {
    if es != [] {
      var e := es[|es| - 1];
      var before: State :| Reaches(t, es[..|es| - 1], before) && Legal(before, e) && st == Apply(t, before, e);
      EveryReachableStateAccounts(t, es[..|es| - 1], before);
      match e
      case Recorded(peer, milli) => RecordingKeepsInv(t, before, peer, milli);
      case Checked(listing, order, accepts, _) => VisitsKeepInv(t, before, listing, order, accepts);
    }
  }

  lemma {:induction false} DueIsProduct(t: nat, n: nat)
    ensures Due(t, n) == t * n
  {
    if n > 0 {
      DueIsProduct(t, n - 1);
      assert t * n == t * (n - 1) + t;
    }
  }

  // ----- Main results -----------------------------------------------------------------------------

  // No evidence is spent twice, all recorded evidence is either still open or spent, and an
  // indexer is slashed at most once per threshold of contradictions recorded against it.
  lemma {:induction false} EvidenceIsAccountedFor(t: nat, es: seq<Event>, st: State)
    requires Reaches(t, es, st)
    ensures CitationsDisjoint(st.slashes)
    ensures forall i :: 0 <= i < |st.records| ==>
              (!st.records[i].resolved <==> st.records[i].evidenceId !in CitedBy(st.slashes))
    ensures forall id :: id in CitedBy(st.slashes) ==> Known(st.records, id)
    ensures forall x :: t * Accepted(st.slashes, x) <= |RecordsOf(st.records, x)|
    ensures WellFounded(t, st)
  {
    EveryReachableStateAccounts(t, es, st);
    forall x ensures t * Accepted(st.slashes, x) <= |RecordsOf(st.records, x)| {
      DueIsProduct(t, Accepted(st.slashes, x));
      SubsetCard(ResolvedOf(st.records, x), RecordsOf(st.records, x));
    }
  }

  // What one check does to a record, whatever the orders and whichever updates are lost.
  ghost predicate Spent(t: nat, st: State, i: nat, accepts: string -> bool)
    requires i < |st.records|
  {
    var x := st.records[i].indexerId;
    !st.records[i].resolved && accepts(x) && |OpenOf(st.records, x)| >= t
  }

  lemma {:induction false} GroupSize(st: State, listing: seq<nat>, x: string)
    requires Lists(st.records, listing)
    ensures IsGroup(st, x, Group(st.records, listing, x))
    ensures |Group(st.records, listing, x)| == |OpenOf(st.records, x)|
  {
    var docs := Group(st.records, listing, x);
    GroupHasNoRepeats(st.records, listing, x);
    CountElems(docs);
    assert Elems(docs) == OpenOf(st.records, x);
  }

  lemma {:induction false} VisitsResolve(t: nat, st: State, listing: seq<nat>, order: seq<string>,
                                         accepts: string -> bool, lost: set<nat>)
    requires Lists(st.records, listing) && NoDup(order)
    ensures forall i :: 0 <= i < |st.records| ==>
              SlashAll(t, st, listing, order, accepts, lost).records[i] ==
                if Spent(t, st, i, accepts) && st.records[i].indexerId in order && i !in lost
                then st.records[i].(resolved := true) else st.records[i]
    decreases |order|
  {
    if order != [] {
      var front, x := order[..|order| - 1], order[|order| - 1];
      assert order == front + [x];
      VisitsResolve(t, st, listing, front, accepts, lost);
      GroupSize(st, listing, x);
    }
  }

  // The records a check cites in accepted slashes.
  ghost predicate CitedNow(t: nat, st: State, order: seq<string>, accepts: string -> bool, id: EvidenceId) {
    exists i :: 0 <= i < |st.records| && st.records[i].evidenceId == id
                && Spent(t, st, i, accepts) && st.records[i].indexerId in order
  }

  lemma {:induction false} GroupCites(t: nat, st: State, listing: seq<nat>, mid: seq<Contradiction>, x: string,
                                      id: EvidenceId)
    requires Lists(st.records, listing) && |mid| == |st.records|
    requires forall i :: 0 <= i < |mid| ==> mid[i].evidenceId == st.records[i].evidenceId
    ensures id in Evidence(mid, Group(st.records, listing, x)) <==>
            exists i :: 0 <= i < |st.records| && st.records[i].evidenceId == id && i in OpenOf(st.records, x)
  {
    GroupSize(st, listing, x);
    var docs := Group(st.records, listing, x);
    var ids := Evidence(mid, docs);
    if k :| 0 <= k < |docs| && ids[k] == id {
      assert docs[k] in docs;
      assert st.records[docs[k]].evidenceId == id;
    }
    if i :| 0 <= i < |st.records| && st.records[i].evidenceId == id && i in OpenOf(st.records, x) {
      assert i in docs;
      var k :| 0 <= k < |docs| && docs[k] == i;
      assert ids[k] == id;
    }
  }

  lemma {:induction false} VisitsCite(t: nat, st: State, listing: seq<nat>, order: seq<string>,
                                      accepts: string -> bool, lost: set<nat>, id: EvidenceId)
    requires Lists(st.records, listing) && NoDup(order)
    ensures id in CitedBy(SlashAll(t, st, listing, order, accepts, lost).slashes) <==>
            id in CitedBy(st.slashes) || CitedNow(t, st, order, accepts, id)
    decreases |order|
  {
    if order != [] {
      var front, x := order[..|order| - 1], order[|order| - 1];
      assert order == front + [x];
      VisitsCite(t, st, listing, front, accepts, lost, id);
      GroupSize(st, listing, x);
      var mid := SlashAll(t, st, listing, front, accepts, lost);
      var ids := Evidence(mid.records, Group(st.records, listing, x));
      SlashesSnoc(mid.slashes, Slash(x, ids, accepts(x)));
      GroupCites(t, st, listing, mid.records, x, id);
      CitedNowSnoc(t, st, front, x, accepts, id);
    }
  }

  lemma {:induction false} CitedNowSnoc(t: nat, st: State, front: seq<string>, x: string, accepts: string -> bool,
                                        id: EvidenceId)
    ensures CitedNow(t, st, front + [x], accepts, id) <==>
            || CitedNow(t, st, front, accepts, id)
            || (accepts(x) && |OpenOf(st.records, x)| >= t
                && exists i :: 0 <= i < |st.records| && st.records[i].evidenceId == id && i in OpenOf(st.records, x))
  {
    var order := front + [x];
    if i :| 0 <= i < |st.records| && st.records[i].evidenceId == id
            && Spent(t, st, i, accepts) && st.records[i].indexerId in front
    {
      assert st.records[i].indexerId in order;
    }
    if accepts(x) && |OpenOf(st.records, x)| >= t {
      if i :| 0 <= i < |st.records| && st.records[i].evidenceId == id && i in OpenOf(st.records, x) {
        assert Spent(t, st, i, accepts) && st.records[i].indexerId in order;
      }
    }
  }

  // A check resolves exactly the open records of the indexers at or over the threshold whose
  // slash the hub accepts: neither the listing order nor the iteration order matters.
  lemma {:induction false} CheckOutcome(t: nat, st: State, listing: seq<nat>, order: seq<string>,
                                        accepts: string -> bool, lost: set<nat>)
    requires Legal(st, Checked(listing, order, accepts, lost))
    ensures var st' := SlashAll(t, st, listing, order, accepts, lost);
            forall i :: 0 <= i < |st.records| ==>
              st'.records[i] == if Spent(t, st, i, accepts) && i !in lost
                                then st.records[i].(resolved := true) else st.records[i]
  {
    VisitsResolve(t, st, listing, order, accepts, lost);
    OpenRecordsAreVisited(st, listing, order);
  }

  lemma {:induction false} OpenRecordsAreVisited(st: State, listing: seq<nat>, order: seq<string>)
    requires Lists(st.records, listing) && Visits(st.records, listing, order)
    ensures forall i :: 0 <= i < |st.records| && !st.records[i].resolved ==> st.records[i].indexerId in order
  {
    forall i: nat | i < |st.records| && !st.records[i].resolved ensures st.records[i].indexerId in order {
      assert i in OpenDocs(st.records);
      assert i in listing;
    }
  }

  // Resolved keeps meaning cited across a check if and only if no cited record's update is lost.
  lemma {:induction false} AccountingSurvivesACheckIff(t: nat, st: State, listing: seq<nat>, order: seq<string>,
                                                       accepts: string -> bool, lost: set<nat>)
    requires Inv(t, st) && Legal(st, Checked(listing, order, accepts, lost))
    ensures ResolvedIffCited(SlashAll(t, st, listing, order, accepts, lost)) <==>
            forall i :: 0 <= i < |st.records| && Spent(t, st, i, accepts) ==> i !in lost
  {
    var st' := SlashAll(t, st, listing, order, accepts, lost);
    CheckOutcome(t, st, listing, order, accepts, lost);
    OpenRecordsAreVisited(st, listing, order);
    forall i | 0 <= i < |st.records|
      ensures st'.records[i].evidenceId in CitedBy(st'.slashes) <==> st.records[i].resolved || Spent(t, st, i, accepts)
    {
      var id := st.records[i].evidenceId;
      VisitsCite(t, st, listing, order, accepts, lost, id);
      assert forall j :: 0 <= j < |st.records| && st.records[j].evidenceId == id ==> j == i;
    }
  }

  // ----- What a lost update costs -----------------------------------------------------------

  // Two accepted slashes cite the same evidence.
  ghost predicate CitedTwice(slashes: seq<Slash>, id: EvidenceId) {
    exists j, k :: 0 <= j < k < |slashes| && slashes[j].accepted && slashes[k].accepted
                   && id in slashes[j].evidence && id in slashes[k].evidence
  }

  // A check only appends slashes, and which ones depends neither on earlier slashes nor on lost
  // updates.
  lemma {:induction false} SlashesAppended(t: nat, st: State, listing: seq<nat>, order: seq<string>,
                                           accepts: string -> bool, lost: set<nat>)
    requires InRange(listing, |st.records|)
    ensures SlashAll(t, st, listing, order, accepts, lost).slashes
         == st.slashes + SlashAll(t, State(st.records, []), listing, order, accepts, {}).slashes
    decreases |order|
  {
    if order != [] {
      var front, x := order[..|order| - 1], order[|order| - 1];
      SlashesAppended(t, st, listing, front, accepts, lost);
      var a := SlashAll(t, st, listing, front, accepts, lost);
      var b := SlashAll(t, State(st.records, []), listing, front, accepts, {});
      SameEvidence(a.records, b.records, Group(st.records, listing, x));
    }
  }

  lemma {:induction false} SameEvidence(a: seq<Contradiction>, b: seq<Contradiction>, docs: seq<nat>)
    requires |a| == |b| && InRange(docs, |a|)
    requires forall i :: 0 <= i < |a| ==> a[i].(resolved := true) == b[i].(resolved := true)
    ensures Evidence(a, docs) == Evidence(b, docs)
  {
    forall i | 0 <= i < |docs| ensures a[docs[i]].evidenceId == b[docs[i]].evidenceId {
      assert a[docs[i]].(resolved := true).evidenceId == b[docs[i]].(resolved := true).evidenceId;
    }
  }

  lemma {:induction false} CitedTwiceAcross(past: seq<Slash>, recent: seq<Slash>, id: EvidenceId)
    ensures id in CitedBy(past) && id in CitedBy(recent) ==> CitedTwice(past + recent, id)
    ensures CitedTwice(past + recent, id) && id !in CitedBy(recent) ==> CitedTwice(past, id)
  {
    var all := past + recent;
    if id in CitedBy(past) && id in CitedBy(recent) {
      var j :| 0 <= j < |past| && past[j].accepted && id in past[j].evidence;
      var k :| 0 <= k < |recent| && recent[k].accepted && id in recent[k].evidence;
      assert all[j] == past[j] && all[|past| + k] == recent[k];
    }
    if CitedTwice(all, id) && id !in CitedBy(recent) {
      var j, k :| 0 <= j < k < |all| && all[j].accepted && all[k].accepted
                  && id in all[j].evidence && id in all[k].evidence;
      assert past[j] == all[j] && past[k] == all[k];
    }
  }

  lemma {:induction false} DisjointMeansOnce(slashes: seq<Slash>, id: EvidenceId)
    requires CitationsDisjoint(slashes)
    ensures !CitedTwice(slashes, id)
  {
    forall j, k | 0 <= j < k < |slashes| && slashes[j].accepted && slashes[k].accepted
      ensures !(id in slashes[j].evidence && id in slashes[k].evidence)
    {
      assert id in slashes[j].evidence <==> id in Elems(slashes[j].evidence);
      assert id in slashes[k].evidence <==> id in Elems(slashes[k].evidence);
    }
  }

  // A lost update leaves the record open after its evidence was spent, but not spent twice yet.
  lemma {:induction false} LostUpdateLeavesOpen(t: nat, st: State, listing: seq<nat>, order: seq<string>,
                                                accepts: string -> bool, lost: set<nat>, i: nat)
    requires Inv(t, st) && Legal(st, Checked(listing, order, accepts, lost))
    requires i < |st.records| && Spent(t, st, i, accepts) && i in lost
    ensures var st' := SlashAll(t, st, listing, order, accepts, lost);
            var id := st.records[i].evidenceId;
            && st'.records[i] == st.records[i]
            && id in CitedBy(st'.slashes) && !CitedTwice(st'.slashes, id)
  {
    var id := st.records[i].evidenceId;
    CheckOutcome(t, st, listing, order, accepts, lost);
    OpenRecordsAreVisited(st, listing, order);
    VisitsCite(t, st, listing, order, accepts, lost, id);
    SlashesAppended(t, st, listing, order, accepts, lost);
    SlashesAppended(t, st, listing, order, accepts, {});
    VisitsKeepInv(t, st, listing, order, accepts);
    DisjointMeansOnce(SlashAll(t, st, listing, order, accepts, {}).slashes, id);
  }

  // After a check lost the update of a record it spent, and whatever was recorded since, the next
  // check makes a second accepted slash cite the same evidence if and only if the hub accepts the
  // slash of that indexer and the indexer's open records still reach the threshold.
  lemma {:induction false} LostEvidenceIsCitedAgainIff(
      t: nat, st: State, first: Event, i: nat, between: State, second: Event)
    requires Inv(t, st) && first.Checked? && Legal(st, first)
    requires i < |st.records| && Spent(t, st, i, first.accepts) && i in first.lost
    requires Apply(t, st, first).records <= between.records && between.slashes == Apply(t, st, first).slashes
    requires second.Checked? && Legal(between, second) && UniqueEvidence(between.records)
    ensures var x := st.records[i].indexerId;
            var id := st.records[i].evidenceId;
            var final := Apply(t, between, second);
            var again := second.accepts(x) && |OpenOf(between.records, x)| >= t;
            && (CitedTwice(final.slashes, id) <==> again)
            && (again ==> !CitationsDisjoint(final.slashes))
  {
    var id := st.records[i].evidenceId;
    LostUpdateLeavesOpen(t, st, first.listing, first.order, first.accepts, first.lost, i);
    assert between.records[i] == st.records[i];
    var start := State(between.records, []);
    var recent := SlashAll(t, start, second.listing, second.order, second.accepts, {}).slashes;
    SlashesAppended(t, between, second.listing, second.order, second.accepts, second.lost);
    VisitsCite(t, start, second.listing, second.order, second.accepts, {}, id);
    OpenRecordsAreVisited(between, second.listing, second.order);
    assert id in CitedBy(recent) <==> Spent(t, start, i, second.accepts) by {
      assert forall j :: 0 <= j < |between.records| && between.records[j].evidenceId == id ==> j == i;
      assert Spent(t, start, i, second.accepts) ==> CitedNow(t, start, second.order, second.accepts, id);
    }
    CitedTwiceAcross(between.slashes, recent, id);
    if CitationsDisjoint(between.slashes + recent) {
      DisjointMeansOnce(between.slashes + recent, id);
    }
  }
}
