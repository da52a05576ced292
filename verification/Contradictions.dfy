// Probe contradictions: recorded one by one, grouped by indexer, slashed at a threshold, and
// resolved only after the hub accepted the slash. A record's position is its document id.
module Contradictions {
  import opened Common

  // The prober names evidence after the peer and the millisecond; the store keeps names unique.
  datatype EvidenceId = EvidenceId(peer: string, milli: int)

  datatype Contradiction = Contradiction(evidenceId: EvidenceId, indexerId: string, resolved: bool)

  datatype Slash = Slash(indexerId: string, evidence: seq<EvidenceId>, accepted: bool)

  datatype State = State(records: seq<Contradiction>, slashes: seq<Slash>)

  function Threshold(configured: int): nat {
    if configured <= 0 then 3 else configured
  }

  // ----- Specification ------------------------------------------------------------------

  predicate Known(records: seq<Contradiction>, id: EvidenceId) {
    exists i :: 0 <= i < |records| && records[i].evidenceId == id
  }

  function AddRecord(records: seq<Contradiction>, peer: string, milli: int): seq<Contradiction> {
    if Known(records, EvidenceId(peer, milli)) then records
    else records + [Contradiction(EvidenceId(peer, milli), peer, false)]
  }

  function OpenDocs(records: seq<Contradiction>): set<nat> {
    set i | 0 <= i < |records| && !records[i].resolved
  }

  function OpenOf(records: seq<Contradiction>, x: string): set<nat> {
    set i | 0 <= i < |records| && !records[i].resolved && records[i].indexerId == x
  }

  ghost predicate InRange(docs: seq<nat>, n: nat) {
    forall i :: 0 <= i < |docs| ==> docs[i] < n
  }

  // One listing of the open records, in whatever order the store produces it.
  ghost predicate Lists(records: seq<Contradiction>, listing: seq<nat>) {
    NoDup(listing) && InRange(listing, |records|) && forall d :: d in listing <==> d in OpenDocs(records)
  }

  // The indexers named in a listing, in whatever order the map iteration produces them.
  ghost predicate Visits(records: seq<Contradiction>, listing: seq<nat>, order: seq<string>)
    requires Lists(records, listing)
  {
    NoDup(order) && forall x :: x in order <==> exists d :: d in listing && records[d].indexerId == x
  }

  function Group(records: seq<Contradiction>, listing: seq<nat>, x: string): (docs: seq<nat>)
    requires InRange(listing, |records|)
    ensures InRange(docs, |records|)
    ensures forall d :: d in docs <==> d in listing && records[d].indexerId == x
  {
    if listing == [] then []
    else
      assert listing == listing[..|listing| - 1] + [listing[|listing| - 1]];
      var front, last := Group(records, listing[..|listing| - 1], x), listing[|listing| - 1];
      if records[last].indexerId == x then front + [last] else front
  }

  function Evidence(records: seq<Contradiction>, docs: seq<nat>): (ids: seq<EvidenceId>)
    requires InRange(docs, |records|)
    ensures |ids| == |docs| && forall i :: 0 <= i < |docs| ==> ids[i] == records[docs[i]].evidenceId
  {
    if docs == [] then []
    else Evidence(records, docs[..|docs| - 1]) + [records[docs[|docs| - 1]].evidenceId]
  }

  function Resolve(records: seq<Contradiction>, docs: seq<nat>, lost: set<nat>): (r: seq<Contradiction>)
    ensures |r| == |records|
    ensures forall i :: 0 <= i < |records| ==>
              r[i] == if i in docs && i !in lost then records[i].(resolved := true) else records[i]
  {
    if docs == [] then records
    else
      var front, last := Resolve(records, docs[..|docs| - 1], lost), docs[|docs| - 1];
      assert docs == docs[..|docs| - 1] + [last];
      if last < |records| && last !in lost then front[last := front[last].(resolved := true)] else front
  }

  // One group: below the threshold nothing happens; otherwise one broadcast, and only its
  // acceptance resolves the records (`lost` are those whose update fails).
  function SlashGroup(t: nat, st: State, x: string, docs: seq<nat>, accepted: bool, lost: set<nat>): State
    requires InRange(docs, |st.records|)
  {
    if |docs| < t then st
    else State(if accepted then Resolve(st.records, docs, lost) else st.records,
               st.slashes + [Slash(x, Evidence(st.records, docs), accepted)])
  }

  function SlashAll(t: nat, st: State, listing: seq<nat>, order: seq<string>, accepts: string -> bool, lost: set<nat>)
    : (r: State)
    requires InRange(listing, |st.records|)
    ensures |r.records| == |st.records|
    ensures forall i :: 0 <= i < |st.records| ==> r.records[i].(resolved := true) == st.records[i].(resolved := true)
  {
    if order == [] then st
    else
      var front, x := SlashAll(t, st, listing, order[..|order| - 1], accepts, lost), order[|order| - 1];
      SlashGroup(t, front, x, Group(st.records, listing, x), accepts(x), lost)
  }

  lemma {:induction false} GroupHasNoRepeats(records: seq<Contradiction>, listing: seq<nat>, x: string)
    requires InRange(listing, |records|) && NoDup(listing)
    ensures NoDup(Group(records, listing, x))
  {
    if listing != [] {
      var front, last := listing[..|listing| - 1], listing[|listing| - 1];
      assert listing == front + [last];
      GroupHasNoRepeats(records, front, x);
      assert last !in front;
    }
  }

  lemma {:induction false} GroupsCoverOrder(records: seq<Contradiction>, listing: seq<nat>, order: seq<string>,
                                            x: string)
    requires Lists(records, listing) && Visits(records, listing, order) && x in order
    ensures Group(records, listing, x) != []
  {
    var d :| d in listing && records[d].indexerId == x;
    assert d in Group(records, listing, x);
  }

  lemma {:induction false} NothingListed(records: seq<Contradiction>, listing: seq<nat>, order: seq<string>)
    requires Lists(records, listing) && Visits(records, listing, order)
    ensures order != [] ==> listing != []
  {
    if order != [] {
      GroupsCoverOrder(records, listing, order, order[0]);
    }
  }

  // ----- The aggregator -------------------------------------------------------------------

  class Aggregator {
    const threshold: int
    var records: seq<Contradiction>
    var slashes: seq<Slash>  // every slash broadcast attempted, in order

    function Contents(): State
      reads this
    {
      State(records, slashes)
    }

    constructor (threshold: int)
      ensures this.threshold == threshold && Contents() == State([], [])
    {
      this.threshold := threshold;
      records, slashes := [], [];
    }

    method RecordContradiction(peer: string, milli: int) returns (created: bool)
      modifies this`records
      ensures records == AddRecord(old(records), peer, milli)
      ensures created <==> !Known(old(records), EvidenceId(peer, milli))
    {
      for i := 0 to |records|
        invariant forall j :: 0 <= j < i ==> records[j].evidenceId != EvidenceId(peer, milli)
      {
        if records[i].evidenceId == EvidenceId(peer, milli) {
          return false;
        }
      }
      records := records + [Contradiction(EvidenceId(peer, milli), peer, false)];
      return true;
    }

    method CheckAndSlash(listing: seq<nat>, order: seq<string>, accepts: string -> bool, lost: set<nat>)
      requires Lists(records, listing) && Visits(records, listing, order)
      modifies this
      ensures Contents() == SlashAll(Threshold(threshold), old(Contents()), listing, order, accepts, lost)
    {
      if |listing| == 0 {
        NothingListed(records, listing, order);
        return;
      }
      var grouped := GroupByIndexer(listing);
      var t := Threshold(threshold);
      ghost var before := Contents();
      for i := 0 to |order|
        invariant Contents() == SlashAll(t, before, listing, order[..i], accepts, lost)
        invariant |records| == |before.records|
        invariant forall d :: 0 <= d < |records| ==>
                    records[d].(resolved := true) == before.records[d].(resolved := true)
      {
        assert order[..i + 1][..i] == order[..i];
        var indexer := order[i];
        GroupsCoverOrder(before.records, listing, order, indexer);
        var recs := grouped[indexer];
        SlashIndexer(t, indexer, recs, accepts(indexer), lost);
      }
      assert order[..|order|] == order;
    }

    // One iteration of the slashing loop.
    method SlashIndexer(t: nat, indexer: string, recs: seq<nat>, accepted: bool, lost: set<nat>)
      requires InRange(recs, |records|)
      modifies this
      ensures Contents() == SlashGroup(t, old(Contents()), indexer, recs, accepted, lost)
    {
      if |recs| < t {
        return;
      }
      var evidenceIds := CollectEvidence(recs);
      slashes := slashes + [Slash(indexer, evidenceIds, accepted)];
      if accepted {
        MarkResolved(recs, lost);
      }
    }

    method CollectEvidence(recs: seq<nat>) returns (ids: seq<EvidenceId>)
      requires InRange(recs, |records|)
      ensures ids == Evidence(records, recs)
    {
      ids := [];
      for j := 0 to |recs|
        invariant ids == Evidence(records, recs[..j])
      {
        assert recs[..j + 1][..j] == recs[..j];
        ids := ids + [records[recs[j]].evidenceId];
      }
      assert recs[..|recs|] == recs;
    }

    method GroupByIndexer(listing: seq<nat>) returns (grouped: map<string, seq<nat>>)
      requires InRange(listing, |records|)
      ensures forall x :: if x in grouped then grouped[x] == Group(records, listing, x) != []
                          else Group(records, listing, x) == []
    {
      grouped := map[];
      for i := 0 to |listing|
        invariant forall x :: if x in grouped then grouped[x] == Group(records, listing[..i], x) != []
                              else Group(records, listing[..i], x) == []
      {
        assert listing[..i + 1][..i] == listing[..i];
        var x := records[listing[i]].indexerId;
        grouped := grouped[x := (if x in grouped then grouped[x] else []) + [listing[i]]];
      }
      assert listing[..|listing|] == listing;
    }

    method MarkResolved(docs: seq<nat>, lost: set<nat>)
      requires InRange(docs, |records|)
      modifies this`records
      ensures records == Resolve(old(records), docs, lost)
    {
      for i := 0 to |docs|
        invariant records == Resolve(old(records), docs[..i], lost)
      {
        assert docs[..i + 1][..i] == docs[..i];
        if docs[i] !in lost {
          records := records[docs[i] := records[docs[i]].(resolved := true)];
        }
      }
      assert docs[..|docs|] == docs;
    }
  }
}
