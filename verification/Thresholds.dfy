// What the configured contradiction threshold means for runs and for one check. A number that is
// not positive stands for three.
module Thresholds {
  import opened Common
  import opened Contradictions
  import opened ContradictionRuns

  // ----- What was recorded ----------------------------------------------------------------------

  // The milliseconds at which a run recorded a failed probe of an indexer.
  ghost function Failures(es: seq<Event>, x: string): set<int> {
    set e | e in es && e.Recorded? && e.peer == x :: e.milli
  }

  // The records on file are the failed probes of the run, one for each indexer and millisecond.
  ghost predicate Files(es: seq<Event>, records: seq<Contradiction>) {
    && NamesPeers(records)
    && (forall x, milli :: Known(records, EvidenceId(x, milli)) <==> milli in Failures(es, x))
    && forall x :: |RecordsOf(records, x)| == |Failures(es, x)|
  }

  ghost predicate NamesPeers(records: seq<Contradiction>) {
    forall i :: 0 <= i < |records| ==> records[i].evidenceId.peer == records[i].indexerId
  }

  lemma {:induction false} FailuresSnoc(es: seq<Event>, e: Event, x: string)
    ensures Failures(es + [e], x) == Failures(es, x) + if e.Recorded? && e.peer == x then {e.milli} else {}
  {
    assert forall y :: y in es + [e] <==> y in es || y == e;
  }

  lemma {:induction false} RecordingFiles(es: seq<Event>, records: seq<Contradiction>, peer: string, milli: int)
    requires Files(es, records)
    ensures Files(es + [Recorded(peer, milli)], AddRecord(records, peer, milli))
  {
    var e, records' := Recorded(peer, milli), AddRecord(records, peer, milli);
    assert NamesPeers(records');
    forall x ensures |RecordsOf(records', x)| == |Failures(es + [e], x)| {
      assert Known(records, EvidenceId(x, milli)) <==> milli in Failures(es, x);
      RecordingCounts(es, records, peer, milli, x);
    }
    forall x, m ensures Known(records', EvidenceId(x, m)) <==> m in Failures(es + [e], x) {
      assert Known(records, EvidenceId(x, m)) <==> m in Failures(es, x);
      FailuresSnoc(es, e, x);
      KnownGrows(records, peer, milli, EvidenceId(x, m));
    }
  }

  lemma {:induction false} RecordingCounts(es: seq<Event>, records: seq<Contradiction>, peer: string, milli: int,
                                           x: string)
    requires |RecordsOf(records, x)| == |Failures(es, x)|
    requires Known(records, EvidenceId(x, milli)) <==> milli in Failures(es, x)
    ensures |RecordsOf(AddRecord(records, peer, milli), x)| == |Failures(es + [Recorded(peer, milli)], x)|
  {
    FailuresSnoc(es, Recorded(peer, milli), x);
    RecordsOfGrow(records, peer, milli, x);
    OneMore(Failures(es, x), milli);
  }

  lemma {:induction false} OneMore(s: set<int>, x: int)
    ensures |s + {x}| == |s| + if x in s then 0 else 1
    ensures s + {} == s
  {
    if x in s {
      assert s + {x} == s;
    }
  }

  lemma {:induction false} KnownGrows(records: seq<Contradiction>, peer: string, milli: int, id: EvidenceId)
    ensures Known(AddRecord(records, peer, milli), id) <==> Known(records, id) || id == EvidenceId(peer, milli)
  {
    var records' := AddRecord(records, peer, milli);
    if Known(records, id) {
      var i :| 0 <= i < |records| && records[i].evidenceId == id;
      assert records'[i].evidenceId == id;
    } else if id == EvidenceId(peer, milli) {
      assert records'[|records|].evidenceId == id;
    }
  }

  lemma {:induction false} RecordsOfGrow(records: seq<Contradiction>, peer: string, milli: int, x: string)
    ensures |RecordsOf(AddRecord(records, peer, milli), x)|
         == |RecordsOf(records, x)| + if x == peer && !Known(records, EvidenceId(peer, milli)) then 1 else 0
  {
    var records' := AddRecord(records, peer, milli);
    var n := |records|;
    if !Known(records, EvidenceId(peer, milli)) {
      assert RecordsOf(records', x) == RecordsOf(records, x) + if x == peer then {n as nat} else {};
    }
  }

  lemma {:induction false} CheckingFiles(es: seq<Event>, e: Event, records: seq<Contradiction>,
                                         records': seq<Contradiction>)
    requires Files(es, records) && e.Checked? && |records'| == |records|
    requires forall i :: 0 <= i < |records| ==> records'[i].(resolved := true) == records[i].(resolved := true)
    ensures Files(es + [e], records')
  {
    forall i | 0 <= i < |records|
      ensures records'[i].evidenceId == records[i].evidenceId && records'[i].indexerId == records[i].indexerId
    {
      assert records'[i].(resolved := true).evidenceId == records[i].(resolved := true).evidenceId;
      assert records'[i].(resolved := true).indexerId == records[i].(resolved := true).indexerId;
    }
    forall x, m ensures Known(records', EvidenceId(x, m)) <==> Known(records, EvidenceId(x, m)) {
      SameKnown(records, records', EvidenceId(x, m));
    }
    forall x ensures RecordsOf(records', x) == RecordsOf(records, x) {
    }
    forall x ensures Failures(es + [e], x) == Failures(es, x) {
      FailuresSnoc(es, e, x);
    }
  }

  lemma {:induction false} SameKnown(records: seq<Contradiction>, records': seq<Contradiction>, id: EvidenceId)
    requires |records'| == |records|
    requires forall i :: 0 <= i < |records| ==> records'[i].evidenceId == records[i].evidenceId
    ensures Known(records', id) <==> Known(records, id)
  {
    if i :| 0 <= i < |records| && records[i].evidenceId == id {
      assert records'[i].evidenceId == id;
    }
    if i :| 0 <= i < |records'| && records'[i].evidenceId == id {
      assert records[i].evidenceId == id;
    }
  }

  lemma {:induction false} RunFilesFailures(t: nat, es: seq<Event>, st: State)
    requires Reaches(t, es, st)
    ensures Files(es, st.records)
    decreases |es|
  {
    if es == [] {
      assert forall x :: Failures(es, x) == {} && RecordsOf(st.records, x) == {};
    } else {
      var front, e := es[..|es| - 1], es[|es| - 1];
      var before: State :| Reaches(t, front, before) && Legal(before, e) && st == Apply(t, before, e);
      RunFilesFailures(t, front, before);
      assert es == front + [e];
      match e
      case Recorded(peer, milli) => RecordingFiles(front, before.records, peer, milli);
      case Checked(_, _, _, _) => CheckingFiles(front, e, before.records, st.records);
    }
  }

  // Over every run, the configured number of failed probes is needed for each slash: an indexer's
  // accepted slashes, times that number, are at most its failed probes at different milliseconds.
  lemma {:induction false} SlashesAreEarned(configured: int, es: seq<Event>, st: State, x: string)
    requires Reaches(Threshold(configured), es, st)
    ensures |RecordsOf(st.records, x)| == |Failures(es, x)|
    ensures configured > 0 ==> configured * Accepted(st.slashes, x) <= |Failures(es, x)|
    ensures configured <= 0 ==> 3 * Accepted(st.slashes, x) <= |Failures(es, x)|
  {
    EvidenceIsAccountedFor(Threshold(configured), es, st);
    RunFilesFailures(Threshold(configured), es, st);
  }

  // ----- What one check attempts ------------------------------------------------------------------

  // The slash cites the open records of its indexer, each once.
  ghost predicate CitesOpen(records: seq<Contradiction>, s: Slash) {
    && |s.evidence| == |OpenOf(records, s.indexerId)|
    && forall id :: id in s.evidence <==>
         exists i :: 0 <= i < |records| && records[i].evidenceId == id && i in OpenOf(records, s.indexerId)
  }

  ghost predicate Attempted(slashes: seq<Slash>, x: string) {
    exists k :: 0 <= k < |slashes| && slashes[k].indexerId == x
  }

  // The attempts of a check over part of the indexers.
  ghost predicate Attempts(t: nat, records: seq<Contradiction>, order: seq<string>, accepts: string -> bool,
                           slashes: seq<Slash>)
  {
    && (forall x :: Attempted(slashes, x) <==> x in order && |OpenOf(records, x)| >= t)
    && (forall j, k :: 0 <= j < k < |slashes| ==> slashes[j].indexerId != slashes[k].indexerId)
    && (forall k :: 0 <= k < |slashes| ==>
          CitesOpen(records, slashes[k]) && slashes[k].accepted == accepts(slashes[k].indexerId))
  }

  lemma {:induction false} AttemptsSkip(t: nat, records: seq<Contradiction>, order: seq<string>, x: string,
                                        accepts: string -> bool, slashes: seq<Slash>)
    requires Attempts(t, records, order, accepts, slashes) && |OpenOf(records, x)| < t
    ensures Attempts(t, records, order + [x], accepts, slashes)
  {
    forall y ensures Attempted(slashes, y) <==> y in order + [x] && |OpenOf(records, y)| >= t {
    }
  }

  lemma {:induction false} AttemptsAdd(t: nat, records: seq<Contradiction>, order: seq<string>, x: string,
                                       accepts: string -> bool, slashes: seq<Slash>, s: Slash)
    requires Attempts(t, records, order, accepts, slashes) && x !in order && |OpenOf(records, x)| >= t
    requires s.indexerId == x && s.accepted == accepts(x) && CitesOpen(records, s)
    ensures Attempts(t, records, order + [x], accepts, slashes + [s])
  {
    forall k | 0 <= k < |slashes| ensures slashes[k].indexerId != x {
      assert Attempted(slashes, slashes[k].indexerId);
    }
    forall y ensures Attempted(slashes + [s], y) <==> y in order + [x] && |OpenOf(records, y)| >= t {
      assert Attempted(slashes, y) <==> y in order && |OpenOf(records, y)| >= t;
      AttemptedSnoc(slashes, s, y);
    }
  }

  lemma {:induction false} AttemptedSnoc(slashes: seq<Slash>, s: Slash, y: string)
    ensures Attempted(slashes + [s], y) <==> Attempted(slashes, y) || s.indexerId == y
  {
    var slashes' := slashes + [s];
    if Attempted(slashes, y) {
      var k :| 0 <= k < |slashes| && slashes[k].indexerId == y;
      assert slashes'[k].indexerId == y;
    }
    if s.indexerId == y {
      assert slashes'[|slashes|].indexerId == y;
    }
  }

  lemma {:induction false} VisitsAttempt(t: nat, records: seq<Contradiction>, listing: seq<nat>, order: seq<string>,
                                         accepts: string -> bool)
    requires Lists(records, listing) && NoDup(order)
    ensures Attempts(t, records, order, accepts,
                     SlashAll(t, State(records, []), listing, order, accepts, {}).slashes)
    decreases |order|
  {
    if order != [] {
      var front, x := order[..|order| - 1], order[|order| - 1];
      assert order == front + [x];
      assert x !in front;
      VisitsAttempt(t, records, listing, front, accepts);
      var mid := SlashAll(t, State(records, []), listing, front, accepts, {});
      var docs := Group(records, listing, x);
      var s := Slash(x, Evidence(mid.records, docs), accepts(x));
      GroupSize(State(records, []), listing, x);
      GroupCitesOpen(records, listing, mid.records, x, s);
      if |OpenOf(records, x)| >= t {
        AttemptsAdd(t, records, front, x, accepts, mid.slashes, s);
      } else {
        AttemptsSkip(t, records, front, x, accepts, mid.slashes);
      }
    }
  }

  lemma {:induction false} GroupCitesOpen(records: seq<Contradiction>, listing: seq<nat>, mid: seq<Contradiction>,
                                          x: string, s: Slash)
    requires Lists(records, listing) && |mid| == |records| && s.indexerId == x
    requires forall i :: 0 <= i < |mid| ==> mid[i].(resolved := true) == records[i].(resolved := true)
    requires s.evidence == Evidence(mid, Group(records, listing, x))
    ensures CitesOpen(records, s)
  {
    var st := State(records, []);
    GroupSize(st, listing, x);
    forall i | 0 <= i < |mid| ensures mid[i].evidenceId == records[i].evidenceId {
      assert mid[i].(resolved := true).evidenceId == records[i].(resolved := true).evidenceId;
    }
    forall id ensures id in s.evidence <==>
                      exists i :: 0 <= i < |records| && records[i].evidenceId == id && i in OpenOf(records, x)
    {
      GroupCites(1, st, listing, mid, x, id);
    }
  }

  // A check adds its attempts to the slashes: one for exactly each indexer with at least the
  // configured number of open records, or three, citing exactly those records, and accepted as the
  // hub answers. Neither order matters, nor which updates are lost.
  lemma {:induction false} CheckAttemptsIff(configured: int, st: State, listing: seq<nat>, order: seq<string>,
                                            accepts: string -> bool, lost: set<nat>)
    returns (attempts: seq<Slash>)
    requires Legal(st, Checked(listing, order, accepts, lost))
    ensures SlashAll(Threshold(configured), st, listing, order, accepts, lost).slashes == st.slashes + attempts
    ensures forall x :: Attempted(attempts, x) <==>
              |OpenOf(st.records, x)| >= if configured > 0 then configured else 3
    ensures forall j, k :: 0 <= j < k < |attempts| ==> attempts[j].indexerId != attempts[k].indexerId
    ensures forall k :: 0 <= k < |attempts| ==>
              CitesOpen(st.records, attempts[k]) && attempts[k].accepted == accepts(attempts[k].indexerId)
  {
    var t := Threshold(configured);
    attempts := SlashAll(t, State(st.records, []), listing, order, accepts, {}).slashes;
    SlashesAppended(t, st, listing, order, accepts, lost);
    VisitsAttempt(t, st.records, listing, order, accepts);
    OpenRecordsAreVisited(st, listing, order);
    forall x | |OpenOf(st.records, x)| >= t ensures x in order {
      assert OpenOf(st.records, x) != {};
      var i :| i in OpenOf(st.records, x);
      assert st.records[i].indexerId == x;
    }
  }
}
