// How the scheduler compares the CIDs an indexer claims with the CIDs a host attests.
module CidComparison {
  import opened Common

  type Cid = string

  datatype Outcome = Clean | UnderReport | Mismatch | HostSilent | IndexerSilent
  datatype CompareError = ClaimCidsUnparsable | AttestCidsUnparsable

  // What the two decoded lists amount to: lengths and set inclusion decide.
  function ClassifyLists(claimed: seq<Cid>, attested: seq<Cid>): Outcome {
    if |claimed| == |attested| && Elems(claimed) <= Elems(attested) then Clean
    else if |attested| < |claimed| && Elems(attested) <= Elems(claimed) then UnderReport
    else Mismatch
  }

  function Classify(parse: string -> Option<seq<Cid>>, claimCids: string, attestCids: string)
    : Result<Outcome, CompareError>
  {
    match parse(claimCids)
    case None => Failure(ClaimCidsUnparsable)
    case Some(claimed) =>
      match parse(attestCids)
      case None => Failure(AttestCidsUnparsable)
      case Some(attested) => Success(ClassifyLists(claimed, attested))
  }

  method CompareDocCids(parse: string -> Option<seq<Cid>>, claimCids: string, attestCids: string)
    returns (r: Result<Outcome, CompareError>)
    ensures r == Classify(parse, claimCids, attestCids)
  {
    var parsedClaim := parse(claimCids);
    if parsedClaim.None? {
      return Failure(ClaimCidsUnparsable);
    }
    var parsedAttest := parse(attestCids);
    if parsedAttest.None? {
      return Failure(AttestCidsUnparsable);
    }
    var claimed, attested := parsedClaim.value, parsedAttest.value;
    var claimSet := CidSet(claimed);
    var attestSet := CidSet(attested);
    if |claimed| == |attested| {
      var allMatch := AllIn(claimed, attestSet);
      if allMatch {
        return Success(Clean);
      }
    }
    if |attested| < |claimed| {
      var allPresent := AllIn(attested, claimSet);
      if allPresent {
        return Success(UnderReport);
      }
    }
    return Success(Mismatch);
  }

  method CidSet(cids: seq<Cid>) returns (s: set<Cid>)
    ensures s == Elems(cids)
  {
    s := {};
    for i := 0 to |cids|
      invariant s == Elems(cids[..i])
    {
      assert cids[..i + 1] == cids[..i] + [cids[i]];
      s := s + {cids[i]};
    }
    assert cids[..|cids|] == cids;
  }

  method AllIn(cids: seq<Cid>, s: set<Cid>) returns (all: bool)
    ensures all <==> Elems(cids) <= s
  {
    all := true;
    for i := 0 to |cids|
      invariant all
      invariant forall j :: 0 <= j < i ==> cids[j] in s
    {
      if cids[i] !in s {
        all := false;
        assert cids[i] in Elems(cids);
        break;
      }
    }
  }

  // ----- Meaning on any lists -----------------------------------------------

  // The claim's list is decoded first. With both lists at hand, repeats count towards the lengths.
  lemma {:induction false} VerdictIff(parse: string -> Option<seq<Cid>>, claimCids: string, attestCids: string)
    ensures var r := Classify(parse, claimCids, attestCids);
            match (parse(claimCids), parse(attestCids))
            case (None, _) => r == Failure(ClaimCidsUnparsable)
            case (Some(_), None) => r == Failure(AttestCidsUnparsable)
            case (Some(claimed), Some(attested)) =>
              && r.Success? && r.value in {Clean, UnderReport, Mismatch}
              && (r.value == Clean <==> |claimed| == |attested| && forall c :: c in claimed ==> c in attested)
              && (r.value == UnderReport <==> |attested| < |claimed| && forall c :: c in attested ==> c in claimed)
  {
    if parse(claimCids).Some? && parse(attestCids).Some? {
      var claimed, attested := parse(claimCids).value, parse(attestCids).value;
      InclusionIff(claimed, attested);
      InclusionIff(attested, claimed);
    }
  }

  lemma {:induction false} InclusionIff(s: seq<Cid>, t: seq<Cid>)
    ensures Elems(s) <= Elems(t) <==> forall c :: c in s ==> c in t
  {
    if Elems(s) <= Elems(t) {
      forall c | c in s ensures c in t {
        assert c in Elems(s);
      }
    }
  }

  // ----- Meaning on duplicate-free lists ------------------------------------

  lemma {:induction false} ClassifyDecidesSetRelations(claimed: seq<Cid>, attested: seq<Cid>)
    requires NoDup(claimed) && NoDup(attested)
    ensures ClassifyLists(claimed, attested) == Clean <==> Elems(claimed) == Elems(attested)
    ensures ClassifyLists(claimed, attested) == UnderReport <==> Elems(attested) < Elems(claimed)
    ensures ClassifyLists(claimed, attested) == Mismatch <==> !(Elems(attested) <= Elems(claimed))
  {
    CountElems(claimed);
    CountElems(attested);
    if Elems(claimed) <= Elems(attested) {
      SubsetCard(Elems(claimed), Elems(attested));
    }
    if Elems(attested) <= Elems(claimed) {
      SubsetCard(Elems(attested), Elems(claimed));
    }
  }

  lemma {:induction false} ClassifyIgnoresOrder(claimed: seq<Cid>, claimed': seq<Cid>,
                                                attested: seq<Cid>, attested': seq<Cid>)
    requires multiset(claimed) == multiset(claimed') && multiset(attested) == multiset(attested')
    ensures ClassifyLists(claimed, attested) == ClassifyLists(claimed', attested')
  {
    PermutationKeeps(claimed, claimed');
    PermutationKeeps(attested, attested');
  }

  // ----- Exactly which lists the verdicts can be trusted on ------------------

  // "Clean" proves that the host holds what was claimed, whatever the host attests, if and
  // only if the claim repeats no CID. The attestation itself may contain anything.
  lemma {:induction false} CleanIsSoundIffClaimHasNoRepeats(claimed: seq<Cid>)
    ensures (forall attested :: ClassifyLists(claimed, attested) == Clean ==> Elems(attested) == Elems(claimed))
            <==> NoDup(claimed)
  {
    CountElems(claimed);
    if NoDup(claimed) {
      forall attested | ClassifyLists(claimed, attested) == Clean
        ensures Elems(attested) == Elems(claimed)
      {
        CountElems(attested);
        SubsetCard(Elems(claimed), Elems(attested));
      }
    } else {
      var attested := ForgedAttestation(claimed);
      assert ClassifyLists(claimed, attested) == Clean && Elems(attested) != Elems(claimed);
    }
  }

  // "Under-report" proves that the host reported strictly less, whatever the host attests, if
  // and only if the claim repeats no CID.
  lemma {:induction false} UnderReportIsSoundIffClaimHasNoRepeats(claimed: seq<Cid>)
    ensures (forall attested :: ClassifyLists(claimed, attested) == UnderReport ==> Elems(attested) < Elems(claimed))
            <==> NoDup(claimed)
  {
    CountElems(claimed);
    if NoDup(claimed) {
      forall attested | ClassifyLists(claimed, attested) == UnderReport
        ensures Elems(attested) < Elems(claimed)
      {
        CountElems(attested);
        if Elems(claimed) <= Elems(attested) {
          SubsetCard(Elems(claimed), Elems(attested));
        }
      }
    } else {
      var attested := Distinct(claimed);
      assert ClassifyLists(claimed, attested) == UnderReport && Elems(attested) == Elems(claimed);
    }
  }

  // Every strictly smaller delivery is reported as an under-report, whatever was claimed, if
  // and only if the attestation repeats no CID.
  lemma {:induction false} UnderReportIsCompleteIffAttestationHasNoRepeats(attested: seq<Cid>)
    ensures (forall claimed :: Elems(attested) < Elems(claimed) ==> ClassifyLists(claimed, attested) == UnderReport)
            <==> NoDup(attested)
  {
    CountElems(attested);
    if NoDup(attested) {
      forall claimed | Elems(attested) < Elems(claimed)
        ensures ClassifyLists(claimed, attested) == UnderReport
      {
        CountElems(claimed);
        SubsetCard(Elems(attested), Elems(claimed));
      }
    } else {
      var distinct := Distinct(attested);
      var novel := FreshCid(attested);
      var claimed := distinct + [novel];
      assert Elems(claimed) == Elems(attested) + {novel};
      assert |claimed| <= |attested|;
      assert novel in Elems(claimed);
      assert ClassifyLists(claimed, attested) != UnderReport;
    }
  }

  // ----- Witnesses -----------------------------------------------------------

  // A CID longer than every listed one.
  ghost function FreshCid(s: seq<Cid>): (c: Cid)
    ensures c !in s
    ensures forall i :: 0 <= i < |s| ==> |s[i]| < |c|
  {
    if s == [] then "b"
    else
      var c := FreshCid(s[..|s| - 1]);
      var last := s[|s| - 1];
      var r := c + last;
      assert forall i :: 0 <= i < |s| - 1 ==> s[i] == s[..|s| - 1][i];
      assert |c| > 0 by { if |s| > 1 { assert |s[..|s| - 1][0]| < |c|; } }
      assert forall i :: 0 <= i < |s| ==> |s[i]| < |r|;
      r
  }

  // For a claim with a repeat: an attestation of the same length that contains everything
  // claimed and one CID that never was.
  lemma {:induction false} ForgedAttestation(claimed: seq<Cid>) returns (attested: seq<Cid>)
    requires !NoDup(claimed)
    ensures |attested| == |claimed| && Elems(claimed) < Elems(attested)
  {
    CountElems(claimed);
    var d := Distinct(claimed);
    var novel := FreshCid(claimed);
    attested := d + seq(|claimed| - |d|, _ => novel);
    assert attested[|d|] == novel && novel in attested;
    forall x | x in claimed ensures x in attested {
      assert x in Elems(d);
      var i :| 0 <= i < |d| && d[i] == x;
      assert attested[i] == x;
    }
    assert novel !in Elems(claimed);
  }
}
