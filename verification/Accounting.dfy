// Delivery accounting: claims, attestations, their comparison, and the session ledger.
//
// Claims, attestations and comparison results live in append-only collections with no unique
// key on (session, block); a document's position is its identity. Ledgers are unique by session.
module Accounting {
  import opened Common
  import opened Ordering
  import opened CidComparison

  datatype Config = Config(parse: string -> Option<seq<Cid>>, attestationWindowSeconds: int)

  datatype DocStatus = Pending | Confirmed

  datatype Key = Key(session: string, block: int)

  datatype Claim = Claim(key: Key, indexerId: string, docCids: string, blockHash: string,
                         batchSignature: string, submittedAt: int, status: DocStatus)

  datatype Attestation = Attestation(key: Key, hostId: string, docCids: string,
                                     batchSignature: string, submittedAt: int, status: DocStatus)

  datatype Ledger = Ledger(hostId: string, indexerId: string, blocksVerified: int, creditRemaining: real,
                           initialEscrow: real, pricePerBlock: real, lastComparedBlock: int)

  datatype Comparison = Comparison(key: Key, outcome: Outcome, claim: Option<nat>, attestation: Option<nat>)

  datatype Books = Books(claims: seq<Claim>, attestations: seq<Attestation>,
                         ledgers: map<string, Ledger>, comparisons: seq<Comparison>)

  datatype ClaimRequest = ClaimRequest(key: Key, indexerId: string, docCids: string, blockHash: string,
                                       batchSignature: string)

  datatype AttestRequest = AttestRequest(key: Key, hostId: string, docCids: string, batchSignature: string)

  datatype SubmitError = MissingIdentity | MissingContent | ConflictingCids | AlreadyAttested | LedgerExists

  // ----- Lookups --------------------------------------------------------------

  // The first document filed under a key.
  function FindClaim(claims: seq<Claim>, k: Key): (r: Option<nat>)
    ensures r.Some? ==> r.value < |claims| && claims[r.value].key == k
    ensures r.Some? ==> forall j :: 0 <= j < r.value ==> claims[j].key != k
    ensures r.None? ==> forall j :: 0 <= j < |claims| ==> claims[j].key != k
  {
    if claims == [] then None
    else
      var earlier := FindClaim(claims[..|claims| - 1], k);
      if earlier.Some? then earlier
      else if claims[|claims| - 1].key == k then Some(|claims| - 1)
      else None
  }

  function FindAttestation(attestations: seq<Attestation>, k: Key): (r: Option<nat>)
    ensures r.Some? ==> r.value < |attestations| && attestations[r.value].key == k
    ensures r.Some? ==> forall j :: 0 <= j < r.value ==> attestations[j].key != k
    ensures r.None? ==> forall j :: 0 <= j < |attestations| ==> attestations[j].key != k
  {
    if attestations == [] then None
    else
      var earlier := FindAttestation(attestations[..|attestations| - 1], k);
      if earlier.Some? then earlier
      else if attestations[|attestations| - 1].key == k then Some(|attestations| - 1)
      else None
  }

  // ----- Submissions ----------------------------------------------------------

  function SubmitClaim(b: Books, req: ClaimRequest, now: int): (Books, Result<nat, SubmitError>) {
    if req.key.session == "" || req.indexerId == "" || req.key.block <= 0 then (b, Failure(MissingIdentity))
    else if req.docCids == "" || req.blockHash == "" then (b, Failure(MissingContent))
    else match FindClaim(b.claims, req.key)
      case Some(i) =>
        if b.claims[i].docCids != req.docCids then (b, Failure(ConflictingCids)) else (b, Success(i))
      case None =>
        var doc := Claim(req.key, req.indexerId, req.docCids, req.blockHash, req.batchSignature, Stamp(now), Pending);
        (b.(claims := b.claims + [doc]), Success(|b.claims|))
  }

  function SubmitAttest(b: Books, req: AttestRequest, now: int): (Books, Result<nat, SubmitError>) {
    if req.key.session == "" || req.hostId == "" || req.key.block <= 0 then (b, Failure(MissingIdentity))
    else if req.docCids == "" then (b, Failure(MissingContent))
    else if FindAttestation(b.attestations, req.key).Some? then (b, Failure(AlreadyAttested))
    else
      var doc := Attestation(req.key, req.hostId, req.docCids, req.batchSignature, Stamp(now), Pending);
      (b.(attestations := b.attestations + [doc]), Success(|b.attestations|))
  }

  function OpenedLedgers(ledgers: map<string, Ledger>, session: string, hostId: string, indexerId: string,
                         escrow: real, price: real): map<string, Ledger>
  {
    if session in ledgers then ledgers
    else ledgers[session := Ledger(hostId, indexerId, 0, escrow, escrow, price, 0)]
  }

  function OpenLedger(b: Books, session: string, hostId: string, indexerId: string, escrow: real, price: real): Books {
    b.(ledgers := OpenedLedgers(b.ledgers, session, hostId, indexerId, escrow, price))
  }

  // ----- Comparing one block ----------------------------------------------------

  datatype Verdict =
    | Hold
    | Broken(error: CompareError)
    | Decided(outcome: Outcome, claim: Option<nat>, attestation: Option<nat>)

  predicate WithinWindow(cfg: Config, submittedAt: int, now: int) {
    now - submittedAt * SECOND < cfg.attestationWindowSeconds * SECOND
  }

  function Judge(cfg: Config, b: Books, k: Key, now: int): Verdict {
    match (FindClaim(b.claims, k), FindAttestation(b.attestations, k))
    case (None, None) => Hold
    case (Some(c), Some(a)) =>
      (match Classify(cfg.parse, b.claims[c].docCids, b.attestations[a].docCids)
       case Failure(e) => Broken(e)
       case Success(outcome) => Decided(outcome, Some(c), Some(a)))
    case (Some(c), None) =>
      if WithinWindow(cfg, b.claims[c].submittedAt, now) then Hold else Decided(HostSilent, Some(c), None)
    case (None, Some(a)) =>
      if WithinWindow(cfg, b.attestations[a].submittedAt, now) then Hold else Decided(IndexerSilent, None, Some(a))
  }

  // What a number of verified blocks costs.
  function Cost(blocks: int, price: real): real {
    blocks as real * price
  }

  function Charged(l: Ledger, block: int): Ledger {
    l.(blocksVerified := l.blocksVerified + 1,
       creditRemaining := MaxReal(l.creditRemaining - l.pricePerBlock, 0.0),
       lastComparedBlock := block)
  }

  function ChargeSession(ledgers: map<string, Ledger>, k: Key): map<string, Ledger> {
    if k.session in ledgers then ledgers[k.session := Charged(ledgers[k.session], k.block)] else ledgers
  }

  function ConfirmClaim(claims: seq<Claim>, i: Option<nat>): seq<Claim>
    requires i.Some? ==> i.value < |claims|
  {
    if i.Some? then claims[i.value := claims[i.value].(status := Confirmed)] else claims
  }

  function ConfirmAttestation(docs: seq<Attestation>, i: Option<nat>): seq<Attestation>
    requires i.Some? ==> i.value < |docs|
  {
    if i.Some? then docs[i.value := docs[i.value].(status := Confirmed)] else docs
  }

  function CompareStep(cfg: Config, b: Books, k: Key, now: int): Books {
    match Judge(cfg, b, k, now)
    case Hold => b
    case Broken(_) => b
    case Decided(outcome, c, a) =>
      Books(ConfirmClaim(b.claims, c),
            ConfirmAttestation(b.attestations, a),
            if outcome == Clean then ChargeSession(b.ledgers, k) else b.ledgers,
            b.comparisons + [Comparison(k, outcome, c, a)])
  }

  // ----- A comparison round -------------------------------------------------------

  predicate KeyLt(a: Key, b: Key) {
    if a.session != b.session then StrLt(a.session, b.session) else a.block < b.block
  }

  ghost predicate StrictlySorted(ks: seq<Key>) {
    forall i, j :: 0 <= i < j < |ks| ==> KeyLt(ks[i], ks[j])
  }

  function InsertKey(k: Key, ks: seq<Key>): seq<Key> {
    if ks == [] then [k]
    else if k == ks[0] then ks
    else if KeyLt(k, ks[0]) then [k] + ks
    else [ks[0]] + InsertKey(k, ks[1..])
  }

  function SortKeys(ks: seq<Key>): seq<Key> {
    if ks == [] then [] else InsertKey(ks[0], SortKeys(ks[1..]))
  }

  function ClaimKeys(docs: seq<Claim>): (ks: seq<Key>)
    ensures |ks| == |docs| && forall i :: 0 <= i < |docs| ==> ks[i] == docs[i].key
  {
    seq(|docs|, i requires 0 <= i < |docs| => docs[i].key)
  }

  function PendingClaims(claims: seq<Claim>): (r: seq<Claim>)
    ensures forall c :: c in r <==> c in claims && c.status == Pending
  {
    if claims == [] then []
    else
      var rest := PendingClaims(claims[..|claims| - 1]);
      var last := claims[|claims| - 1];
      assert claims == claims[..|claims| - 1] + [last];
      if last.status == Pending then rest + [last] else rest
  }

  function CompareAll(cfg: Config, b: Books, ks: seq<Key>, now: int): Books
    decreases |ks|
  {
    if ks == [] then b else CompareAll(cfg, CompareStep(cfg, b, ks[0], now), ks[1..], now)
  }

  function Round(cfg: Config, b: Books, now: int): Books {
    CompareAll(cfg, b, SortKeys(ClaimKeys(PendingClaims(b.claims))), now)
  }

  // ----- Key order -----------------------------------------------------------------

  lemma {:induction false} KeyLtTotal(a: Key, b: Key)
    ensures a == b || KeyLt(a, b) || KeyLt(b, a)
    ensures !(KeyLt(a, b) && KeyLt(b, a))
    ensures a == b ==> !KeyLt(a, b)
  {
    StrLtTotal(a.session, b.session);
  }

  lemma {:induction false} KeyLtTransitive(a: Key, b: Key, c: Key)
    requires KeyLt(a, b) && KeyLt(b, c)
    ensures KeyLt(a, c)
  {
    if a.session != b.session && b.session != c.session {
      StrLtTransitive(a.session, b.session, c.session);
      StrLtTotal(a.session, c.session);
      StrLtTotal(a.session, b.session);
    }
  }

  lemma {:induction false} InsertKeySorts(k: Key, ks: seq<Key>)
    requires StrictlySorted(ks)
    ensures StrictlySorted(InsertKey(k, ks))
    ensures Elems(InsertKey(k, ks)) == Elems(ks) + {k}
  {
    if ks == [] || k == ks[0] {
    } else if KeyLt(k, ks[0]) {
      forall j | 0 < j < |ks| ensures KeyLt(k, ks[j]) {
        KeyLtTransitive(k, ks[0], ks[j]);
      }
    } else {
      KeyLtTotal(k, ks[0]);
      var rest := InsertKey(k, ks[1..]);
      InsertKeySorts(k, ks[1..]);
      assert ks == [ks[0]] + ks[1..];
      forall j | 0 <= j < |rest| ensures KeyLt(ks[0], rest[j]) {
        assert rest[j] in Elems(rest);
        if rest[j] != k {
          assert rest[j] in ks[1..];
        }
      }
      var r := InsertKey(k, ks);
      assert r == [ks[0]] + rest;
      assert Elems(r) == {ks[0]} + Elems(rest);
      assert Elems(ks) == {ks[0]} + Elems(ks[1..]);
    }
  }

  lemma {:induction false} SortKeysSorts(ks: seq<Key>)
    ensures StrictlySorted(SortKeys(ks)) && Elems(SortKeys(ks)) == Elems(ks)
  {
    if ks != [] {
      SortKeysSorts(ks[1..]);
      InsertKeySorts(ks[0], SortKeys(ks[1..]));
      assert ks == [ks[0]] + ks[1..];
    }
  }

  // A set of keys has one strictly sorted listing, so every sorting algorithm agrees.
  lemma {:induction false} SortedListingIsUnique(s: seq<Key>, t: seq<Key>)
    requires StrictlySorted(s) && StrictlySorted(t) && Elems(s) == Elems(t)
    ensures s == t
  {
    assert t != [] ==> t[0] in Elems(t);
    if s != [] {
      assert s[0] in Elems(s);
      KeyLtTotal(s[0], t[0]);
      assert s[0] == t[0];
      assert Elems(s[1..]) == Elems(s) - {s[0]} by { TailElems(s); }
      assert Elems(t[1..]) == Elems(t) - {t[0]} by { TailElems(t); }
      SortedListingIsUnique(s[1..], t[1..]);
      assert s == [s[0]] + s[1..] && t == [t[0]] + t[1..];
    }
  }

  lemma {:induction false} TailElems(s: seq<Key>)
    requires StrictlySorted(s) && s != []
    ensures Elems(s[1..]) == Elems(s) - {s[0]}
  {
    assert s == [s[0]] + s[1..];
    forall j | 1 <= j < |s| ensures s[j] != s[0] {
      KeyLtTotal(s[0], s[j]);
    }
  }

  // ----- The manager -------------------------------------------------------------------

  class Manager {
    const cfg: Config
    var claims: seq<Claim>
    var attestations: seq<Attestation>
    var ledgers: map<string, Ledger>
    var comparisons: seq<Comparison>

    function Contents(): Books
      reads this
    {
      Books(claims, attestations, ledgers, comparisons)
    }

    constructor (cfg: Config)
      ensures this.cfg == cfg && Contents() == Books([], [], map[], [])
    {
      this.cfg := cfg;
      claims, attestations, ledgers, comparisons := [], [], map[], [];
    }

    method SubmitDeliveryClaim(req: ClaimRequest, now: int) returns (r: Result<nat, SubmitError>)
      modifies this
      ensures (Contents(), r) == SubmitClaim(old(Contents()), req, now)
    {
      if req.key.session == "" || req.indexerId == "" || req.key.block <= 0 {
        return Failure(MissingIdentity);
      }
      if req.docCids == "" || req.blockHash == "" {
        return Failure(MissingContent);
      }
      var existing := FindClaim(claims, req.key);
      if existing.Some? {
        if claims[existing.value].docCids != req.docCids {
          return Failure(ConflictingCids);
        }
        return Success(existing.value);
      }
      var doc := Claim(req.key, req.indexerId, req.docCids, req.blockHash, req.batchSignature, Stamp(now), Pending);
      claims := claims + [doc];
      return Success(|claims| - 1);
    }

    method SubmitAttestation(req: AttestRequest, now: int) returns (r: Result<nat, SubmitError>)
      modifies this
      ensures (Contents(), r) == SubmitAttest(old(Contents()), req, now)
    {
      if req.key.session == "" || req.hostId == "" || req.key.block <= 0 {
        return Failure(MissingIdentity);
      }
      if req.docCids == "" {
        return Failure(MissingContent);
      }
      if FindAttestation(attestations, req.key).Some? {
        return Failure(AlreadyAttested);
      }
      var doc := Attestation(req.key, req.hostId, req.docCids, req.batchSignature, Stamp(now), Pending);
      attestations := attestations + [doc];
      return Success(|attestations| - 1);
    }

    method CreateSessionLedger(session: string, hostId: string, indexerId: string, escrow: real, price: real)
      returns (r: Result<(), SubmitError>)
      modifies this
      ensures Contents() == OpenLedger(old(Contents()), session, hostId, indexerId, escrow, price)
      ensures r.Failure? <==> session in old(ledgers)
    {
      if session in ledgers {
        return Failure(LedgerExists);
      }
      ledgers := ledgers[session := Ledger(hostId, indexerId, 0, escrow, escrow, price, 0)];
      return Success(());
    }

    method Compare(k: Key, now: int) returns (v: Verdict)
      modifies this
      ensures v == Judge(cfg, old(Contents()), k, now)
      ensures Contents() == CompareStep(cfg, old(Contents()), k, now)
    {
      var claim := FindClaim(claims, k);
      var attest := FindAttestation(attestations, k);
      if claim.None? && attest.None? {
        return Hold;
      }
      var outcome: Outcome;
      if claim.Some? && attest.Some? {
        var compared := CompareDocCids(cfg.parse, claims[claim.value].docCids, attestations[attest.value].docCids);
        if compared.Failure? {
          return Broken(compared.error);
        }
        outcome := compared.value;
      } else if claim.Some? {
        if WithinWindow(cfg, claims[claim.value].submittedAt, now) {
          return Hold;
        }
        outcome := HostSilent;
      } else {
        if WithinWindow(cfg, attestations[attest.value].submittedAt, now) {
          return Hold;
        }
        outcome := IndexerSilent;
      }
      if claim.Some? {
        claims := claims[claim.value := claims[claim.value].(status := Confirmed)];
      }
      if attest.Some? {
        attestations := attestations[attest.value := attestations[attest.value].(status := Confirmed)];
      }
      comparisons := comparisons + [Comparison(k, outcome, claim, attest)];
      if outcome == Clean {
        UpdateLedger(k);
      }
      return Decided(outcome, claim, attest);
    }

    method UpdateLedger(k: Key)
      modifies this`ledgers
      ensures ledgers == ChargeSession(old(ledgers), k)
    {
      if k.session !in ledgers {
        return;
      }
      var ledger := ledgers[k.session];
      var newVerified := ledger.blocksVerified + 1;
      var newCredit := ledger.creditRemaining - ledger.pricePerBlock;
      if newCredit < 0.0 {
        newCredit := 0.0;
      }
      ledgers := ledgers[k.session := ledger.(blocksVerified := newVerified, creditRemaining := newCredit,
                                              lastComparedBlock := k.block)];
    }

    // One tick of the comparison loop. The store may list the pending claims in any order;
    // the postcondition does not mention that order.
    method RunComparisons(pending: seq<Claim>, now: int)
      requires multiset(pending) == multiset(PendingClaims(claims))
      modifies this
      ensures Contents() == Round(cfg, old(Contents()), now)
    {
      var seen: set<Key> := {};
      var toCompare: seq<Key> := [];
      for i := 0 to |pending|
        invariant seen == Elems(toCompare) == Elems(ClaimKeys(pending[..i]))
      {
        var k := pending[i].key;
        ghost var before := toCompare;
        if k !in seen {
          seen := seen + {k};
          toCompare := toCompare + [k];
        }
        assert Elems(toCompare) == Elems(before) + {k};
        assert ClaimKeys(pending[..i + 1]) == ClaimKeys(pending[..i]) + [k];
      }
      assert pending[..|pending|] == pending;
      toCompare := SortedForRound(toCompare, pending, claims);
      ghost var b := Contents();
      for i := 0 to |toCompare|
        invariant CompareAll(cfg, Contents(), toCompare[i..], now) == CompareAll(cfg, b, toCompare, now)
      {
        assert toCompare[i..][0] == toCompare[i] && toCompare[i..][1..] == toCompare[i + 1..];
        var _ := Compare(toCompare[i], now);
      }
    }
  }

  // The sorted work list of a round, and the reason it does not depend on the listing.
  function SortedForRound(toCompare: seq<Key>, pending: seq<Claim>, claims: seq<Claim>): (ks: seq<Key>)
    requires multiset(pending) == multiset(PendingClaims(claims))
    requires Elems(toCompare) == Elems(ClaimKeys(pending))
    ensures StrictlySorted(ks)
    ensures ks == SortKeys(ClaimKeys(PendingClaims(claims)))
  {
    SortKeysSorts(toCompare);
    ListingKeys(pending, PendingClaims(claims));
    SortKeysSorts(ClaimKeys(PendingClaims(claims)));
    SortedListingIsUnique(SortKeys(toCompare), SortKeys(ClaimKeys(PendingClaims(claims))));
    SortKeys(toCompare)
  }

  // Two listings of the pending claims, deduplicated and sorted in any way, give the same round.
  lemma {:induction false} RoundIgnoresListingOrder(cfg: Config, b: Books, pending: seq<Claim>, toCompare: seq<Key>,
                                                    ks: seq<Key>, now: int)
    requires multiset(pending) == multiset(PendingClaims(b.claims))
    requires Elems(toCompare) == Elems(ClaimKeys(pending))
    requires StrictlySorted(ks) && Elems(ks) == Elems(toCompare)
    ensures CompareAll(cfg, b, ks, now) == Round(cfg, b, now)
  {
    var sorted := SortedForRound(toCompare, pending, b.claims);
    SortKeysSorts(ClaimKeys(PendingClaims(b.claims)));
    ListingKeys(pending, PendingClaims(b.claims));
    SortedListingIsUnique(ks, sorted);
  }

  lemma {:induction false} ListingKeys(s: seq<Claim>, t: seq<Claim>)
    requires multiset(s) == multiset(t)
    ensures Elems(ClaimKeys(s)) == Elems(ClaimKeys(t))
  {
    PermutationKeeps(s, t);
    forall k ensures k in ClaimKeys(s) <==> k in ClaimKeys(t) {
      KeyListed(s, k);
      KeyListed(t, k);
      assert forall c :: c in s <==> c in Elems(s);
    }
  }

  lemma {:induction false} KeyListed(s: seq<Claim>, k: Key)
    ensures k in ClaimKeys(s) <==> exists c :: c in s && c.key == k
  {
    if k in ClaimKeys(s) {
      var i :| 0 <= i < |s| && ClaimKeys(s)[i] == k;
      assert s[i] in s;
    }
    if c :| c in s && c.key == k {
      var i :| 0 <= i < |s| && s[i] == c;
      assert ClaimKeys(s)[i] == k;
    }
  }
}
