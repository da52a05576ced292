// What the token bucket guarantees over whole request histories.
module RateLimitRuns {
  import opened Common
  import opened RateLimit

  // ----- One key ------------------------------------------------------------------------

  // The bucket and the decisions after requests at the given times.
  function RunKey(lim: Limit, ts: seq<real>): (r: (Option<Bucket>, seq<bool>))
    ensures |r.1| == |ts|
  {
    if ts == [] then (None, [])
    else
      var (b, ds) := RunKey(lim, ts[..|ts| - 1]);
      var (b', ok) := Consume(lim, b, ts[|ts| - 1]);
      (Some(b'), ds + [ok])
  }

  ghost predicate Ascending(ts: seq<real>) {
    forall i, j :: 0 <= i < j < |ts| ==> ts[i] <= ts[j]
  }

  // Requests admitted from position i on.
  function AdmittedFrom(ds: seq<bool>, i: nat): nat {
    if |ds| <= i then 0 else AdmittedFrom(ds[..|ds| - 1], i) + if ds[|ds| - 1] then 1 else 0
  }

  lemma {:induction false} AdmittedSnoc(ds: seq<bool>, ok: bool, i: nat)
    requires i <= |ds|
    ensures AdmittedFrom(ds + [ok], i) == AdmittedFrom(ds, i) + (if ok then 1 else 0)
    ensures AdmittedFrom(ds, |ds|) == 0
  {
    assert (ds + [ok])[..|ds|] == ds;
  }

  lemma {:induction false} RunKeySnoc(lim: Limit, ts: seq<real>, t: real)
    ensures var (b, ds) := RunKey(lim, ts);
            var (b', ok) := Consume(lim, b, t);
            RunKey(lim, ts + [t]) == (Some(b'), ds + [ok])
  {
    assert (ts + [t])[..|ts|] == ts;
  }

  // What the rate brings between two instants.
  function Refill(lim: Limit, from: real, to: real): real {
    (to - from) * lim.rate
  }

  lemma {:induction false} GainIsRefill(lim: Limit, from: real, to: real)
    ensures Gain(lim, from, to) == Refill(lim, from, to)
  {
  }

  lemma {:induction false} AvailableRefills(lim: Limit, b: Bucket, now: real)
    ensures Available(lim, Some(b), now) == MinReal(b.tokens + Refill(lim, b.last, now), lim.burst as real)
  {
    GainIsRefill(lim, b.last, now);
  }

  lemma {:induction false} RefillAdds(lim: Limit, a: real, b: real, c: real)
    ensures Refill(lim, a, b) + Refill(lim, b, c) == Refill(lim, a, c)
    ensures Refill(lim, a, a) == 0.0
    ensures a <= b && lim.rate >= 0.0 ==> Refill(lim, a, b) >= 0.0
  {
    assert (b - a) * lim.rate + (c - b) * lim.rate == (c - a) * lim.rate;
  }

  // What the requests since position i leave of the burst and the refill, at `now`.
  function LeftSince(lim: Limit, ts: seq<real>, ds: seq<bool>, i: nat, now: real): real
    requires i < |ts|
  {
    lim.burst as real + Refill(lim, ts[i], now) - AdmittedFrom(ds, i) as real
  }

  // The tokens on hand are the least of the burst and of what any earlier request leaves.
  ghost predicate IsLeast(lim: Limit, ts: seq<real>, ds: seq<bool>, now: real, have: real) {
    && have <= lim.burst as real
    && (forall i :: 0 <= i < |ts| ==> have <= LeftSince(lim, ts, ds, i, now))
    && (have == lim.burst as real || exists i :: 0 <= i < |ts| && have == LeftSince(lim, ts, ds, i, now))
  }

  lemma {:induction false} TokensAreTheTightestWindow(lim: Limit, ts: seq<real>, now: real)
    ensures IsLeast(lim, ts, RunKey(lim, ts).1, now, Available(lim, RunKey(lim, ts).0, now))
    decreases |ts|
  {
    if ts != [] {
      var n := |ts| - 1;
      var front, t := ts[..n], ts[n];
      var (b, ds) := RunKey(lim, front);
      TokensAreTheTightestWindow(lim, front, t);
      var have := Available(lim, b, t);
      var (b', ok) := Consume(lim, b, t);
      var ds' := ds + [ok];
      var taken := if ok then 1.0 else 0.0;
      RefillAdds(lim, t, t, now);
      AvailableRefills(lim, b', now);
      forall i | 0 <= i < n
        ensures LeftSince(lim, ts, ds', i, now) == LeftSince(lim, front, ds, i, t) + Refill(lim, t, now) - taken
      {
        AdmittedSnoc(ds, ok, i);
        RefillAdds(lim, ts[i], t, now);
      }
      AdmittedSnoc(ds, ok, n);
      assert LeftSince(lim, ts, ds', n, now) == lim.burst as real + Refill(lim, t, now) - taken;
      LeastStep(lim, ts, ds, ok, now, have);
    }
  }

  lemma {:induction false} LeastStep(lim: Limit, ts: seq<real>, ds: seq<bool>, ok: bool, now: real, have: real)
    requires ts != [] && |ds| == |ts| - 1
    requires IsLeast(lim, ts[..|ds|], ds, ts[|ds|], have)
    requires var taken := if ok then 1.0 else 0.0;
             && (forall i :: 0 <= i < |ds| ==>
                   LeftSince(lim, ts, ds + [ok], i, now)
                   == LeftSince(lim, ts[..|ds|], ds, i, ts[|ds|]) + Refill(lim, ts[|ds|], now) - taken)
             && LeftSince(lim, ts, ds + [ok], |ds|, now) == lim.burst as real + Refill(lim, ts[|ds|], now) - taken
    ensures var taken := if ok then 1.0 else 0.0;
            IsLeast(lim, ts, ds + [ok], now, MinReal(have - taken + Refill(lim, ts[|ds|], now), lim.burst as real))
  {
    var n := |ds|;
    if have == lim.burst as real {
      assert have + Refill(lim, ts[n], now) - (if ok then 1.0 else 0.0) == LeftSince(lim, ts, ds + [ok], n, now);
    } else {
      var i :| 0 <= i < n && have == LeftSince(lim, ts[..n], ds, i, ts[n]);
      assert have + Refill(lim, ts[n], now) - (if ok then 1.0 else 0.0) == LeftSince(lim, ts, ds + [ok], i, now);
    }
  }

  // The whole meaning of the limiter: a request is admitted if and only if, for every window
  // that starts at an earlier request and ends now, admitting it keeps the window within burst
  // plus refill.
  lemma {:induction false} AdmittedIffEveryWindowAllows(lim: Limit, ts: seq<real>, now: real)
    ensures var (b, ds) := RunKey(lim, ts);
            Consume(lim, b, now).1 <==>
            lim.burst >= 1 && forall i :: 0 <= i < |ts| ==>
              AdmittedFrom(ds, i) as real + 1.0 <= lim.burst as real + Refill(lim, ts[i], now)
  {
    var (b, ds) := RunKey(lim, ts);
    TokensAreTheTightestWindow(lim, ts, now);
    var have := Available(lim, b, now);
    if have >= 1.0 {
      forall i | 0 <= i < |ts|
        ensures AdmittedFrom(ds, i) as real + 1.0 <= lim.burst as real + Refill(lim, ts[i], now)
      {
        assert have <= LeftSince(lim, ts, ds, i, now);
      }
    }
  }

  lemma {:induction false} TokensStayInRange(lim: Limit, ts: seq<real>)
    requires lim.rate >= 0.0 && lim.burst >= 0 && Ascending(ts) && ts != []
    ensures var b := RunKey(lim, ts).0;
            b.Some? && 0.0 <= b.value.tokens <= lim.burst as real && b.value.last == ts[|ts| - 1]
    decreases |ts|
  {
    var front, t := ts[..|ts| - 1], ts[|ts| - 1];
    if front != [] {
      TokensStayInRange(lim, front);
      RefillAdds(lim, ts[|ts| - 2], t, t);
      AvailableRefills(lim, RunKey(lim, front).0.value, t);
    }
  }

  // In every window of a run at most burst plus refill requests are admitted.
  lemma {:induction false} AdmittedInWindowIsBounded(lim: Limit, ts: seq<real>, i: nat)
    requires lim.rate >= 0.0 && lim.burst >= 0 && Ascending(ts) && i < |ts|
    ensures AdmittedFrom(RunKey(lim, ts).1, i) as real <= lim.burst as real + Refill(lim, ts[i], ts[|ts| - 1])
    decreases |ts|
  {
    var front, t := ts[..|ts| - 1], ts[|ts| - 1];
    var (b, ds) := RunKey(lim, front);
    var ok := Consume(lim, b, t).1;
    assert RunKey(lim, ts).1 == ds + [ok];
    assert (ds + [ok])[..|ds|] == ds;
    RefillAdds(lim, ts[i], t, t);
    AdmittedIffEveryWindowAllows(lim, front, t);
    if i < |front| && !ok {
      AdmittedInWindowIsBounded(lim, front, i);
      RefillAdds(lim, ts[i], ts[|ts| - 2], t);
      RefillAdds(lim, ts[|ts| - 2], t, t);
    }
  }

  // The arrivals themselves fit every window.
  ghost predicate Fits(lim: Limit, ts: seq<real>) {
    forall i, j :: 0 <= i <= j < |ts| ==> FitsWindow(lim, ts, i, j)
  }

  ghost predicate FitsWindow(lim: Limit, ts: seq<real>, i: nat, j: nat)
    requires i <= j < |ts|
  {
    (j - i + 1) as real <= lim.burst as real + Refill(lim, ts[i], ts[j])
  }

  lemma {:induction false} FitsSnoc(lim: Limit, ts: seq<real>)
    requires ts != []
    ensures var n := |ts| - 1;
            Fits(lim, ts) <==>
            Fits(lim, ts[..n]) && forall i :: 0 <= i <= n ==> FitsWindow(lim, ts, i, n)
  {
    var n := |ts| - 1;
    if Fits(lim, ts) {
      forall i, j | 0 <= i <= j < n ensures FitsWindow(lim, ts[..n], i, j) {
        assert FitsWindow(lim, ts, i, j);
      }
    }
    if Fits(lim, ts[..n]) && forall i :: 0 <= i <= n ==> FitsWindow(lim, ts, i, n) {
      forall i, j | 0 <= i <= j < |ts| ensures FitsWindow(lim, ts, i, j) {
        if j < n {
          assert FitsWindow(lim, ts[..n], i, j);
        }
      }
    }
  }

  ghost predicate AllAdmitted(ds: seq<bool>) {
    forall i :: 0 <= i < |ds| ==> ds[i]
  }

  lemma {:induction false} AllAdmittedSnoc(ds: seq<bool>, ok: bool)
    ensures AllAdmitted(ds + [ok]) <==> AllAdmitted(ds) && ok
  {
    assert (ds + [ok])[|ds|] == ok;
    assert forall i :: 0 <= i < |ds| ==> (ds + [ok])[i] == ds[i];
  }

  // Nothing is refused if and only if the arrivals themselves fit every window.
  lemma {:induction false} AllAdmittedIff(lim: Limit, ts: seq<real>)
    ensures AllAdmitted(RunKey(lim, ts).1) <==> Fits(lim, ts)
    decreases |ts|
  {
    if ts != [] {
      var n := |ts| - 1;
      var front := ts[..n];
      var ds := RunKey(lim, front).1;
      AllAdmittedIff(lim, front);
      FitsSnoc(lim, ts);
      AllAdmittedSnoc(ds, Consume(lim, RunKey(lim, front).0, ts[n]).1);
      if AllAdmitted(ds) {
        LastAdmittedIff(lim, ts, ds);
      }
    }
  }

  lemma {:induction false} LastAdmittedIff(lim: Limit, ts: seq<real>, ds: seq<bool>)
    requires ts != [] && ds == RunKey(lim, ts[..|ts| - 1]).1
    requires AllAdmitted(ds)
    ensures Consume(lim, RunKey(lim, ts[..|ts| - 1]).0, ts[|ts| - 1]).1 <==>
            forall i :: 0 <= i <= |ds| ==> FitsWindow(lim, ts, i, |ds|)
  {
    var n := |ds|;
    AdmittedIffEveryWindowAllows(lim, ts[..n], ts[n]);
    RefillAdds(lim, ts[n], ts[n], ts[n]);
    assert FitsWindow(lim, ts, n, n) <==> lim.burst >= 1;
    forall i | 0 <= i < n
      ensures FitsWindow(lim, ts, i, n) <==>
              AdmittedFrom(ds, i) as real + 1.0 <= lim.burst as real + Refill(lim, ts[..n][i], ts[n])
    {
      AllCount(ds, i);
    }
  }

  lemma {:induction false} AllCount(ds: seq<bool>, i: nat)
    requires i <= |ds| && AllAdmitted(ds)
    ensures AdmittedFrom(ds, i) == |ds| - i
  {
    if i < |ds| {
      AllCount(ds[..|ds| - 1], i);
    }
  }

  // A client whose requests are at least 1/rate apart is never refused when burst is positive.
  lemma {:induction false} SpacedRequestsAreAdmitted(lim: Limit, ts: seq<real>)
    requires lim.burst >= 1
    requires forall i :: 0 <= i < |ts| - 1 ==> Refill(lim, ts[i], ts[i + 1]) >= 1.0
    ensures AllAdmitted(RunKey(lim, ts).1)
  {
    forall i, j | 0 <= i <= j < |ts| ensures FitsWindow(lim, ts, i, j) {
      SpacedRefill(lim, ts, i, j);
    }
    AllAdmittedIff(lim, ts);
  }

  lemma {:induction false} SpacedRefill(lim: Limit, ts: seq<real>, i: nat, j: nat)
    requires i <= j < |ts|
    requires forall k :: 0 <= k < |ts| - 1 ==> Refill(lim, ts[k], ts[k + 1]) >= 1.0
    ensures Refill(lim, ts[i], ts[j]) >= (j - i) as real
    decreases j
  {
    RefillAdds(lim, ts[i], ts[i], ts[i]);
    if i < j {
      SpacedRefill(lim, ts, i, j - 1);
      assert Refill(lim, ts[j - 1], ts[j - 1 + 1]) >= 1.0;
      RefillAdds(lim, ts[i], ts[j - 1], ts[j]);
    }
  }

  // ----- Lazy refill is continuous refill --------------------------------------------------

  // Two buckets no later request can tell apart.
  ghost predicate Alike(lim: Limit, b: Option<Bucket>, c: Option<Bucket>, from: real) {
    forall now :: from <= now ==> Available(lim, b, now) == Available(lim, c, now)
  }

  // Stopping anywhere in an idle gap to settle the refill changes nothing.
  lemma {:induction false} RefillSplits(lim: Limit, b: Option<Bucket>, stop: real)
    requires lim.rate >= 0.0
    ensures Alike(lim, b, Some(Bucket(Available(lim, b, stop), stop)), stop)
  {
    var c := Some(Bucket(Available(lim, b, stop), stop));
    forall now | stop <= now ensures Available(lim, b, now) == Available(lim, c, now) {
      RefillAdds(lim, stop, now, now);
      if b.Some? {
        RefillAdds(lim, b.value.last, stop, now);
      }
    }
  }

  function Select<T>(xs: seq<T>, keep: seq<bool>): seq<T>
    requires |xs| == |keep|
  {
    if xs == [] then []
    else Select(xs[..|xs| - 1], keep[..|xs| - 1]) + if keep[|xs| - 1] then [xs[|xs| - 1]] else []
  }

  lemma {:induction false} SelectSnoc<T>(xs: seq<T>, keep: seq<bool>, x: T, kept: bool)
    requires |xs| == |keep|
    ensures Select(xs + [x], keep + [kept]) == Select(xs, keep) + if kept then [x] else []
  {
    assert (xs + [x])[..|xs|] == xs && (keep + [kept])[..|xs|] == keep;
  }

  // One more request: it may be left out if it is refused.
  lemma {:induction false} RefusedLeavesNoTrace(lim: Limit, ts: seq<real>, us: seq<real>, t: real, kept: bool)
    requires lim.rate >= 0.0 && Indistinct(lim, ts, us) && (ts != [] ==> ts[|ts| - 1] <= t)
    requires Consume(lim, RunKey(lim, ts).0, t).1 ==> kept
    ensures var us' := us + if kept then [t] else [];
            && RunKey(lim, us').1 == RunKey(lim, us).1 + (if kept then [Consume(lim, RunKey(lim, ts).0, t).1] else [])
            && Indistinct(lim, ts + [t], us')
  {
    StillIndistinct(lim, ts, us, t);
    if kept {
      RunKeySnoc(lim, us, t);
    } else {
      assert us + [] == us && RunKey(lim, us).1 + [] == RunKey(lim, us).1;
    }
  }

  // Deleting any refused requests from a history changes no other decision.
  lemma {:induction false} RefusedRequestsLeaveNoTrace(lim: Limit, ts: seq<real>, keep: seq<bool>)
    requires lim.rate >= 0.0 && Ascending(ts) && |keep| == |ts|
    requires forall i :: 0 <= i < |ts| && RunKey(lim, ts).1[i] ==> keep[i]
    ensures RunKey(lim, Select(ts, keep)).1 == Select(RunKey(lim, ts).1, keep)
    ensures Indistinct(lim, ts, Select(ts, keep))
    decreases |ts|
  {
    if ts != [] {
      var n := |ts| - 1;
      var front, t, early := ts[..n], ts[n], keep[..n];
      var ds, ok := RunKey(lim, front).1, Consume(lim, RunKey(lim, front).0, t).1;
      assert ts == front + [t] && keep == early + [keep[n]];
      RunKeySnoc(lim, front, t);
      assert RunKey(lim, ts).1 == ds + [ok];
      forall i | 0 <= i < n && ds[i] ensures early[i] {
        assert RunKey(lim, ts).1[i];
      }
      assert RunKey(lim, ts).1[n] == ok;
      RefusedRequestsLeaveNoTrace(lim, front, early);
      RefusedLeavesNoTrace(lim, front, Select(front, early), t, keep[n]);
      SelectSnoc(front, early, t, keep[n]);
      SelectSnoc(ds, early, ok, keep[n]);
    }
  }

  // Two histories whose buckets no request from the last time of the first on can tell apart.
  ghost predicate Indistinct(lim: Limit, ts: seq<real>, us: seq<real>) {
    if ts == [] then us == [] else Alike(lim, RunKey(lim, ts).0, RunKey(lim, us).0, ts[|ts| - 1])
  }

  lemma {:induction false} StillIndistinct(lim: Limit, ts: seq<real>, us: seq<real>, t: real)
    requires lim.rate >= 0.0 && Indistinct(lim, ts, us) && (ts != [] ==> ts[|ts| - 1] <= t)
    ensures Consume(lim, RunKey(lim, ts).0, t) == Consume(lim, RunKey(lim, us).0, t)
    ensures Indistinct(lim, ts + [t], us + [t])
    ensures !Consume(lim, RunKey(lim, ts).0, t).1 ==> Indistinct(lim, ts + [t], us)
  {
    RunKeySnoc(lim, ts, t);
    RunKeySnoc(lim, us, t);
    var b, c := RunKey(lim, ts).0, RunKey(lim, us).0;
    assert Available(lim, b, t) == Available(lim, c, t);
    RefillSplits(lim, c, t);
  }

  // ----- Many keys ---------------------------------------------------------------------------

  datatype Request = Request(key: string, at: real)

  function RunAll(lim: Limit, reqs: seq<Request>): (r: (map<string, Bucket>, seq<bool>))
    ensures |r.1| == |reqs|
  {
    if reqs == [] then (map[], [])
    else
      var (st, ds) := RunAll(lim, reqs[..|reqs| - 1]);
      var q := reqs[|reqs| - 1];
      var (st', ok) := Charge(lim, st, q.key, q.at);
      (st', ds + [ok])
  }

  function TimesOf(reqs: seq<Request>, key: string): seq<real> {
    if reqs == [] then []
    else TimesOf(reqs[..|reqs| - 1], key) + if reqs[|reqs| - 1].key == key then [reqs[|reqs| - 1].at] else []
  }

  function DecisionsOf(reqs: seq<Request>, ds: seq<bool>, key: string): seq<bool>
    requires |ds| == |reqs|
  {
    if reqs == [] then []
    else
      DecisionsOf(reqs[..|reqs| - 1], ds[..|reqs| - 1], key)
      + if reqs[|reqs| - 1].key == key then [ds[|reqs| - 1]] else []
  }

  // Each key is served as if it were alone.
  lemma {:induction false} KeysDoNotInterfere(lim: Limit, reqs: seq<Request>, key: string)
    ensures var (st, ds) := RunAll(lim, reqs);
            && Find(st, key) == RunKey(lim, TimesOf(reqs, key)).0
            && DecisionsOf(reqs, ds, key) == RunKey(lim, TimesOf(reqs, key)).1
    decreases |reqs|
  {
    if reqs != [] {
      var front, q := reqs[..|reqs| - 1], reqs[|reqs| - 1];
      KeysDoNotInterfere(lim, front, key);
      var (st, ds) := RunAll(lim, front);
      var (st', ok) := Charge(lim, st, q.key, q.at);
      assert RunAll(lim, reqs) == (st', ds + [ok]);
      assert (ds + [ok])[..|front|] == ds;
      RunKeySnoc(lim, TimesOf(front, key), q.at);
      if q.key != key {
        assert TimesOf(reqs, key) == TimesOf(front, key);
        assert DecisionsOf(reqs, ds + [ok], key) == DecisionsOf(front, ds, key);
      }
    }
  }

  lemma {:induction false} EarlierDecisionsStand(lim: Limit, ts: seq<real>, j: nat)
    requires j <= |ts|
    ensures RunKey(lim, ts[..j]).1 == RunKey(lim, ts).1[..j]
    decreases |ts|
  {
    if j == |ts| {
      assert ts[..j] == ts;
    } else {
      assert ts[..|ts| - 1][..j] == ts[..j];
      EarlierDecisionsStand(lim, ts[..|ts| - 1], j);
    }
  }

  // For every key of a mixed run, and every window of its requests, from the i-th to the j-th:
  // at most burst plus refill are admitted.
  lemma {:induction false} EveryWindowOfEveryKeyIsBounded(lim: Limit, reqs: seq<Request>, key: string, i: nat, j: nat)
    requires lim.rate >= 0.0 && lim.burst >= 0
    requires Ascending(TimesOf(reqs, key)) && i <= j < |TimesOf(reqs, key)|
    ensures var ts, ds := TimesOf(reqs, key), DecisionsOf(reqs, RunAll(lim, reqs).1, key);
            |ds| == |ts| && AdmittedFrom(ds[..j + 1], i) as real <= lim.burst as real + Refill(lim, ts[i], ts[j])
  {
    KeysDoNotInterfere(lim, reqs, key);
    var ts := TimesOf(reqs, key);
    EarlierDecisionsStand(lim, ts, j + 1);
    assert ts[..j + 1][j] == ts[j] && Ascending(ts[..j + 1]);
    AdmittedInWindowIsBounded(lim, ts[..j + 1], i);
  }
}
