// The per-key token bucket of the API middleware. Time is in exact real seconds and never runs
// backwards (Go subtracts monotonic clock readings, taken under the bucket's lock).
module RateLimit {
  import opened Common

  datatype Limit = Limit(rate: real, burst: int)

  datatype Bucket = Bucket(tokens: real, last: real)

  // Tokens earned between two instants.
  function Gain(lim: Limit, from: real, to: real): real {
    (to - from) * lim.rate
  }

  // Tokens on hand at `now`, before the request takes one. A key without a bucket starts full.
  function Available(lim: Limit, b: Option<Bucket>, now: real): real {
    match b
    case None => lim.burst as real
    case Some(bucket) => MinReal(bucket.tokens + Gain(lim, bucket.last, now), lim.burst as real)
  }

  function Consume(lim: Limit, b: Option<Bucket>, now: real): (Bucket, bool) {
    var have := Available(lim, b, now);
    if have < 1.0 then (Bucket(have, now), false) else (Bucket(have - 1.0, now), true)
  }

  // A fresh bucket behaves like the full one a new key is given.
  lemma {:induction false} FullBucketIsNew(lim: Limit, now: real)
    ensures Consume(lim, Some(Bucket(lim.burst as real, now)), now) == Consume(lim, None, now)
  {
    assert Gain(lim, now, now) == 0.0;
  }

  // ----- The key a request is charged to ----------------------------------------------------

  function Dots(s: string): nat {
    if s == "" then 0 else Dots(s[1..]) + if s[0] == '.' then 1 else 0
  }

  function BeforeDot(s: string): string {
    if s == "" || s[0] == '.' then "" else [s[0]] + BeforeDot(s[1..])
  }

  // The first segment of a token that has at least three; otherwise the whole token.
  function KeyOf(apiKey: string): string {
    if Dots(apiKey) >= 2 then BeforeDot(apiKey) else apiKey
  }

  lemma {:induction false} DotsConcat(s: string, t: string)
    ensures Dots(s + t) == Dots(s) + Dots(t)
  {
    if s == "" {
      assert s + t == t;
    } else {
      assert (s + t)[1..] == s[1..] + t;
      DotsConcat(s[1..], t);
    }
  }

  lemma {:induction false} BeforeDotStops(p: string, rest: string)
    requires Dots(p) == 0
    ensures BeforeDot(p + "." + rest) == p
  {
    var s := p + "." + rest;
    if p == "" {
      assert s[0] == '.';
    } else {
      assert p[0] != '.' && s[0] == p[0];
      assert s[1..] == p[1..] + "." + rest;
      BeforeDotStops(p[1..], rest);
    }
  }

  lemma {:induction false} DotlessIff(s: string)
    ensures Dots(s) == 0 <==> '.' !in s
  {
    if s != "" {
      DotlessIff(s[1..]);
      assert s == [s[0]] + s[1..];
    }
  }

  // All three-part tokens of one peer share a bucket, whatever their other parts.
  lemma {:induction false} TokensOfAPeerShareAKey(peer: string, middle: string, tail: string)
    requires '.' !in peer
    ensures KeyOf(peer + "." + middle + "." + tail) == peer
  {
    var rest := middle + "." + tail;
    DotlessIff(peer);
    assert peer + "." + middle + "." + tail == peer + "." + rest;
    assert peer + "." + rest == peer + ("." + rest);
    DotsConcat(peer, "." + rest);
    DotsConcat(".", rest);
    DotsConcat(middle, "." + tail);
    assert middle + "." + tail == middle + ("." + tail);
    DotsConcat(".", tail);
    BeforeDotStops(peer, rest);
  }

  // A token of one or two parts is its own key.
  lemma {:induction false} ShortTokensAreTheirOwnKey(first: string, second: string)
    requires '.' !in first && '.' !in second
    ensures KeyOf(first) == first && KeyOf(first + "." + second) == first + "." + second
  {
    DotlessIff(first);
    DotlessIff(second);
    assert first + "." + second == first + ("." + second);
    DotsConcat(first, "." + second);
    DotsConcat(".", second);
  }

  // ----- The limiter: one bucket object per key ------------------------------------------------

  class TokenBucket {
    var tokens: real
    var last: real

    constructor (tokens: real, last: real)
      ensures this.tokens == tokens && this.last == last
    {
      this.tokens, this.last := tokens, last;
    }

    // The part of consumeToken under the bucket's own lock.
    method Take(lim: Limit, now: real) returns (ok: bool)
      modifies this
      ensures (Bucket(tokens, last), ok) == Consume(lim, Some(Bucket(old(tokens), old(last))), now)
    {
      tokens := tokens + Gain(lim, last, now);
      if tokens > lim.burst as real {
        tokens := lim.burst as real;
      }
      last := now;
      if tokens < 1.0 {
        return false;
      }
      tokens := tokens - 1.0;
      return true;
    }
  }

  class RateLimiter {
    const lim: Limit
    var buckets: map<string, TokenBucket>

    // Different keys never share a bucket object.
    ghost predicate Valid()
      reads this
    {
      forall k, k' :: k in buckets && k' in buckets && k != k' ==> buckets[k] != buckets[k']
    }

    ghost function Contents(): map<string, Bucket>
      reads this, buckets.Values
    {
      map k | k in buckets :: Bucket(buckets[k].tokens, buckets[k].last)
    }

    constructor (rate: real, burst: int)
      ensures Valid() && lim == Limit(rate, burst) && Contents() == map[]
    {
      lim, buckets := Limit(rate, burst), map[];
    }

    method ConsumeToken(key: string, now: real) returns (ok: bool)
      requires Valid()
      modifies this, buckets.Values
      ensures Valid() && fresh(buckets.Values - old(buckets.Values))
      ensures (Contents(), ok) == Charge(lim, old(Contents()), key, now)
    {
      ghost var before := Contents();
      if key !in buckets {
        var b := new TokenBucket(lim.burst as real, now);
        buckets := buckets[key := b];
      }
      FullBucketIsNew(lim, now);
      ok := buckets[key].Take(lim, now);
      assert forall k :: k in buckets && k != key ==> buckets[k] != buckets[key];
      assert Contents() == before[key := Consume(lim, Find(before, key), now).0];
    }

    // A request with an empty key is served without being charged; the limiter leaves it to
    // authentication.
    method Admit(apiKey: string, now: real) returns (served: bool)
      requires Valid()
      modifies this, buckets.Values
      ensures Valid() && fresh(buckets.Values - old(buckets.Values))
      ensures KeyOf(apiKey) == "" ==> served && Contents() == old(Contents())
      ensures KeyOf(apiKey) != "" ==> (Contents(), served) == Charge(lim, old(Contents()), KeyOf(apiKey), now)
    {
      var key := KeyOf(apiKey);
      if key == "" {
        return true;
      }
      served := ConsumeToken(key, now);
    }
  }

  function Find(st: map<string, Bucket>, key: string): Option<Bucket> {
    if key in st then Some(st[key]) else None
  }

  function Charge(lim: Limit, st: map<string, Bucket>, key: string, now: real): (map<string, Bucket>, bool) {
    var (b, ok) := Consume(lim, Find(st, key), now);
    (st[key := b], ok)
  }
}
