// The exponentially weighted reliability score, over exact reals.
module Reliability {
  function UpdateEMA(prevScore: real, success: bool): real {
    var weight := 0.1;
    (1.0 - weight) * prevScore + weight * (if success then 1.0 else 0.0)
  }

  // The score after a history of probes, oldest first.
  function Score(start: real, history: seq<bool>): real {
    if history == [] then start else UpdateEMA(Score(start, history[..|history| - 1]), history[|history| - 1])
  }

  // 0.9 to the n.
  function Decay(n: nat): real {
    if n == 0 then 1.0 else 0.9 * Decay(n - 1)
  }

  // A score that fades over n failed probes, step by step.
  function Faded(n: nat, x: real): real {
    if n == 0 then x else 0.9 * Faded(n - 1, x)
  }

  lemma {:induction false} FadedIsDecay(n: nat, x: real)
    ensures Faded(n, x) == Decay(n) * x
  {
    if n > 0 {
      FadedIsDecay(n - 1, x);
      var d := Decay(n - 1);
      assert 0.9 * d * x == 0.9 * (d * x);
    }
  }

  lemma {:induction false} FadedIsBounded(n: nat, x: real)
    requires x <= 1.0
    ensures Faded(n, x) <= Decay(n)
  {
    if n > 0 {
      FadedIsBounded(n - 1, x);
    }
  }

  // Each success, weighted by how many probes came after it.
  function WeightedSuccesses(history: seq<bool>): real {
    if history == [] then 0.0
    else (if history[0] then 0.1 * Decay(|history| - 1) else 0.0) + WeightedSuccesses(history[1..])
  }

  lemma {:induction false} WeightedSnoc(history: seq<bool>, b: bool)
    ensures WeightedSuccesses(history + [b]) == 0.9 * WeightedSuccesses(history) + (if b then 0.1 else 0.0)
    decreases |history|
  {
    if history == [] {
      assert ([] + [b])[1..] == [];
    } else {
      assert (history + [b])[1..] == history[1..] + [b];
      WeightedSnoc(history[1..], b);
      assert Decay(|history|) == 0.9 * Decay(|history| - 1);
    }
  }

  lemma {:induction false} ScoreSplits(start: real, history: seq<bool>)
    ensures Score(start, history) == Faded(|history|, start) + WeightedSuccesses(history)
    decreases |history|
  {
    if history != [] {
      var front, last := history[..|history| - 1], history[|history| - 1];
      ScoreSplits(start, front);
      WeightedSnoc(front, last);
      assert history == front + [last];
    }
  }

  // The recursive score is the start, decayed, plus every success weighted by its age.
  lemma {:induction false} ScoreClosedForm(start: real, history: seq<bool>)
    ensures Score(start, history) == Decay(|history|) * start + WeightedSuccesses(history)
  {
    ScoreSplits(start, history);
    FadedIsDecay(|history|, start);
  }

  lemma {:induction false} ScoreStaysInRange(start: real, history: seq<bool>)
    requires 0.0 <= start <= 1.0
    ensures 0.0 <= Score(start, history) <= 1.0
    decreases |history|
  {
    if history != [] {
      ScoreStaysInRange(start, history[..|history| - 1]);
    }
  }

  // A history that succeeds wherever another does never scores lower.
  lemma {:induction false} ScoreIsMonotone(start: real, start': real, history: seq<bool>, history': seq<bool>)
    requires start <= start' && |history| == |history'|
    requires forall i :: 0 <= i < |history| ==> history[i] ==> history'[i]
    ensures Score(start, history) <= Score(start', history')
    decreases |history|
  {
    if history != [] {
      var n := |history| - 1;
      ScoreIsMonotone(start, start', history[..n], history'[..n]);
      assert history[n] ==> history'[n];
    }
  }

  function Failures(k: nat): seq<bool> {
    seq(k, _ => false)
  }

  lemma {:induction false} FailuresFade(start: real, history: seq<bool>, k: nat)
    ensures Score(start, history + Failures(k)) == Faded(k, Score(start, history))
    decreases k
  {
    if k == 0 {
      assert history + Failures(0) == history;
    } else {
      FailuresFade(start, history, k - 1);
      var h := history + Failures(k);
      assert h[..|h| - 1] == history + Failures(k - 1);
      assert h[|h| - 1] == false;
    }
  }

  // k failures in a row scale the score by 0.9 to the k.
  lemma {:induction false} TrailingFailuresScale(start: real, history: seq<bool>, k: nat)
    ensures Score(start, history + Failures(k)) == Decay(k) * Score(start, history)
  {
    FailuresFade(start, history, k);
    FadedIsDecay(k, Score(start, history));
  }

  // So whatever went before, they force the score of a start in range to at most 0.9 to the k.
  lemma {:induction false} TrailingFailuresBound(start: real, history: seq<bool>, k: nat)
    requires 0.0 <= start <= 1.0
    ensures Score(start, history + Failures(k)) <= Decay(k)
  {
    ScoreStaysInRange(start, history);
    FailuresFade(start, history, k);
    FadedIsBounded(k, Score(start, history));
  }
}
