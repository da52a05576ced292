// Shared vocabulary: results, the set of a list's elements, duplicate-free lists.
module Common {
  datatype Option<+T> = None | Some(value: T)
  datatype Result<+T, +E> = Success(value: T) | Failure(error: E)

  // Clocks count nanoseconds; a stored RFC 3339 timestamp keeps whole seconds.
  const SECOND := 1_000_000_000

  function Stamp(now: int): int {
    now / SECOND
  }

  // The program's integers. Only chain heights and tips come near the limits; the model wraps
  // them and leaves counts, seconds and configured windows unbounded.
  const MIN_INT64 := -0x8000_0000_0000_0000
  const MAX_INT64 := 0x7fff_ffff_ffff_ffff

  type Int64 = n: int | MIN_INT64 <= n <= MAX_INT64

  // The sum or difference of two 64-bit integers, wrapped.
  function Wrapped(n: int): Int64
    requires 2 * MIN_INT64 <= n <= 2 * MAX_INT64 + 1
  {
    if n > MAX_INT64 then n - 0x1_0000_0000_0000_0000
    else if n < MIN_INT64 then n + 0x1_0000_0000_0000_0000
    else n
  }

  function Elems<T>(s: seq<T>): set<T> {
    set x | x in s
  }

  ghost predicate NoDup<T>(s: seq<T>) {
    forall i, j :: 0 <= i < j < |s| ==> s[i] != s[j]
  }

  function MaxReal(a: real, b: real): real {
    if a < b then b else a
  }

  function MinReal(a: real, b: real): real {
    if b < a then b else a
  }

  // The pigeonhole count: a list has at most as many elements as positions, with
  // equality exactly when no element repeats.
  lemma {:induction false} CountElems<T>(s: seq<T>)
    ensures |Elems(s)| <= |s|
    ensures |Elems(s)| == |s| <==> NoDup(s)
  {
    if s == [] {
      assert Elems(s) == {};
    } else {
      var last := s[|s| - 1];
      var front := s[..|s| - 1];
      CountElems(front);
      assert s == front + [last];
      assert Elems(s) == Elems(front) + {last};
      if last in front {
        assert Elems(s) == Elems(front);
        var i :| 0 <= i < |front| && front[i] == last;
        assert s[i] == s[|s| - 1];
      } else {
        assert NoDup(front) ==> NoDup(s);
        assert NoDup(s) ==> NoDup(front) by {
          if NoDup(s) {
            forall i, j | 0 <= i < j < |front| ensures front[i] != front[j] {
              assert s[i] != s[j];
            }
          }
        }
      }
    }
  }

  lemma {:induction false} SubsetCard<T>(a: set<T>, b: set<T>)
    requires a <= b
    ensures |a| <= |b|
    ensures |a| == |b| ==> a == b
  {
    assert b == a + (b - a);
    assert |b| == |a| + |b - a|;
  }

  // A permutation keeps the length, the elements and duplicate-freedom.
  lemma {:induction false} PermutationKeeps<T>(s: seq<T>, t: seq<T>)
    requires multiset(s) == multiset(t)
    ensures |s| == |t| && Elems(s) == Elems(t)
    ensures NoDup(s) <==> NoDup(t)
  {
    assert |multiset(s)| == |s| && |multiset(t)| == |t|;
    forall x ensures x in s <==> x in t {
      assert x in s <==> x in multiset(s);
      assert x in t <==> x in multiset(t);
    }
    CountElems(s);
    CountElems(t);
  }

  // The elements of a list in order of first appearance.
  ghost function Distinct<T>(s: seq<T>): (d: seq<T>)
    ensures Elems(d) == Elems(s) && NoDup(d) && |d| == |Elems(s)| <= |s|
  {
    if s == [] then []
    else
      var d := Distinct(s[..|s| - 1]);
      var last := s[|s| - 1];
      assert s == s[..|s| - 1] + [last];
      var r := if last in d then d else d + [last];
      assert Elems(r) == Elems(d) + {last};
      CountElems(r);
      CountElems(s);
      r
  }

  lemma {:induction false} DistinctSnoc<T>(s: seq<T>, x: T)
    ensures Distinct(s + [x]) == if x in s then Distinct(s) else Distinct(s) + [x]
    ensures forall y :: y in Distinct(s) <==> y in s
  {
    assert (s + [x])[..|s|] == s;
    assert forall y :: y in Distinct(s) <==> y in Elems(Distinct(s));
    assert x in Distinct(s) <==> x in s;
  }

  lemma {:induction false} NoDupSnoc<T>(s: seq<T>, x: T)
    ensures NoDup(s + [x]) <==> NoDup(s) && x !in s
  {
    var t := s + [x];
    if NoDup(t) {
      forall i, j | 0 <= i < j < |s| ensures s[i] != s[j] {
        assert t[i] != t[j];
      }
      forall i | 0 <= i < |s| ensures s[i] != x {
        assert t[i] != t[|s|];
      }
    }
  }

  // The elements of a list that satisfy a condition, in the order of the list.
  ghost function Filtered<T(!new)>(s: seq<T>, keep: T -> bool): (r: seq<T>)
    ensures forall x :: x in r <==> x in s && keep(x)
  {
    if s == [] then []
    else
      var front, last := Filtered(s[..|s| - 1], keep), s[|s| - 1];
      assert s == s[..|s| - 1] + [last];
      if keep(last) then front + [last] else front
  }

  lemma {:induction false} FilteredSnoc<T(!new)>(s: seq<T>, x: T, keep: T -> bool)
    ensures Filtered(s + [x], keep) == Filtered(s, keep) + if keep(x) then [x] else []
  {
    assert (s + [x])[..|s|] == s;
  }

  lemma {:induction false} FilteredTwice<T(!new)>(s: seq<T>, first: T -> bool, second: T -> bool, both: T -> bool)
    requires forall x :: x in s ==> (both(x) <==> first(x) && second(x))
    ensures Filtered(Filtered(s, first), second) == Filtered(s, both)
  {
    if s != [] {
      var front, last := s[..|s| - 1], s[|s| - 1];
      assert s == front + [last];
      FilteredTwice(front, first, second, both);
      FilteredSnoc(front, last, first);
      FilteredSnoc(front, last, both);
      FilteredSnoc(Filtered(front, first), last, second);
    }
  }
}
