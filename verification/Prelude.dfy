/** Small shared vocabulary: optional values, results, and a few facts about finite sets. */
module Prelude {

  datatype Option<+T> = None | Some(value: T)

  datatype Result<+T> = Ok(value: T) | Err(error: string)

  /** An instant. 0 is Go's zero time, the value time.Time.IsZero recognises. */
  type Time = int

  const ZERO_TIME: Time := 0

  const SECOND: int := 1_000_000_000

  /** CURRENT_TIMESTAMP at instant t: the fraction of a second is dropped. */
  function WholeSecond(t: Time): (r: Time)
    ensures r % SECOND == 0 && r <= t < r + SECOND
  {
    t - t % SECOND
  }

  /** No element occurs twice. */
  ghost predicate Distinct<T>(s: seq<T>) {
    forall i, j :: 0 <= i < j < |s| ==> s[i] != s[j]
  }

  function SetOf<T>(s: seq<T>): set<T> {
    set x | x in s
  }

  /** s lists every element of xs exactly once, in some order. */
  ghost predicate Lists<T(!new)>(s: seq<T>, xs: set<T>) {
    (forall x :: x in s <==> x in xs) && Distinct(s)
  }

  lemma {:induction false} ListsLength<T(!new)>(s: seq<T>, xs: set<T>)
    requires Lists(s, xs)
    ensures |s| == |xs|
  {
    if s == [] {
      assert xs == {};
    } else {
      var front := s[..|s| - 1];
      var last := s[|s| - 1];
      assert s == front + [last];
      assert last !in front;
      ListsLength(front, xs - {last});
    }
  }

  lemma {:induction false} SubsetSize<T>(a: set<T>, b: set<T>)
    requires a <= b
    ensures |a| <= |b|
  {
    assert b == a + (b - a);
  }

  lemma SingletonSize<T>(xs: set<T>, x: T)
    requires x in xs
    ensures |xs| == 1 <==> xs == {x}
  {
    if |xs| == 1 {
      assert |xs - {x}| == 0;
    }
  }

  lemma DisjointSize<T>(a: set<T>, b: set<T>)
    requires a !! b
    ensures |a + b| == |a| + |b|
  {
  }

  predicate Within(lo: int, x: int, hi: int) {
    lo <= x < hi
  }

  /** The integers from lo up to, not including, hi. */
  function Interval(lo: int, hi: int): set<int> {
    set x | lo <= x < hi && Within(lo, x, hi)
  }

  lemma {:induction false} IntervalSize(lo: int, hi: int)
    requires lo <= hi
    ensures |Interval(lo, hi)| == hi - lo
    decreases hi - lo
  {
    if lo == hi {
      assert Interval(lo, hi) == {};
    } else {
      IntervalSize(lo, hi - 1);
      assert Interval(lo, hi) == Interval(lo, hi - 1) + {hi - 1};
    }
  }
}
