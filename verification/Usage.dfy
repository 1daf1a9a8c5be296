/**
 * Screen time as a measure. A device was in use at instant x when two of its sightings lie
 * around x, less than five minutes apart; the measure is the number of such instants.
 */
module Usage {
  import opened Prelude

  /** Instants are nanoseconds. */
  const MINUTE: int := 60_000_000_000
  const GAP: int := 5 * MINUTE
  const DAY: int := 1440 * MINUTE

  /** The instants covered by two of the given sightings less than GAP apart. */
  function Active(sightings: set<Time>): set<Time> {
    set p, q, x | p in sightings && q in sightings && q - p < GAP && x in Interval(p, q) :: x
  }

  function Measure(sightings: set<Time>): nat {
    |Active(sightings)|
  }

  /** Sightings p and q together show use at x. */
  predicate Shows(p: Time, q: Time, x: Time) {
    q - p < GAP && p <= x < q
  }

  lemma ActiveIff(s: set<Time>, x: Time)
    ensures x in Active(s) <==> exists p, q :: p in s && q in s && Shows(p, q, x)
  {
    if x in Active(s) {
      var p, q :| p in s && q in s && q - p < GAP && x in Interval(p, q);
      assert Shows(p, q, x);
    }
    if p, q :| p in s && q in s && Shows(p, q, x) {
      assert x in Interval(p, q);
    }
  }

  lemma ActiveWithLatest(s: set<Time>, latest: Time, at: Time)
    requires latest in s && (forall t :: t in s ==> t <= latest) && latest <= at
    ensures Active(s + {at}) == Active(s) + if at - latest < GAP then Interval(latest, at) else {}
    ensures Active(s) !! Interval(latest, at)
  {
    hide Active;
    var s' := s + {at};
    forall x
      ensures x in Active(s') <==> x in Active(s) || (at - latest < GAP && x in Interval(latest, at))
      ensures x in Active(s) ==> x < latest
    {
      hide Interval;
      ActiveIff(s, x);
      ActiveIff(s', x);
      if x in Active(s') {
        var p, q :| p in s' && q in s' && Shows(p, q, x);
        if p in s && q !in s && x < latest {
          assert Shows(p, latest, x);
        }
      }
      if at - latest < GAP && x in Interval(latest, at) {
        assert Shows(latest, at, x);
      }
    }
  }

  /** One sighting no earlier than the rest adds its gap to the latest one, if that is short enough. */
  lemma MeasureWithLatest(s: set<Time>, latest: Time, at: Time)
    requires latest in s && (forall t :: t in s ==> t <= latest) && latest <= at
    ensures Measure(s + {at}) == Measure(s) + if at - latest < GAP then at - latest else 0
  {
    ActiveWithLatest(s, latest, at);
    if at - latest < GAP {
      IntervalSize(latest, at);
      DisjointSize(Active(s), Interval(latest, at));
    }
  }

  lemma MeasureOfOne(at: Time)
    ensures Measure({at}) == 0
  {
    assert Active({at}) == {};
  }

  /** More sightings never mean less use. */
  lemma MeasureMonotone(s: set<Time>, t: set<Time>)
    requires s <= t
    ensures Measure(s) <= Measure(t)
  {
    forall x | x in Active(s)
      ensures x in Active(t)
    {
      ActiveIff(s, x);
      ActiveIff(t, x);
    }
    SubsetSize(Active(s), Active(t));
  }

  /** Use never exceeds the time from the first sighting to the last. */
  lemma MeasureWithinSpan(s: set<Time>, first: Time, last: Time)
    requires first <= last && forall t :: t in s ==> first <= t <= last
    ensures Measure(s) <= last - first
  {
    forall x | x in Active(s)
      ensures x in Interval(first, last)
    {
      ActiveIff(s, x);
    }
    SubsetSize(Active(s), Interval(first, last));
    IntervalSize(first, last);
  }

  /** Splitting the sightings at a silence of at least GAP splits the use. */
  lemma MeasureSplits(s: set<Time>, t: set<Time>, a: Time, b: Time)
    requires (forall x :: x in s ==> x <= a) && (forall x :: x in t ==> b <= x) && b - a >= GAP
    ensures Measure(s + t) == Measure(s) + Measure(t)
  {
    forall x
      ensures x in Active(s + t) <==> x in Active(s) + Active(t)
    {
      ActiveIff(s, x);
      ActiveIff(t, x);
      ActiveIff(s + t, x);
    }
    assert Active(s + t) == Active(s) + Active(t);
    forall x
      ensures !(x in Active(s) && x in Active(t))
    {
      ActiveIff(s, x);
      ActiveIff(t, x);
    }
    DisjointSize(Active(s), Active(t));
  }

  // ---- ORDER BY at ----------------------------------------------------------------------

  ghost predicate Ascending(times: seq<Time>) {
    forall i, j :: 0 <= i < j < |times| ==> times[i] <= times[j]
  }

  /** What one more row adds, prev being the row before it. */
  lemma MeasureOfNextRow(times: seq<Time>, i: nat)
    requires i < |times| && Ascending(times)
    ensures Measure(SetOf(times[..i + 1])) ==
            Measure(SetOf(times[..i])) + if i > 0 && times[i] - times[i - 1] < GAP then times[i] - times[i - 1] else 0
  {
    hide Measure;
    var at := times[i];
    assert times[..i + 1] == times[..i] + [at];
    assert SetOf(times[..i + 1]) == SetOf(times[..i]) + {at};
    if i == 0 {
      assert SetOf(times[..i]) == {};
      assert SetOf(times[..i + 1]) == {at};
      MeasureOfOne(at);
      MeasureOfNone();
    } else {
      assert times[i - 1] in times[..i];
      MeasureWithLatest(SetOf(times[..i]), times[i - 1], at);
    }
  }

  lemma MeasureOfNone()
    ensures Measure({}) == 0
  {
    assert Active({}) == {};
  }

  /** The gap-chaining loop over rows in ascending order: its total is the measure. */
  method ChainGaps(times: seq<Time>) returns (total: int)
    requires Ascending(times) && ZERO_TIME !in times
    ensures total == Measure(SetOf(times))
  {
    hide Measure, SetOf;
    total := 0;
    var prev := ZERO_TIME;
    NoRows(times);
    for i := 0 to |times|
      invariant total == Measure(SetOf(times[..i]))
      invariant prev == if i == 0 then ZERO_TIME else times[i - 1]
    {
      var at := times[i];
      if prev != ZERO_TIME {
        var d := at - prev;
        if d > 0 && d < GAP {
          total := total + d;
        }
      }
      MeasureOfNextRow(times, i);
      assert i > 0 ==> times[i - 1] in times;
      prev := at;
    }
    assert times[..|times|] == times;
  }

  lemma NoRows(times: seq<Time>)
    ensures Measure(SetOf(times[..0])) == 0
  {
    assert SetOf(times[..0]) == {};
    MeasureOfNone();
  }
}
