/**
 * The two windowed report queries. LAG over a device's own rows gives each row its gap; the
 * gaps are summed by UTC day or by device. Both reports account for the same use.
 */
module Reports {
  import opened Prelude
  import opened EventModel
  import opened Usage

  // ---- the rows a query sees ------------------------------------------------------------

  /** The WHERE clause: an empty person keeps everyone. */
  predicate Selected(ev: Event, since: Time, person: string) {
    ev.kind == DEVICE_SEEN && ev.at >= since && (person == "" || ev.person == Some(person))
  }

  function Filtered(events: seq<Event>, since: Time, person: string): (r: seq<Event>)
    ensures forall e :: e in r <==> e in events && Selected(e, since, person)
  {
    if events == [] then []
    else
      var e := events[|events| - 1];
      Filtered(events[..|events| - 1], since, person) + if Selected(e, since, person) then [e] else []
  }

  ghost predicate ByTime(rows: seq<Event>) {
    forall i, j :: 0 <= i < j < |rows| ==> rows[i].at <= rows[j].at
  }

  function InsertByTime(e: Event, rows: seq<Event>): (r: seq<Event>)
    requires ByTime(rows)
    ensures ByTime(r) && |r| == |rows| + 1
    ensures forall x :: x in r <==> x == e || x in rows
  {
    if rows == [] || rows[|rows| - 1].at <= e.at then rows + [e]
    else
      var front, last := rows[..|rows| - 1], rows[|rows| - 1];
      assert rows == front + [last];
      assert forall x :: x in front ==> x.at <= last.at;
      var rest := InsertByTime(e, front);
      assert forall i :: 0 <= i < |rest| ==> rest[i] in rest;
      rest + [last]
  }

  /** ORDER BY at. */
  function SortByTime(events: seq<Event>): (r: seq<Event>)
    ensures ByTime(r) && |r| == |events|
    ensures forall x :: x in r <==> x in events
  {
    if events == [] then []
    else
      assert events == events[..|events| - 1] + [events[|events| - 1]];
      InsertByTime(events[|events| - 1], SortByTime(events[..|events| - 1]))
  }

  function Window(events: seq<Event>, since: Time, person: string): (r: seq<Event>)
    ensures ByTime(r)
    ensures forall e :: e in r <==> e in events && Selected(e, since, person)
  {
    SortByTime(Filtered(events, since, person))
  }

  // ---- LAG and the gaps -----------------------------------------------------------------

  /** The at of the last of the first n rows that belongs to the device: LAG, partitioned by device. */
  function LagAt(rows: seq<Event>, n: nat, device: string): Option<Time>
    requires n <= |rows|
  {
    if n == 0 then None
    else if rows[n - 1].device == device then Some(rows[n - 1].at)
    else LagAt(rows, n - 1, device)
  }

  datatype GapRow = GapRow(device: string, at: Time, gap: Option<int>)

  function GapRowAt(rows: seq<Event>, i: nat): GapRow
    requires i < |rows|
  {
    var lag := LagAt(rows, i, rows[i].device);
    GapRow(rows[i].device, rows[i].at, if lag.Some? then Some(rows[i].at - lag.value) else None)
  }

  function GapRows(rows: seq<Event>): (r: seq<GapRow>)
    ensures |r| == |rows| && forall i :: 0 <= i < |rows| ==> r[i] == GapRowAt(rows, i)
  {
    seq(|rows|, i requires 0 <= i < |rows| => GapRowAt(rows, i))
  }

  /** CASE WHEN gap IS NOT NULL AND gap < 5 minutes THEN gap ELSE 0. */
  function Counted(g: GapRow): int {
    if g.gap.Some? && g.gap.value < GAP then g.gap.value else 0
  }

  // ---- GROUP BY -------------------------------------------------------------------------

  datatype Key = OfDay(day: int) | OfDevice(device: string)

  datatype Grouping = PerDay | PerDevice

  function KeyOf(grp: Grouping, g: GapRow): Key {
    match grp
    case PerDay => OfDay(g.at / DAY)
    case PerDevice => OfDevice(g.device)
  }

  function GroupSum(gaps: seq<GapRow>, grp: Grouping, k: Key): int {
    if gaps == [] then 0
    else
      var g := gaps[|gaps| - 1];
      GroupSum(gaps[..|gaps| - 1], grp, k) + if KeyOf(grp, g) == k then Counted(g) else 0
  }

  function Keys(gaps: seq<GapRow>, grp: Grouping): set<Key> {
    set g | g in gaps :: KeyOf(grp, g)
  }

  function Total(gaps: seq<GapRow>): int {
    if gaps == [] then 0 else Total(gaps[..|gaps| - 1]) + Counted(gaps[|gaps| - 1])
  }

  /** The groups' sums, over a listing of groups. */
  function SumOver(gaps: seq<GapRow>, grp: Grouping, ks: seq<Key>): int {
    if ks == [] then 0 else SumOver(gaps, grp, ks[..|ks| - 1]) + GroupSum(gaps, grp, ks[|ks| - 1])
  }

  lemma {:induction false} SumOverNothing(grp: Grouping, ks: seq<Key>)
    ensures SumOver([], grp, ks) == 0
  {
    if ks != [] {
      SumOverNothing(grp, ks[..|ks| - 1]);
    }
  }

  lemma {:induction false} SumOverOneMore(gaps: seq<GapRow>, g: GapRow, grp: Grouping, ks: seq<Key>)
    requires Distinct(ks)
    ensures SumOver(gaps + [g], grp, ks) == SumOver(gaps, grp, ks) + if KeyOf(grp, g) in ks then Counted(g) else 0
    decreases |ks|
  {
    if ks != [] {
      var front, k := ks[..|ks| - 1], ks[|ks| - 1];
      assert ks == front + [k];
      SumOverOneMore(gaps, g, grp, front);
      assert (gaps + [g])[..|gaps|] == gaps;
      assert KeyOf(grp, g) in ks <==> KeyOf(grp, g) in front || KeyOf(grp, g) == k;
      assert k !in front;
    }
  }

  /** Grouping loses nothing: over all groups, the sums add up to the total. */
  lemma {:induction false} GroupsAddUp(gaps: seq<GapRow>, grp: Grouping, ks: seq<Key>)
    requires Distinct(ks) && forall g :: g in gaps ==> KeyOf(grp, g) in ks
    ensures SumOver(gaps, grp, ks) == Total(gaps)
    decreases |gaps|
  {
    if gaps == [] {
      SumOverNothing(grp, ks);
    } else {
      var front, g := gaps[..|gaps| - 1], gaps[|gaps| - 1];
      assert gaps == front + [g];
      GroupsAddUp(front, grp, ks);
      SumOverOneMore(front, g, grp, ks);
    }
  }

  // ---- a device's share is its use ------------------------------------------------------

  function TimesOf(rows: seq<Event>, device: string): set<Time> {
    set e | e in rows && e.device == device :: e.at
  }

  lemma {:induction false} LagIsLatest(rows: seq<Event>, n: nat, device: string)
    requires ByTime(rows) && n <= |rows|
    ensures LagAt(rows, n, device).None? <==> TimesOf(rows[..n], device) == {}
    ensures LagAt(rows, n, device).Some? ==>
      LagAt(rows, n, device).value in TimesOf(rows[..n], device)
    ensures LagAt(rows, n, device).Some? ==>
      forall t :: t in TimesOf(rows[..n], device) ==> t <= LagAt(rows, n, device).value
  {
    if n > 0 {
      LagIsLatest(rows, n - 1, device);
      var e := rows[n - 1];
      assert rows[..n] == rows[..n - 1] + [e];
      if e.device == device {
        assert e in rows[..n] && e.at in TimesOf(rows[..n], device);
        forall t | t in TimesOf(rows[..n], device)
          ensures t <= e.at
        {
          var x :| x in rows[..n] && x.device == device && x.at == t;
          var i :| 0 <= i < n && rows[i] == x;
        }
      } else {
        assert TimesOf(rows[..n], device) == TimesOf(rows[..n - 1], device);
      }
    }
  }

  lemma TimesOfNext(rows: seq<Event>, n: nat, device: string)
    requires n < |rows|
    ensures TimesOf(rows[..n + 1], device) ==
            TimesOf(rows[..n], device) + if rows[n].device == device then {rows[n].at} else {}
  {
    assert rows[..n + 1] == rows[..n] + [rows[n]];
  }

  lemma GapIsMeasured(rows: seq<Event>, n: nat)
    requires ByTime(rows) && n < |rows|
    ensures Measure(TimesOf(rows[..n + 1], rows[n].device)) ==
            Measure(TimesOf(rows[..n], rows[n].device)) + Counted(GapRowAt(rows, n))
  {
    hide Measure, TimesOf, LagAt;
    var d, at := rows[n].device, rows[n].at;
    var s := TimesOf(rows[..n], d);
    TimesOfNext(rows, n, d);
    LagIsLatest(rows, n, d);
    var lag := LagAt(rows, n, d);
    if lag.None? {
      assert s + {at} == {at};
      MeasureOfOne(at);
      MeasureOfNone();
    } else {
      LagBefore(rows, n, d);
      MeasureWithLatest(s, lag.value, at);
    }
  }

  lemma {:induction false} LagBefore(rows: seq<Event>, n: nat, device: string)
    requires ByTime(rows) && n < |rows|
    ensures LagAt(rows, n, device).Some? ==> LagAt(rows, n, device).value <= rows[n].at
  {
    LagIsLatest(rows, n, device);
    if LagAt(rows, n, device).Some? {
      var e :| e in rows[..n] && e.device == device && e.at == LagAt(rows, n, device).value;
      var i :| 0 <= i < n && rows[i] == e;
    }
  }

  lemma {:induction false} DeviceSumIsMeasure(rows: seq<Event>, n: nat, device: string)
    requires ByTime(rows) && n <= |rows|
    ensures GroupSum(GapRows(rows)[..n], PerDevice, OfDevice(device)) == Measure(TimesOf(rows[..n], device))
  {
    hide Measure, Counted;
    var gaps := GapRows(rows);
    if n == 0 {
      assert TimesOf(rows[..0], device) == {};
      MeasureOfNone();
    } else {
      DeviceSumIsMeasure(rows, n - 1, device);
      assert gaps[..n][..n - 1] == gaps[..n - 1];
      TimesOfNext(rows, n - 1, device);
      if rows[n - 1].device == device {
        GapIsMeasured(rows, n - 1);
      } else {
        assert TimesOf(rows[..n], device) == TimesOf(rows[..n - 1], device);
      }
    }
  }

  lemma {:induction false} CountedNonNegative(rows: seq<Event>, i: nat)
    requires ByTime(rows) && i < |rows|
    ensures Counted(GapRowAt(rows, i)) >= 0
  {
    LagBefore(rows, i, rows[i].device);
  }

  lemma {:induction false} GroupSumNonNegative(gaps: seq<GapRow>, grp: Grouping, k: Key)
    requires forall g :: g in gaps ==> Counted(g) >= 0
    ensures GroupSum(gaps, grp, k) >= 0
  {
    if gaps != [] {
      GroupSumNonNegative(gaps[..|gaps| - 1], grp, k);
    }
  }

  // ---- the report rows ------------------------------------------------------------------

  /** A rendered row: the group, and its sum cut down to whole minutes. */
  datatype ReportRow = ReportRow(key: Key, minutes: int)

  function RowKeys(rows: seq<ReportRow>): (ks: seq<Key>)
    ensures |ks| == |rows| && forall i :: 0 <= i < |rows| ==> ks[i] == rows[i].key
  {
    seq(|rows|, i requires 0 <= i < |rows| => rows[i].key)
  }

  function MinutesTotal(rows: seq<ReportRow>): int {
    if rows == [] then 0 else MinutesTotal(rows[..|rows| - 1]) + rows[|rows| - 1].minutes
  }

  predicate DayBefore(k: Key, l: Key) {
    k.OfDay? && l.OfDay? && k.day < l.day
  }

  /** One row a day that has any sighting, earliest first. */
  ghost predicate DayReport(gaps: seq<GapRow>, rows: seq<ReportRow>) {
    && (forall i, j :: 0 <= i < j < |rows| ==> DayBefore(rows[i].key, rows[j].key))
    && (forall k :: k in RowKeys(rows) <==> k in Keys(gaps, PerDay))
    && forall r :: r in rows ==> r.minutes == GroupSum(gaps, PerDay, r.key) / MINUTE
  }

  /** One row a device with any use, most used first. */
  ghost predicate DeviceReport(gaps: seq<GapRow>, rows: seq<ReportRow>) {
    && (forall i, j :: 0 <= i < j < |rows| ==>
         rows[i].key != rows[j].key && GroupSum(gaps, PerDevice, rows[i].key) >= GroupSum(gaps, PerDevice, rows[j].key))
    && (forall k :: k in RowKeys(rows) <==> k in Keys(gaps, PerDevice) && GroupSum(gaps, PerDevice, k) > 0)
    && forall r :: r in rows ==> r.minutes == GroupSum(gaps, PerDevice, r.key) / MINUTE
  }

  /** The HAVING clause drops only groups that contribute nothing. */
  lemma {:induction false} UnlistedAddNothing(gaps: seq<GapRow>, grp: Grouping, ks: seq<Key>, more: seq<Key>)
    requires forall k :: k in more ==> GroupSum(gaps, grp, k) == 0
    ensures SumOver(gaps, grp, ks + more) == SumOver(gaps, grp, ks)
    decreases |more|
  {
    if more == [] {
      assert ks + more == ks;
    } else {
      var front := more[..|more| - 1];
      assert (ks + more)[..|ks + more| - 1] == ks + front;
      UnlistedAddNothing(gaps, grp, ks, front);
    }
  }

  lemma {:induction false} ListSet(ks: set<Key>) returns (r: seq<Key>)
    ensures Lists(r, ks)
  {
    if ks == {} {
      r := [];
    } else {
      var k :| k in ks;
      r := ListSet(ks - {k});
      r := r + [k];
    }
  }

  /** The days' unrounded sums add up to the devices' unrounded sums. */
  lemma DaysAndDevicesAgree(gaps: seq<GapRow>, days: seq<ReportRow>, devices: seq<ReportRow>)
    requires (forall g :: g in gaps ==> Counted(g) >= 0)
    requires DayReport(gaps, days) && DeviceReport(gaps, devices)
    ensures SumOver(gaps, PerDay, RowKeys(days)) == Total(gaps)
    ensures SumOver(gaps, PerDevice, RowKeys(devices)) == Total(gaps)
  {
    hide GroupSum, SumOver, Total, Counted;
    var ks, ds := RowKeys(days), RowKeys(devices);
    assert Distinct(ks);
    forall g | g in gaps
      ensures KeyOf(PerDay, g) in ks
    {
      assert KeyOf(PerDay, g) in Keys(gaps, PerDay);
    }
    GroupsAddUp(gaps, PerDay, ks);
    var idle := ListSet(set k | k in Keys(gaps, PerDevice) && GroupSum(gaps, PerDevice, k) <= 0);
    forall k | k in idle
      ensures GroupSum(gaps, PerDevice, k) == 0
    {
      GroupSumNonNegative(gaps, PerDevice, k);
    }
    UnlistedAddNothing(gaps, PerDevice, ds, idle);
    assert Distinct(ds + idle);
    forall g | g in gaps
      ensures KeyOf(PerDevice, g) in ds + idle
    {
      assert KeyOf(PerDevice, g) in Keys(gaps, PerDevice);
    }
    GroupsAddUp(gaps, PerDevice, ds + idle);
  }

  /** Whole minutes fall short of the exact sum, by less than a minute a row. */
  lemma {:induction false} TruncationLosesLittle(gaps: seq<GapRow>, grp: Grouping, rows: seq<ReportRow>)
    requires forall r :: r in rows ==> r.minutes == GroupSum(gaps, grp, r.key) / MINUTE
    ensures 0 <= SumOver(gaps, grp, RowKeys(rows)) - MINUTE * MinutesTotal(rows)
    ensures rows != [] ==> SumOver(gaps, grp, RowKeys(rows)) - MINUTE * MinutesTotal(rows) < MINUTE * |rows|
    decreases |rows|
  {
    if rows != [] {
      var front, r := rows[..|rows| - 1], rows[|rows| - 1];
      assert rows == front + [r];
      assert RowKeys(rows)[..|front|] == RowKeys(front);
      TruncationLosesLittle(gaps, grp, front);
      var sum := GroupSum(gaps, grp, r.key);
      assert 0 <= sum - MINUTE * (sum / MINUTE) < MINUTE;
    }
  }

  /** A row counts for the day, beginning at UTC midnight, that its instant lies in; and for its own device. */
  lemma RowGroups(g: GapRow, day: int, device: string)
    ensures KeyOf(PerDay, g) == OfDay(day) <==> 24 * 60 * MINUTE * day <= g.at < 24 * 60 * MINUTE * (day + 1)
    ensures KeyOf(PerDevice, g) == OfDevice(device) <==> g.device == device
  {
    assert g.at == DAY * (g.at / DAY) + g.at % DAY;
  }

  /** The instants a report measures a device by: its sightings since the cut-off, of that person if one is named. */
  lemma FilteredTimes(events: seq<Event>, since: Time, person: string, device: string)
    ensures TimesOf(Filtered(events, since, person), device) ==
            set e | e in events && e.kind == "device_seen" && e.at >= since && e.device == device
                    && (person == "" || e.person == Some(person)) :: e.at
  {
  }

  /**
   * Conservation. For one cut-off and person filter, the day report and the device report
   * account for the same exact use, and each device's share is the measure of its sightings.
   */
  lemma ReportsConserveUse(events: seq<Event>, since: Time, person: string, days: seq<ReportRow>,
                           devices: seq<ReportRow>)
    requires DayReport(GapRows(Window(events, since, person)), days)
    requires DeviceReport(GapRows(Window(events, since, person)), devices)
    ensures var gaps := GapRows(Window(events, since, person));
      && SumOver(gaps, PerDay, RowKeys(days)) == SumOver(gaps, PerDevice, RowKeys(devices))
      && forall d :: GroupSum(gaps, PerDevice, OfDevice(d)) == Measure(TimesOf(Filtered(events, since, person), d))
  {
    var rows := Window(events, since, person);
    var gaps := GapRows(rows);
    forall g | g in gaps
      ensures Counted(g) >= 0
    {
      var i :| 0 <= i < |gaps| && gaps[i] == g;
      CountedNonNegative(rows, i);
    }
    DaysAndDevicesAgree(gaps, days, devices);
    forall d
      ensures GroupSum(gaps, PerDevice, OfDevice(d)) == Measure(TimesOf(Filtered(events, since, person), d))
    {
      DeviceSumIsMeasure(rows, |rows|, d);
      assert gaps[..|rows|] == gaps && rows[..|rows|] == rows;
      assert TimesOf(rows, d) == TimesOf(Filtered(events, since, person), d);
    }
  }
}
