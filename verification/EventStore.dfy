/** The event table and the statements that change and query it. */
module EventStore {
  import opened Prelude
  import opened EventModel
  import opened Usage
  import opened Reports
  import opened Ranking

  // ---- what the queries mean ------------------------------------------------------------

  /** A device's use since start: the measure of its sightings from then on. */
  function UsageOf(events: seq<Event>, device: string, start: Time): nat {
    Measure(SightingTimes(events, device, start))
  }

  function SightingTimes(events: seq<Event>, device: string, start: Time): set<Time> {
    set e | e in events && e.device == device && e.kind == DEVICE_SEEN && e.at >= start :: e.at
  }

  /** Retention keeps what was recorded at or after the cut-off. */
  function Kept(events: seq<Event>, cutoff: Time): (r: seq<Event>)
    ensures forall e :: e in r <==> e in events && e.recordedAt >= cutoff
  {
    if events == [] then []
    else
      var e := events[|events| - 1];
      Kept(events[..|events| - 1], cutoff) + if e.recordedAt < cutoff then [] else [e]
  }

  /** A value as the database compares it: booleans have become numbers, arrays and objects text. */
  datatype SqlValue = SqlText(text: string) | SqlNumber(x: real)

  datatype BlockKey = BlockKey(capability: SqlValue, value: SqlValue)

  datatype BlockRow = BlockRow(key: BlockKey, count: nat)

  /** COALESCE(json_extract(attrs, '$.name'), ''); render is how the database writes an array or an object. */
  function Extract(render: Json -> string, attrs: Attrs, name: string): SqlValue {
    if name !in attrs then SqlText("")
    else
      match attrs[name]
      case JNull => SqlText("")
      case JBool(b) => SqlNumber(if b then 1.0 else 0.0)
      case JNumber(x) => SqlNumber(x)
      case JString(s) => SqlText(s)
      case j => SqlText(render(j))
  }

  function BlockKeyOf(render: Json -> string, e: Event): BlockKey {
    BlockKey(Extract(render, e.attrs, "capability"), Extract(render, e.attrs, "value"))
  }

  function BlockCount(render: Json -> string, events: seq<Event>, since: Time, k: BlockKey): nat {
    if events == [] then 0
    else
      var e := events[|events| - 1];
      BlockCount(render, events[..|events| - 1], since, k)
      + if e.kind == BLOCK && e.at >= since && BlockKeyOf(render, e) == k then 1 else 0
  }

  function BlockKeys(render: Json -> string, events: seq<Event>, since: Time): set<BlockKey> {
    set e | e in events && e.kind == BLOCK && e.at >= since :: BlockKeyOf(render, e)
  }

  /** The most frequent groups, most frequent first, at most limit of them. */
  ghost predicate TopReport(render: Json -> string, events: seq<Event>, since: Time, limit: nat, rows: seq<BlockRow>) {
    && (forall i, j :: 0 <= i < j < |rows| ==> rows[i].key != rows[j].key && rows[i].count >= rows[j].count)
    && (forall r :: r in rows ==>
          r.key in BlockKeys(render, events, since) && r.count == BlockCount(render, events, since, r.key))
    && |rows| <= limit
    && forall k :: k in BlockKeys(render, events, since) ==>
         (exists r :: r in rows && r.key == k)
           || (|rows| == limit && forall r :: r in rows ==> r.count >= BlockCount(render, events, since, k))
  }

  // ---- facts the methods and the resolver rely on ---------------------------------------

  function TimesInOrder(rows: seq<Event>, device: string): seq<Time> {
    if rows == [] then []
    else
      var e := rows[|rows| - 1];
      TimesInOrder(rows[..|rows| - 1], device) + if e.device == device then [e.at] else []
  }

  lemma {:induction false} TimesInOrderMembers(rows: seq<Event>, device: string)
    ensures SetOf(TimesInOrder(rows, device)) == TimesOf(rows, device)
  {
    if rows != [] {
      var front, e := rows[..|rows| - 1], rows[|rows| - 1];
      assert rows == front + [e];
      TimesInOrderMembers(front, device);
      var ts := TimesInOrder(front, device);
      assert SetOf(ts + [e.at]) == SetOf(ts) + {e.at};
      assert SetOf(ts + []) == SetOf(ts);
    } else {
      assert SetOf<Time>([]) == {};
    }
  }

  lemma {:induction false} TimesAscend(rows: seq<Event>, device: string)
    requires ByTime(rows)
    ensures Ascending(TimesInOrder(rows, device))
  {
    if rows != [] {
      var front, e := rows[..|rows| - 1], rows[|rows| - 1];
      TimesAscend(front, device);
      TimesInOrderMembers(front, device);
      var ts := TimesInOrder(front, device);
      forall i | 0 <= i < |ts|
        ensures ts[i] <= e.at
      {
        assert ts[i] in SetOf(ts);
        var x :| x in front && x.device == device && x.at == ts[i];
        var j :| 0 <= j < |front| && front[j] == x;
        assert rows[j] == x;
      }
    }
  }

  lemma WindowTimes(events: seq<Event>, device: string, start: Time)
    ensures TimesOf(Window(events, start, ""), device) == SightingTimes(events, device, start)
  {
  }

  /** With no person filter a device's share of the reports is its UsageSince. */
  lemma ReportShareIsUsage(events: seq<Event>, device: string, since: Time)
    ensures GroupSum(GapRows(Window(events, since, "")), PerDevice, OfDevice(device)) == UsageOf(events, device, since)
  {
    hide Window, Measure, GroupSum, SightingTimes, TimesOf;
    var rows := Window(events, since, "");
    DeviceSumIsMeasure(rows, |rows|, device);
    WindowTimes(events, device, since);
    assert GapRows(rows)[..|rows|] == GapRows(rows) && rows[..|rows|] == rows;
  }

  /** Another row in the log never lowers a device's use; so neither order nor repetition of rows matters. */
  lemma UsageMonotone(events: seq<Event>, more: seq<Event>, device: string, start: Time)
    requires forall e :: e in events && e.device == device && e.kind == DEVICE_SEEN && e.at >= start ==> e in more
    ensures UsageOf(events, device, start) <= UsageOf(more, device, start)
  {
    MeasureMonotone(SightingTimes(events, device, start), SightingTimes(more, device, start));
  }

  /** Use lies within the span of the sightings it is made of. */
  lemma UsageWithinSpan(events: seq<Event>, device: string, start: Time, first: Time, last: Time)
    requires first <= last
    requires forall e :: e in events && e.device == device && e.kind == DEVICE_SEEN && e.at >= start ==>
      first <= e.at <= last
    ensures UsageOf(events, device, start) <= last - first
  {
    MeasureWithinSpan(SightingTimes(events, device, start), first, last);
  }

  /** The HAVING clause. */
  function Having(gaps: seq<GapRow>): set<Key> {
    set k | k in Keys(gaps, PerDevice) && GroupSum(gaps, PerDevice, k) > 0
  }

  function NegatedDay(k: Key): int {
    if k.OfDay? then -k.day else 0
  }

  // ---- the store ------------------------------------------------------------------------

  datatype InsertResult = Inserted | InvalidKind | MissingDevice | DuplicateId

  function Since(days: int, now: Time): Time {
    now - (if days <= 0 then 7 else days) * DAY
  }

  ghost predicate HasId(events: seq<Event>, id: string) {
    exists e :: e in events && e.id == id
  }

  /** What Insert answers, and what the table holds afterwards. */
  ghost function Insertion(events: seq<Event>, ev: Event, drawn: string, now: Time, recordedAt: Time)
    : (InsertResult, seq<Event>)
  {
    var row := Completed(ev, drawn, now, recordedAt);
    if !ValidKind(ev.kind) then (InvalidKind, events)
    else if ev.device == "" then (MissingDevice, events)
    else if HasId(events, row.id) then (DuplicateId, events)
    else (Inserted, events + [row])
  }

  class Store {
    var events: seq<Event>
    const render: Json -> string

    /** No row carries the zero time, an unknown kind or an empty device. */
    ghost predicate Valid()
      reads this
    {
      forall e :: e in events ==> e.at != ZERO_TIME && ValidKind(e.kind) && e.device != ""
    }

    constructor (render: Json -> string)
      ensures Valid() && events == [] && this.render == render
    {
      events := [];
      this.render := render;
    }

    method Insert(ev: Event, drawn: string, now: Time, recordedAt: Time) returns (r: InsertResult)
      requires Valid() && now != ZERO_TIME
      modifies this
      ensures Valid() && (r, events) == Insertion(old(events), ev, drawn, now, recordedAt)
    {
      if !ValidKind(ev.kind) {
        return InvalidKind;
      }
      if ev.device == "" {
        return MissingDevice;
      }
      var row := ev;
      if row.id == "" {
        row := row.(id := drawn);
      }
      if row.at == ZERO_TIME {
        row := row.(at := now);
      }
      if row.severity == "" {
        row := row.(severity := "info");
      }
      row := row.(recordedAt := recordedAt);
      if exists e | e in events :: e.id == row.id {
        return DuplicateId;
      }
      events := events + [row];
      return Inserted;
    }

    method DeleteOlderThan(cutoff: Time) returns (n: nat)
      requires Valid()
      modifies this
      ensures Valid() && events == Kept(old(events), cutoff) && n == |old(events)| - |events|
    {
      var kept := [];
      for i := 0 to |events|
        invariant kept == Kept(events[..i], cutoff) && |kept| <= i
      {
        assert events[..i + 1][..i] == events[..i];
        if events[i].recordedAt >= cutoff {
          kept := kept + [events[i]];
        }
      }
      assert events[..|events|] == events;
      n := |events| - |kept|;
      events := kept;
    }

    method UsageSince(device: string, start: Time) returns (used: int)
      requires Valid()
      ensures used == UsageOf(events, device, start)
    {
      hide Measure, Window, TimesInOrder, SightingTimes;
      var rows := Window(events, start, "");
      var times := TimesInOrder(rows, device);
      TimesAscend(rows, device);
      TimesInOrderMembers(rows, device);
      WindowTimes(events, device, start);
      assert ZERO_TIME !in times by {
        assert ZERO_TIME !in TimesOf(rows, device);
        assert ZERO_TIME !in SetOf(times);
      }
      used := ChainGaps(times);
    }

    method ScreenTimePerDay(person: string, days: int, now: Time) returns (rows: seq<ReportRow>)
      ensures DayReport(GapRows(Window(events, Since(days, now), person)), rows)
    {
      hide Window, GroupSum;
      var gaps := GapRows(Window(events, Since(days, now), person));
      var ks := Rank(Keys(gaps, PerDay), NegatedDay);
      rows := [];
      for i := 0 to |ks|
        invariant RowKeys(rows) == ks[..i]
        invariant forall r :: r in rows ==> r.minutes == GroupSum(gaps, PerDay, r.key) / MINUTE
      {
        var row := ReportRow(ks[i], GroupSum(gaps, PerDay, ks[i]) / MINUTE);
        assert RowKeys(rows + [row]) == RowKeys(rows) + [ks[i]];
        rows := rows + [row];
      }
      assert ks[..|ks|] == ks;
      RankedDays(gaps, ks, rows);
    }

    method UsageByDevice(person: string, days: int, now: Time) returns (rows: seq<ReportRow>)
      ensures DeviceReport(GapRows(Window(events, Since(days, now), person)), rows)
    {
      hide Window, GroupSum;
      var gaps := GapRows(Window(events, Since(days, now), person));
      var ks := Rank(Having(gaps), k => GroupSum(gaps, PerDevice, k));
      rows := [];
      for i := 0 to |ks|
        invariant RowKeys(rows) == ks[..i]
        invariant forall r :: r in rows ==> r.minutes == GroupSum(gaps, PerDevice, r.key) / MINUTE
      {
        var row := ReportRow(ks[i], GroupSum(gaps, PerDevice, ks[i]) / MINUTE);
        assert RowKeys(rows + [row]) == RowKeys(rows) + [ks[i]];
        rows := rows + [row];
      }
      assert ks[..|ks|] == ks;
      RankedDevices(gaps, ks, rows);
    }

    method TopBlocks(days: int, limit: int, now: Time) returns (rows: seq<BlockRow>)
      ensures TopReport(render, events, Since(days, now), if limit <= 0 then 20 else limit, rows)
    {
      hide BlockCount;
      var since, table, render := Since(days, now), events, this.render;
      var most := if limit <= 0 then 20 else limit;
      var ks := Rank(BlockKeys(render, events, since), k => BlockCount(render, table, since, k));
      var listed := if |ks| <= most then ks else ks[..most];
      rows := [];
      for i := 0 to |listed|
        invariant |rows| == i
        invariant forall j :: 0 <= j < i ==>
          rows[j] == BlockRow(listed[j], BlockCount(render, events, since, listed[j]))
      {
        rows := rows + [BlockRow(listed[i], BlockCount(render, events, since, listed[i]))];
      }
      RankedBlocks(render, events, since, most, ks, rows);
    }
  }

  lemma DayKeys(gaps: seq<GapRow>, k: Key)
    requires k in Keys(gaps, PerDay)
    ensures k.OfDay?
  {
  }

  lemma RankedDays(gaps: seq<GapRow>, ks: seq<Key>, rows: seq<ReportRow>)
    requires Lists(ks, Keys(gaps, PerDay)) && Descending(ks, NegatedDay)
    requires RowKeys(rows) == ks
    requires forall r :: r in rows ==> r.minutes == GroupSum(gaps, PerDay, r.key) / MINUTE
    ensures DayReport(gaps, rows)
  {
    hide GroupSum, Keys;
    forall i, j | 0 <= i < j < |rows|
      ensures DayBefore(rows[i].key, rows[j].key)
    {
      assert rows[i].key == ks[i] && rows[j].key == ks[j];
      RankedPair(gaps, ks, i, j);
    }
  }

  lemma RankedPair(gaps: seq<GapRow>, ks: seq<Key>, i: nat, j: nat)
    requires Lists(ks, Keys(gaps, PerDay)) && Descending(ks, NegatedDay)
    requires i < j < |ks|
    ensures DayBefore(ks[i], ks[j])
  {
    DayKeys(gaps, ks[i]);
    DayKeys(gaps, ks[j]);
    hide Keys;
    assert ks[i] != ks[j];
    assert NegatedDay(ks[i]) >= NegatedDay(ks[j]);
  }

  lemma RankedDevices(gaps: seq<GapRow>, ks: seq<Key>, rows: seq<ReportRow>)
    requires Lists(ks, Having(gaps))
    requires forall i, j :: 0 <= i < j < |ks| ==> GroupSum(gaps, PerDevice, ks[i]) >= GroupSum(gaps, PerDevice, ks[j])
    requires RowKeys(rows) == ks
    requires forall r :: r in rows ==> r.minutes == GroupSum(gaps, PerDevice, r.key) / MINUTE
    ensures DeviceReport(gaps, rows)
  {
    hide GroupSum;
    forall i, j | 0 <= i < j < |rows|
      ensures rows[i].key != rows[j].key
        && GroupSum(gaps, PerDevice, rows[i].key) >= GroupSum(gaps, PerDevice, rows[j].key)
    {
      assert ks[i] == rows[i].key && ks[j] == rows[j].key;
    }
  }

  lemma RankedBlocks(render: Json -> string, events: seq<Event>, since: Time, limit: nat, ks: seq<BlockKey>,
                     rows: seq<BlockRow>)
    requires Lists(ks, BlockKeys(render, events, since))
    requires forall i, j :: 0 <= i < j < |ks| ==>
      BlockCount(render, events, since, ks[i]) >= BlockCount(render, events, since, ks[j])
    requires |rows| == if |ks| <= limit then |ks| else limit
    requires forall j :: 0 <= j < |rows| ==> rows[j] == BlockRow(ks[j], BlockCount(render, events, since, ks[j]))
    ensures TopReport(render, events, since, limit, rows)
  {
    hide BlockCount, BlockKeys;
    forall k | k in BlockKeys(render, events, since)
      ensures (exists r :: r in rows && r.key == k)
        || (|rows| == limit && forall r :: r in rows ==> r.count >= BlockCount(render, events, since, k))
    {
      var i :| 0 <= i < |ks| && ks[i] == k;
      if i < |rows| {
        assert rows[i] in rows;
      }
    }
  }

  // ---- the statements, told another way -------------------------------------------------

  /** The eight kinds of the schema. */
  predicate KnownKind(kind: string) {
    || kind == "device_seen" || kind == "policy_applied" || kind == "policy_failed" || kind == "policy_unenforceable"
    || kind == "block" || kind == "session_start" || kind == "session_stop" || kind == "schedule_transition"
  }

  /** Insert's answer, case by case. */
  lemma InsertAnswers(events: seq<Event>, ev: Event, drawn: string, now: Time, recordedAt: Time)
    ensures var (r, after) := Insertion(events, ev, drawn, now, recordedAt);
      var taken := exists e :: e in events && e.id == (if ev.id == "" then drawn else ev.id);
      && (r == InvalidKind <==> !KnownKind(ev.kind))
      && (r == MissingDevice <==> KnownKind(ev.kind) && ev.device == "")
      && (r == DuplicateId <==> KnownKind(ev.kind) && ev.device != "" && taken)
      && (r == Inserted <==> KnownKind(ev.kind) && ev.device != "" && !taken)
      && (r != Inserted ==> after == events)
  {
  }

  /** Retention is a filter: it acts on each row alone, and keeps the order and content of those that stay. */
  lemma {:induction false} KeptIsFilter(xs: seq<Event>, ys: seq<Event>, e: Event, cutoff: Time)
    ensures Kept(xs + ys, cutoff) == Kept(xs, cutoff) + Kept(ys, cutoff)
    ensures e.recordedAt >= cutoff ==> Kept([e], cutoff) == [e]
    ensures e.recordedAt < cutoff ==> Kept([e], cutoff) == []
    decreases |ys|
  {
    assert [e][..0] == [];
    if ys == [] {
      assert xs + ys == xs;
    } else {
      var front := ys[..|ys| - 1];
      assert (xs + ys)[..|xs + ys| - 1] == xs + front;
      KeptIsFilter(xs, front, e, cutoff);
    }
  }

  /** The block events of a group since a time, by position. */
  ghost function BlocksOf(render: Json -> string, events: seq<Event>, since: Time, k: BlockKey): set<nat> {
    set i: nat | i < |events| && events[i].kind == "block" && events[i].at >= since
                 && BlockKeyOf(render, events[i]) == k
  }

  /** A group's count is the number of its block events. */
  lemma {:induction false} BlockCountIsCardinality(render: Json -> string, events: seq<Event>, since: Time, k: BlockKey)
    ensures BlockCount(render, events, since, k) == |BlocksOf(render, events, since, k)|
  {
    hide BlockKeyOf;
    if events == [] {
      assert BlocksOf(render, events, since, k) == {};
    } else {
      var n := |events| - 1;
      var front, e := events[..n], events[n];
      BlockCountIsCardinality(render, front, since, k);
      var counted := e.kind == "block" && e.at >= since && BlockKeyOf(render, e) == k;
      assert BlocksOf(render, events, since, k) == BlocksOf(render, front, since, k) + if counted then {n} else {};
    }
  }

  /** A column shows text and numbers as they are, a boolean as 0 or 1, and a missing attribute as empty text. */
  predicate Shows(attrs: Attrs, name: string, v: SqlValue) {
    && (name !in attrs || attrs[name] == JNull ==> v == SqlText(""))
    && (name in attrs && attrs[name].JString? ==> v == SqlText(attrs[name].s))
    && (name in attrs && attrs[name].JNumber? ==> v == SqlNumber(attrs[name].x))
    && (name in attrs && attrs[name] == JBool(false) ==> v == SqlNumber(0.0))
    && (name in attrs && attrs[name] == JBool(true) ==> v == SqlNumber(1.0))
  }

  /** A group is told by the attributes named capability and value. */
  lemma GroupShowsAttributes(render: Json -> string, e: Event)
    ensures Shows(e.attrs, "capability", BlockKeyOf(render, e).capability)
    ensures Shows(e.attrs, "value", BlockKeyOf(render, e).value)
  {
  }

  /** The reports look back so many times 24 hours, seven by default; midnights are the multiples of 24 hours. */
  lemma ReportWindow(days: int, now: Time)
    ensures Since(days, now) == now - (if days >= 1 then days else 7) * (24 * 60 * MINUTE)
    ensures MINUTE == 60 * SECOND && GAP == 5 * MINUTE
  {
  }

}
