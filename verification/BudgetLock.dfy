/** Once the day's budget has locked the screen, the event log cannot unlock it before midnight. */
module BudgetLock {
  import opened Prelude
  import opened EventModel
  import opened EventStore
  import opened Schedule
  import opened Policy
  import Usage

  /** What happens to the log between two resolutions. */
  datatype LogOp =
    | Insert(ev: Event, drawn: string, now: Time, recordedAt: Time)
    | Delete(cutoff: Time)

  ghost function After(events: seq<Event>, op: LogOp): seq<Event> {
    match op
    case Insert(ev, drawn, now, recordedAt) => Insertion(events, ev, drawn, now, recordedAt).1
    case Delete(cutoff) => Kept(events, cutoff)
  }

  ghost function AfterAll(events: seq<Event>, ops: seq<LogOp>): seq<Event> {
    if ops == [] then events else After(AfterAll(events, ops[..|ops| - 1]), ops[|ops| - 1])
  }

  /** What happened since midnight was recorded since midnight. */
  predicate RecordedToday(events: seq<Event>, midnight: Time) {
    forall e :: e in events && e.at >= midnight ==> e.recordedAt >= midnight
  }

  /** The operation keeps this so, and retention stays clear of the day that began at midnight. */
  predicate Orderly(op: LogOp, midnight: Time) {
    match op
    case Insert(ev, drawn, now, recordedAt) =>
      Completed(ev, drawn, now, recordedAt).at >= midnight ==> recordedAt >= midnight
    case Delete(cutoff) => cutoff <= midnight
  }

  /**
   * recorded_at drops the fraction of a second; as midnight has none, a row not dated ahead of the
   * clock is in order.
   */
  lemma WholeSecondsSuffice(ev: Event, drawn: string, now: Time, clock: Time, midnight: Time)
    requires midnight % SECOND == 0 && Completed(ev, drawn, now, 0).at <= clock
    ensures Orderly(Insert(ev, drawn, now, WholeSecond(clock)), midnight)
  {
    if clock >= midnight {
      assert clock == SECOND * (clock / SECOND) + clock % SECOND;
      assert midnight == SECOND * (midnight / SECOND);
      assert clock / SECOND >= midnight / SECOND;
    }
  }

  lemma OrderlyStep(events: seq<Event>, op: LogOp, device: string, midnight: Time)
    requires RecordedToday(events, midnight) && Orderly(op, midnight)
    ensures RecordedToday(After(events, op), midnight)
    ensures UsageOf(events, device, midnight) <= UsageOf(After(events, op), device, midnight)
  {
    hide UsageOf, HasId, ValidKind;
    var later := After(events, op);
    forall e | e in later && e.at >= midnight
      ensures e.recordedAt >= midnight
    {
      match op
      case Insert(ev, drawn, now, recordedAt) => assert e in events || e == Completed(ev, drawn, now, recordedAt);
      case Delete(cutoff) =>
    }
    UsageMonotone(events, later, device, midnight);
  }

  lemma {:induction false} UseOnlyGrows(events: seq<Event>, ops: seq<LogOp>, device: string, midnight: Time)
    requires RecordedToday(events, midnight) && forall op :: op in ops ==> Orderly(op, midnight)
    ensures RecordedToday(AfterAll(events, ops), midnight)
    ensures UsageOf(events, device, midnight) <= UsageOf(AfterAll(events, ops), device, midnight)
    decreases |ops|
  {
    hide UsageOf, After, RecordedToday, Orderly;
    if ops != [] {
      var n := |ops| - 1;
      UseOnlyGrows(events, ops[..n], device, midnight);
      OrderlyStep(AfterAll(events, ops[..n]), ops[n], device, midnight);
    }
  }

  /**
   * The budget lock is sticky: resolved again on the same local day, after any orderly inserts
   * and deletions, the screen is still locked.
   */
  lemma BudgetLockIsSticky(p: Policy, device: string, person: Option<string>, events: seq<Event>, ops: seq<LogOp>,
                           local: LocalTime, later: Time, localLater: LocalTime)
    requires RecordedToday(events, local.startOfDay) && forall op :: op in ops ==> Orderly(op, local.startOfDay)
    requires localLater.weekday == local.weekday && localLater.startOfDay == local.startOfDay
    requires BudgetSpent(p, UsageOf(events, device, local.startOfDay), local.weekday)
    ensures
      var used := UsageOf(AfterAll(events, ops), device, localLater.startOfDay);
      BudgetSpent(p, used, localLater.weekday) && Resolution(p, device, later, person, localLater, used).screenLocked
  {
    hide UsageOf, AfterAll;
    UseOnlyGrows(events, ops, device, local.startOfDay);
    MinutesMonotone(UsageOf(events, device, local.startOfDay),
                    UsageOf(AfterAll(events, ops), device, local.startOfDay));
  }

  lemma MinutesMonotone(a: nat, b: nat)
    requires a <= b
    ensures Minutes(a) <= Minutes(b)
  {
  }

  /** Row e is a sighting of the device since start. */
  predicate Sights(e: Event, device: string, start: Time) {
    e.device == device && e.kind == DEVICE_SEEN && e.at >= start
  }

  /** Some row of the device sights it at t, and was recorded no earlier than the cut-off. */
  ghost predicate SurvivesAt(events: seq<Event>, cutoff: Time, device: string, start: Time, t: Time) {
    exists e :: e in events && Sights(e, device, start) && e.at == t && e.recordedAt >= cutoff
  }

  lemma SightedAt(events: seq<Event>, device: string, start: Time, t: Time)
    ensures t in SightingTimes(events, device, start) <==>
            exists e :: e in events && Sights(e, device, start) && e.at == t
  {
  }

  lemma KeptSightedAt(events: seq<Event>, cutoff: Time, device: string, start: Time, t: Time)
    ensures t in SightingTimes(Kept(events, cutoff), device, start) <==> SurvivesAt(events, cutoff, device, start, t)
  {
    SightedAt(Kept(events, cutoff), device, start, t);
    hide SightingTimes, Kept, Sights;
    if SurvivesAt(events, cutoff, device, start, t) {
      var e :| e in events && Sights(e, device, start) && e.at == t && e.recordedAt >= cutoff;
      assert e in Kept(events, cutoff);
    }
  }

  /**
   * Retention leaves a device's sightings since start as they are exactly when every instant of
   * them has a row recorded no earlier than the cut-off.
   */
  lemma RetentionKeepsInstantsIff(events: seq<Event>, cutoff: Time, device: string, start: Time)
    ensures SightingTimes(Kept(events, cutoff), device, start) == SightingTimes(events, device, start) <==>
            forall e :: e in events && Sights(e, device, start) ==> SurvivesAt(events, cutoff, device, start, e.at)
  {
    hide SightingTimes, Kept, Sights, SurvivesAt;
    var before, after := SightingTimes(events, device, start), SightingTimes(Kept(events, cutoff), device, start);
    forall t
      ensures t in after <==> SurvivesAt(events, cutoff, device, start, t)
      ensures t in after ==> t in before
    {
      KeptSightedAt(events, cutoff, device, start, t);
      SightedAt(events, device, start, t);
      if t in after {
        SurvivorIsRow(events, cutoff, device, start, t);
      }
    }
    forall e | e in events && Sights(e, device, start)
      ensures e.at in before
    {
      SightedAt(events, device, start, e.at);
    }
    if forall e :: e in events && Sights(e, device, start) ==> SurvivesAt(events, cutoff, device, start, e.at) {
      forall t | t in before
        ensures t in after
      {
        SightedAt(events, device, start, t);
      }
      assert forall t :: t in after ==> t in before;
      assert before == after;
    }
  }

  lemma SurvivorIsRow(events: seq<Event>, cutoff: Time, device: string, start: Time, t: Time)
    requires SurvivesAt(events, cutoff, device, start, t)
    ensures exists e :: e in events && Sights(e, device, start) && e.at == t
  {
    hide Sights;
  }

  /**
   * It keeps every sighting row since start exactly when none was recorded before the cut-off; the
   * use is then unchanged.
   */
  lemma RetentionKeepsRowsIff(events: seq<Event>, cutoff: Time, device: string, start: Time)
    ensures (forall e :: e in events && Sights(e, device, start) ==> e in Kept(events, cutoff)) <==>
            !exists e :: e in events && Sights(e, device, start) && e.recordedAt < cutoff
    ensures (!exists e :: e in events && Sights(e, device, start) && e.recordedAt < cutoff) ==>
            UsageOf(Kept(events, cutoff), device, start) == UsageOf(events, device, start)
  {
    RetentionKeepsInstantsIff(events, cutoff, device, start);
    hide SightingTimes, Kept, Sights;
  }

  /**
   * The condition on rows is needed: two sightings dated ahead of the core's clock are deleted by
   * a retention run at midnight although they belong to the day, and the use they showed is gone.
   */
  lemma PostdatedRowsAreForgotten(device: string, midnight: Time)
    ensures exists events: seq<Event> ::
      UsageOf(events, device, midnight) == Usage.MINUTE && UsageOf(Kept(events, midnight), device, midnight) == 0
  {
    var a := Event("a", midnight, midnight - 1, DEVICE_SEEN, None, device, "info", map[]);
    var b := a.(id := "b", at := midnight + Usage.MINUTE);
    var events := [a, b];
    var seen := SightingTimes(events, device, midnight);
    assert a in events && b in events;
    assert seen == {midnight} + {midnight + Usage.MINUTE};
    Usage.MeasureOfOne(midnight);
    Usage.MeasureWithLatest({midnight}, midnight, midnight + Usage.MINUTE);
    assert [a][..0] == [] && events[..1] == [a];
    assert Kept([a], midnight) == [];
    assert Kept(events, midnight) == [];
    assert SightingTimes([], device, midnight) == {};
    Usage.MeasureOfNone();
  }
}
