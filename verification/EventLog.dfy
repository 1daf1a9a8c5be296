/**
 * The redacting log writer. What reaches the table is decided when it is written, so privacy
 * is a statement about the stored rows: they say nothing the monitoring level hides.
 */
module EventLog {
  import opened Prelude
  import opened EventModel
  import opened EventStore
  import Policy

  // ---- which attributes a level lets through --------------------------------------------

  /** Whether an attribute of an event may be stored. An unrecognised level hides nothing. */
  predicate Visible(kind: string, level: string, key: string) {
    || kind != BLOCK
    || (level == Policy.ENFORCEMENT_ONLY && key == "capability")
    || (level == Policy.METADATA && key !in {"value", "url", "host"})
    || (level != Policy.ENFORCEMENT_ONLY && level != Policy.METADATA)
  }

  function Redacted(ev: Event, level: string): Event {
    ev.(attrs := map key | key in ev.attrs && Visible(ev.kind, level, key) :: ev.attrs[key])
  }

  lemma LevelNamesDiffer()
    ensures Policy.ENFORCEMENT_ONLY != Policy.METADATA
    ensures Policy.GRANULAR != Policy.ENFORCEMENT_ONLY && Policy.GRANULAR != Policy.METADATA
  {
    assert Policy.ENFORCEMENT_ONLY[0] == 'e' && Policy.METADATA[0] == 'm' && Policy.GRANULAR[0] == 'g';
  }

  method Redact(ev: Event, level: string) returns (r: Event)
    ensures r == Redacted(ev, level)
  {
    LevelNamesDiffer();
    r := ev;
    if ev.kind != BLOCK {
      assert r.attrs == Redacted(ev, level).attrs;
      return;
    }
    if level == Policy.ENFORCEMENT_ONLY {
      r := r.(attrs := map[]);
      if "capability" in ev.attrs {
        r := r.(attrs := map["capability" := ev.attrs["capability"]]);
      }
    } else if level == Policy.METADATA {
      r := r.(attrs := ev.attrs - {"value"} - {"url"} - {"host"});
    }
    assert r.attrs == Redacted(ev, level).attrs;
  }

  // ---- the effective level --------------------------------------------------------------

  datatype PolicyLookup = PolicyLookup(
    policy: string -> Result<Option<Policy.Policy>>,
    override_: string -> Result<Option<Policy.Override>>)

  /** The level that governs an event of this person on this device; the strictest when in doubt. */
  function LevelFor(lookup: Option<PolicyLookup>, person: Option<string>, device: string): string {
    if lookup.None? || person.None? then Policy.ENFORCEMENT_ONLY
    else
      match lookup.value.policy(person.value)
      case Err(_) => Policy.ENFORCEMENT_ONLY
      case Ok(p) =>
        var o := match lookup.value.override_(device) case Ok(v) => v case Err(_) => None;
        match Policy.Merged(p, o)
        case Some(m) => if m.monitoring.Some? then m.monitoring.value else Policy.ENFORCEMENT_ONLY
        case None => Policy.ENFORCEMENT_ONLY
  }

  function EffectiveLevel(lookup: Option<PolicyLookup>, ev: Event): string {
    LevelFor(lookup, ev.person, ev.device)
  }

  /** The random identifier and the clocks an Append reads. */
  datatype Draw = Draw(id: string, now: Time, recordedAt: Time)

  class Logger {
    const store: Store
    const lookup: Option<PolicyLookup>

    constructor (store: Store, lookup: Option<PolicyLookup>)
      ensures this.store == store && this.lookup == lookup
    {
      this.store := store;
      this.lookup := lookup;
    }

    method Append(ev: Event, draw: Draw) returns (r: InsertResult)
      requires store.Valid() && draw.now != ZERO_TIME
      modifies store
      ensures store.Valid()
      ensures (r, store.events) ==
        Insertion(old(store.events), Redacted(ev, EffectiveLevel(lookup, ev)), draw.id, draw.now, draw.recordedAt)
    {
      var level := EffectiveLevel(lookup, ev);
      var redacted := Redact(ev, level);
      r := store.Insert(redacted, draw.id, draw.now, draw.recordedAt);
    }
  }

  // ---- noninterference ------------------------------------------------------------------

  /** The table after one Append. */
  ghost function Appended(events: seq<Event>, lookup: Option<PolicyLookup>, ev: Event, draw: Draw): seq<Event> {
    Insertion(events, Redacted(ev, EffectiveLevel(lookup, ev)), draw.id, draw.now, draw.recordedAt).1
  }

  /** The table after appending events one by one, each under the policies stored at that moment. */
  ghost function AppendedAll(events: seq<Event>, lookups: seq<Option<PolicyLookup>>,
                             evs: seq<Event>, draws: seq<Draw>): seq<Event>
    requires |evs| == |draws| == |lookups|
  {
    if evs == [] then events
    else
      var n := |evs| - 1;
      Appended(AppendedAll(events, lookups[..n], evs[..n], draws[..n]), lookups[n], evs[n], draws[n])
  }

  /** The two attribute sets agree on every attribute the level lets through. */
  ghost predicate AgreeOnVisible(kind: string, level: string, a: Attrs, b: Attrs) {
    forall key :: Visible(kind, level, key) ==> (key in a <==> key in b) && (key in a ==> a[key] == b[key])
  }

  /** Events that differ only in attributes their level hides. */
  ghost predicate Indistinguishable(lookup: Option<PolicyLookup>, e: Event, f: Event) {
    && e.(attrs := f.attrs) == f
    && AgreeOnVisible(e.kind, EffectiveLevel(lookup, e), e.attrs, f.attrs)
  }

  /** Redaction erases exactly the hidden attributes: what is kept tells two events apart iff something visible does. */
  lemma RedactionIsExact(lookup: Option<PolicyLookup>, e: Event, f: Event)
    requires e.(attrs := f.attrs) == f
    ensures Redacted(e, EffectiveLevel(lookup, e)) == Redacted(f, EffectiveLevel(lookup, f)) <==>
      Indistinguishable(lookup, e, f)
  {
    var level := EffectiveLevel(lookup, e);
    assert EffectiveLevel(lookup, f) == level;
    var a, b := Redacted(e, level).attrs, Redacted(f, level).attrs;
    hide Visible, LevelFor;
    if a == b {
      forall key | Visible(e.kind, level, key)
        ensures (key in e.attrs <==> key in f.attrs) && (key in e.attrs ==> e.attrs[key] == f.attrs[key])
      {
        assert key in e.attrs <==> key in a;
        assert key in f.attrs <==> key in b;
      }
    }
    if Indistinguishable(lookup, e, f) {
      assert a == b;
    }
  }

  /**
   * Noninterference over whole histories: two sequences of events that differ only in attributes
   * hidden at the time, logged with the same identifiers and clocks while the policies change in
   * any way, leave the same table, and every TopBlocks answer to one is an answer to the other.
   */
  lemma {:induction false} HiddenAttributesLeaveNoTrace(events: seq<Event>, lookups: seq<Option<PolicyLookup>>,
                                                        es: seq<Event>, fs: seq<Event>, draws: seq<Draw>)
    requires |es| == |fs| == |draws| == |lookups|
    requires forall i :: 0 <= i < |es| ==> Indistinguishable(lookups[i], es[i], fs[i])
    ensures AppendedAll(events, lookups, es, draws) == AppendedAll(events, lookups, fs, draws)
    decreases |es|
  {
    hide Indistinguishable, Insertion;
    if es != [] {
      var n := |es| - 1;
      HiddenAttributesLeaveNoTrace(events, lookups[..n], es[..n], fs[..n], draws[..n]);
      SameShape(lookups[n], es[n], fs[n]);
      RedactionIsExact(lookups[n], es[n], fs[n]);
    }
  }

  lemma SameShape(lookup: Option<PolicyLookup>, e: Event, f: Event)
    requires Indistinguishable(lookup, e, f)
    ensures e.(attrs := f.attrs) == f
  {
  }

  /** For one accepted event the converse holds too: equal tables mean nothing visible differed. */
  lemma EqualTablesMeanIndistinguishable(events: seq<Event>, lookup: Option<PolicyLookup>, e: Event, f: Event,
                                         draw: Draw)
    requires e.(attrs := f.attrs) == f
    requires ValidKind(e.kind) && e.device != "" && !HasId(events, if e.id == "" then draw.id else e.id)
    ensures Appended(events, lookup, e, draw) == Appended(events, lookup, f, draw) <==> Indistinguishable(lookup, e, f)
  {
    hide ValidKind, HasId, Indistinguishable;
    RedactionIsExact(lookup, e, f);
    var level := EffectiveLevel(lookup, e);
    assert EffectiveLevel(lookup, f) == level;
    var x := Completed(Redacted(e, level), draw.id, draw.now, draw.recordedAt);
    var y := Completed(Redacted(f, level), draw.id, draw.now, draw.recordedAt);
    assert (events + [x])[|events|] == x && (events + [y])[|events|] == y;
    assert x.attrs == Redacted(e, level).attrs && y.attrs == Redacted(f, level).attrs;
  }

  // ---- what the block report can show ---------------------------------------------------

  /** A block row carries no attribute beyond those its level lets through. */
  ghost predicate Discreet(e: Event) {
    e.kind == BLOCK ==> forall key :: key in e.attrs ==> key !in {"value", "url", "host"}
  }

  predicate StrictLevel(level: string) {
    level == Policy.ENFORCEMENT_ONLY || level == Policy.METADATA
  }

  /** Every block event was logged at one of the two strict levels. */
  ghost predicate StrictThroughout(lookups: seq<Option<PolicyLookup>>, evs: seq<Event>)
    requires |evs| == |lookups|
  {
    forall i :: 0 <= i < |evs| && evs[i].kind == BLOCK ==> StrictLevel(EffectiveLevel(lookups[i], evs[i]))
  }

  /** If no block event is logged at granular level, no stored block row names what was blocked. */
  lemma {:induction false} StrictLevelsStoreNoTarget(lookups: seq<Option<PolicyLookup>>, evs: seq<Event>,
                                                     draws: seq<Draw>)
    requires |evs| == |draws| == |lookups| && StrictThroughout(lookups, evs)
    ensures forall e :: e in AppendedAll([], lookups, evs, draws) ==> Discreet(e)
    decreases |evs|
  {
    hide HasId, ValidKind, LevelFor;
    if evs != [] {
      var n := |evs| - 1;
      StrictLevelsStoreNoTarget(lookups[..n], evs[..n], draws[..n]);
      var before := AppendedAll([], lookups[..n], evs[..n], draws[..n]);
      var level := EffectiveLevel(lookups[n], evs[n]);
      RedactedIsDiscreet(evs[n], level);
      var row := Completed(Redacted(evs[n], level), draws[n].id, draws[n].now, draws[n].recordedAt);
      forall e | e in AppendedAll([], lookups, evs, draws)
        ensures Discreet(e)
      {
        assert e in before || e == row;
      }
    }
  }

  lemma RedactedIsDiscreet(ev: Event, level: string)
    requires ev.kind == BLOCK ==> StrictLevel(level)
    ensures Discreet(Redacted(ev, level))
  {
    LevelNamesDiffer();
    assert "capability"[0] == 'c' && "value"[0] == 'v' && "url"[0] == 'u' && "host"[0] == 'h';
  }

  /** The strict levels are exactly those that hide anything; an unrecognised level is as open as granular. */
  lemma HidesNothingIff(level: string)
    ensures (forall ev: Event :: Redacted(ev, level) == ev) <==> !StrictLevel(level)
  {
    hide ValidKind;
    if StrictLevel(level) {
      var ev := Event("", 0, 0, BLOCK, None, "", "", map["value" := JNull]);
      RedactedIsDiscreet(ev, level);
      assert "value" in ev.attrs && "value" !in Redacted(ev, level).attrs;
    } else {
      forall ev: Event
        ensures Redacted(ev, level) == ev
      {
        assert Redacted(ev, level).attrs == ev.attrs;
      }
    }
  }

  /** So the report's value column stays empty for such a log. */
  lemma StrictLevelsReportNoValue(lookups: seq<Option<PolicyLookup>>, evs: seq<Event>, draws: seq<Draw>,
                                  render: Json -> string, since: Time, limit: nat, rows: seq<BlockRow>)
    requires |evs| == |draws| == |lookups| && StrictThroughout(lookups, evs)
    requires TopReport(render, AppendedAll([], lookups, evs, draws), since, limit, rows)
    ensures forall r :: r in rows ==> r.key.value == SqlText("")
  {
    hide AppendedAll, LevelFor;
    StrictLevelsStoreNoTarget(lookups, evs, draws);
    var events := AppendedAll([], lookups, evs, draws);
    forall r | r in rows
      ensures r.key.value == SqlText("")
    {
      assert r.key in BlockKeys(render, events, since);
      var e :| e in events && e.kind == BLOCK && e.at >= since && BlockKeyOf(render, e) == r.key;
      assert Discreet(e) && "value" !in e.attrs;
    }
  }

  // ---- level by level -------------------------------------------------------------------

  /** Redaction, attribute by attribute; nothing else about an event changes. */
  lemma RedactedAttributes(ev: Event, level: string)
    ensures var r := Redacted(ev, level);
      && r == ev.(attrs := r.attrs)
      && (forall key :: key in r.attrs ==> key in ev.attrs && r.attrs[key] == ev.attrs[key])
      && (ev.kind != "block" ==> r.attrs.Keys == ev.attrs.Keys)
      && (ev.kind == "block" && level == "enforcement_only" ==> r.attrs.Keys == ev.attrs.Keys * {"capability"})
      && (ev.kind == "block" && level == "metadata" ==> r.attrs.Keys == ev.attrs.Keys - {"value", "url", "host"})
      && (ev.kind == "block" && level != "enforcement_only" && level != "metadata" ==>
            r.attrs.Keys == ev.attrs.Keys)
  {
    LevelNamesDiffer();
  }

  /**
   * The effective level: the override's if it sets one, else the person's if that does. It falls to
   * enforcement_only when nothing is set, nobody is named, there is no lookup or the person's policy
   * cannot be read; an override that cannot be read counts as none.
   */
  lemma LevelExact(l: PolicyLookup, person: string, device: string, level: string)
    requires level == LevelFor(Some(l), Some(person), device)
    ensures l.policy(person).Err? ==> level == "enforcement_only"
    ensures l.policy(person).Ok? ==>
      var p, o := l.policy(person).value, l.override_(device);
      && (o.Ok? && o.value.Some? && o.value.value.monitoring.Some? ==> level == o.value.value.monitoring.value)
      && (o.Err? || o.value.None? || o.value.value.monitoring.None? ==>
            && (p.Some? && p.value.monitoring.Some? ==> level == p.value.monitoring.value)
            && (p.None? || p.value.monitoring.None? ==> level == "enforcement_only"))
    ensures LevelFor(None, Some(person), device) == "enforcement_only"
    ensures LevelFor(Some(l), None, device) == "enforcement_only" == LevelFor(None, None, device)
  {
  }

  /** The one row an Append with a fresh identifier adds, field by field. */
  ghost predicate AppendedRow(row: Event, ev: Event, draw: Draw) {
    && row.id == (if ev.id == "" then draw.id else ev.id)
    && row.at == (if ev.at == ZERO_TIME then draw.now else ev.at)
    && row.recordedAt == draw.recordedAt
    && row.kind == ev.kind && row.person == ev.person && row.device == ev.device
    && row.severity == (if ev.severity == "" then "info" else ev.severity)
  }

  /**
   * An Append adds one row at the end, or none: none for an unknown kind, no device or a taken
   * identifier. An event that is no block event keeps its attributes whatever the level.
   */
  lemma AppendAddsRow(events: seq<Event>, lookup: Option<PolicyLookup>, ev: Event, draw: Draw)
    ensures var id := if ev.id == "" then draw.id else ev.id;
      var after := Appended(events, lookup, ev, draw);
      if KnownKind(ev.kind) && ev.device != "" && !HasId(events, id) then
        && |after| == |events| + 1 && after[..|events|] == events
        && AppendedRow(after[|events|], ev, draw)
        && after[|events|].attrs == Redacted(ev, EffectiveLevel(lookup, ev)).attrs
        && (ev.kind != "block" ==> after[|events|].attrs == ev.attrs)
      else after == events
  {
    RedactedAttributes(ev, EffectiveLevel(lookup, ev));
    hide LevelFor, HasId;
    var redacted := Redacted(ev, EffectiveLevel(lookup, ev));
    var row := Completed(redacted, draw.id, draw.now, draw.recordedAt);
    assert (events + [row])[..|events|] == events && (events + [row])[|events|] == row;
    assert ev.kind != "block" ==> redacted.attrs == ev.attrs;
  }

  // ---- agreement with the resolver ------------------------------------------------------

  /** The writer and the resolver agree on the level when they see the same device, owner and store. */
  lemma LevelIsResolversLogLevel(r: Policy.Resolver, ev: Event, at: Time, result: Policy.ResolvedPolicy)
    requires r.device(ev.device).Ok? && r.device(ev.device).value.person == ev.person
    requires Policy.Resolves(r, ev.device, at, result, false)
    ensures EffectiveLevel(Some(PolicyLookup(r.policy, r.override_)), ev) == result.logLevel
  {
  }
}
