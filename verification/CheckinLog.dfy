/**
 * What a check-in leaves in the event log and in the registry, row by row: the sighting, the events
 * the agent reports, and what became of each rule.
 */
module CheckinLog {
  import opened Prelude
  import opened Registry
  import opened Coordinator
  import opened Checkin
  import opened EventModel
  import EventLog
  import EventStore
  import Mailbox
  import Policy
  import RegistryReplay
  import Text

  // ---- rows -----------------------------------------------------------------------------

  /** The outcomes the rule hook knows. */
  predicate Known(rule: RuleOutcome) {
    rule.outcome == "applied" || rule.outcome == "failed" || rule.outcome == "unenforceable"
  }

  /** The row that tells what became of a rule. */
  ghost predicate RuleRow(row: Event, rule: RuleOutcome, id: DeviceId, person: Option<string>, draw: EventLog.Draw) {
    && row.id == draw.id && row.at == draw.now && row.recordedAt == draw.recordedAt
    && row.device == id && row.person == person
    && (rule.outcome == "applied" ==> row.kind == "policy_applied" && row.severity == "info")
    && (rule.outcome == "failed" ==> row.kind == "policy_failed" && row.severity == "error")
    && (rule.outcome == "unenforceable" ==> row.kind == "policy_unenforceable" && row.severity == "warn")
    && (forall key :: key in row.attrs <==>
          key == "capability" || key == "backend" || (key == "note" && rule.note != "")
          || (key == "error" && rule.error != ""))
    && row.attrs["capability"] == JString(rule.cap) && row.attrs["backend"] == JString(rule.backend)
    && (rule.note != "" ==> row.attrs["note"] == JString(rule.note))
    && (rule.error != "" ==> row.attrs["error"] == JString(rule.error))
  }

  /** The row of an event the agent reported, as far as the monitoring level lets it through. */
  ghost predicate ReportedRow(row: Event, e: ReportedEvent, id: DeviceId, person: Option<string>,
                              draw: EventLog.Draw, level: string)
  {
    && row.id == draw.id && row.at == (if e.at == ZERO_TIME then draw.now else e.at)
    && row.recordedAt == draw.recordedAt
    && row.kind == e.kind && row.device == id && row.person == person && row.severity == "info"
    && (forall key :: key in row.attrs ==> key in e.attrs && row.attrs[key] == e.attrs[key])
    && (e.kind == "block" && level == "enforcement_only" ==> row.attrs.Keys == e.attrs.Keys * {"capability"})
    && (e.kind == "block" && level == "metadata" ==> row.attrs.Keys == e.attrs.Keys - {"value", "url", "host"})
    && (e.kind != "block" || (level != "enforcement_only" && level != "metadata") ==>
          row.attrs.Keys == e.attrs.Keys)
  }

  /** The row that tells the device was seen. */
  ghost predicate SightingRow(row: Event, id: DeviceId, person: Option<string>, seenAt: Time, draw: EventLog.Draw) {
    && row.id == draw.id && row.at == seenAt && row.recordedAt == draw.recordedAt
    && row.kind == "device_seen" && row.device == id && row.person == person && row.severity == "info"
    && row.attrs == map["source" := JString("agent")]
  }

  // ---- one append -----------------------------------------------------------------------

  lemma RuleEventFields(rule: RuleOutcome, id: DeviceId, person: Option<string>)
    ensures var ev := RuleEvent(rule, id, person);
      && ev.id == "" && ev.at == ZERO_TIME && ev.device == id && ev.person == person
      && (rule.outcome == "applied" ==> ev.kind == "policy_applied" && ev.severity == "info")
      && (rule.outcome == "failed" ==> ev.kind == "policy_failed" && ev.severity == "error")
      && (rule.outcome == "unenforceable" ==> ev.kind == "policy_unenforceable" && ev.severity == "warn")
      && (!Known(rule) ==> ev.kind == "")
      && ev.kind != "block"
      && (forall key :: key in ev.attrs <==>
            key == "capability" || key == "backend" || (key == "note" && rule.note != "")
            || (key == "error" && rule.error != ""))
      && ev.attrs["capability"] == JString(rule.cap) && ev.attrs["backend"] == JString(rule.backend)
      && (rule.note != "" ==> ev.attrs["note"] == JString(rule.note))
      && (rule.error != "" ==> ev.attrs["error"] == JString(rule.error))
  {
    assert "applied"[0] == 'a' && "failed"[0] == 'f' && "unenforceable"[0] == 'u';
    assert "capability"[0] == 'c' && "backend"[0] == 'b' && "note"[0] == 'n' && "error"[0] == 'e';
    assert "policy_applied"[0] == 'p' && "policy_failed"[0] == 'p' && "policy_unenforceable"[0] == 'p';
  }

  /** A rule of a known outcome adds one row; any other adds none. */
  lemma RuleAddsRow(log: seq<Event>, lookup: Option<EventLog.PolicyLookup>, rule: RuleOutcome, id: DeviceId,
                    person: Option<string>, draw: EventLog.Draw)
    requires id != "" && !EventStore.HasId(log, draw.id)
    ensures var after := EventLog.Appended(log, lookup, RuleEvent(rule, id, person), draw);
      if Known(rule) then
        |after| == |log| + 1 && after[..|log|] == log && RuleRow(after[|log|], rule, id, person, draw)
      else after == log
  {
    RuleEventFields(rule, id, person);
    hide RuleEvent, EventLog.Appended, EventStore.HasId;
    EventLog.AppendAddsRow(log, lookup, RuleEvent(rule, id, person), draw);
  }

  /** A reported event of a known kind adds one row. */
  lemma ReportAddsRow(log: seq<Event>, lookup: Option<EventLog.PolicyLookup>, e: ReportedEvent, id: DeviceId,
                      person: Option<string>, draw: EventLog.Draw)
    requires id != "" && EventStore.KnownKind(e.kind) && !EventStore.HasId(log, draw.id)
    ensures var after := EventLog.Appended(log, lookup, EventOf(e, id, person), draw);
      && |after| == |log| + 1 && after[..|log|] == log
      && ReportedRow(after[|log|], e, id, person, draw, EventLog.LevelFor(lookup, person, id))
  {
    var ev := EventOf(e, id, person);
    EventLog.RedactedAttributes(ev, EventLog.EffectiveLevel(lookup, ev));
    EventLog.AppendAddsRow(log, lookup, ev, draw);
    hide EventLog.Appended, EventStore.HasId, EventLog.Redacted, EventLog.LevelFor;
  }

  lemma SightingAddsRow(log: seq<Event>, lookup: Option<EventLog.PolicyLookup>, obs: Observation, id: DeviceId,
                        person: Option<string>, draw: EventLog.Draw)
    requires id != "" && obs.source == "agent" && obs.seenAt != ZERO_TIME && !EventStore.HasId(log, draw.id)
    ensures var after := EventLog.Appended(log, lookup, SeenEvent(obs, id, person), draw);
      && |after| == |log| + 1 && after[..|log|] == log
      && SightingRow(after[|log|], id, person, obs.seenAt, draw)
  {
    EventLog.AppendAddsRow(log, lookup, SeenEvent(obs, id, person), draw);
    hide EventLog.Appended, EventStore.HasId;
    assert EventStore.KnownKind("device_seen");
  }

  // ---- all of them ----------------------------------------------------------------------

  ghost predicate Increasing(at: seq<nat>) {
    forall k, l :: 0 <= k < l < |at| ==> at[k] < at[l]
  }

  /** One row for each rule of a known outcome, in order; at lists which. */
  ghost predicate RuleRows(rows: seq<Event>, at: seq<nat>, rules: seq<RuleOutcome>, id: DeviceId,
                           person: Option<string>, draws: nat -> EventLog.Draw)
  {
    && Increasing(at) && (forall i :: i in at <==> 0 <= i < |rules| && Known(rules[i])) && |rows| == |at|
    && forall k :: 0 <= k < |at| ==> at[k] < |rules| && RuleRow(rows[k], rules[at[k]], id, person, draws(at[k]))
  }

  /** One row for each reported event of a known kind, in order; at lists which. */
  ghost predicate ReportedRows(rows: seq<Event>, at: seq<nat>, reported: seq<ReportedEvent>, id: DeviceId,
                               person: Option<string>, draws: seq<EventLog.Draw>, level: string)
    requires |draws| == |reported|
  {
    && Increasing(at) && (forall i :: i in at <==> 0 <= i < |reported| && EventStore.KnownKind(reported[i].kind))
    && |rows| == |at|
    && forall k :: 0 <= k < |at| ==>
         at[k] < |reported| && ReportedRow(rows[k], reported[at[k]], id, person, draws[at[k]], level)
  }

  lemma IncreasingMore(at: seq<nat>, n: nat)
    requires Increasing(at) && forall i :: i in at ==> i < n
    ensures Increasing(at + [n])
  {
    forall k | 0 <= k < |at|
      ensures at[k] < n
    {
      assert at[k] in at;
    }
  }

  lemma RuleRowsMore(rows: seq<Event>, at: seq<nat>, rules: seq<RuleOutcome>, rule: RuleOutcome, row: Event,
                     id: DeviceId, person: Option<string>, draws: nat -> EventLog.Draw)
    requires RuleRows(rows, at, rules, id, person, draws)
    requires Known(rule) ==> RuleRow(row, rule, id, person, draws(|rules|))
    ensures if Known(rule) then RuleRows(rows + [row], at + [|rules|], rules + [rule], id, person, draws)
            else RuleRows(rows, at, rules + [rule], id, person, draws)
  {
    hide RuleRow, Known, Increasing;
    IncreasingMore(at, |rules|);
  }

  lemma ReportedRowsMore(rows: seq<Event>, at: seq<nat>, reported: seq<ReportedEvent>, e: ReportedEvent, row: Event,
                         id: DeviceId, person: Option<string>, draws: seq<EventLog.Draw>, draw: EventLog.Draw,
                         level: string)
    requires |draws| == |reported| && ReportedRows(rows, at, reported, id, person, draws, level)
    requires EventStore.KnownKind(e.kind) ==> ReportedRow(row, e, id, person, draw, level)
    ensures if EventStore.KnownKind(e.kind) then
              ReportedRows(rows + [row], at + [|reported|], reported + [e], id, person, draws + [draw], level)
            else ReportedRows(rows, at, reported + [e], id, person, draws + [draw], level)
  {
    hide ReportedRow, EventStore.KnownKind, Increasing;
    IncreasingMore(at, |reported|);
  }

  /** The identifier is in neither part of a log. */
  lemma NoIdAppend(log: seq<Event>, rows: seq<Event>, id: string)
    requires !EventStore.HasId(log, id) && forall row :: row in rows ==> row.id != id
    ensures !EventStore.HasId(log + rows, id)
  {
  }

  lemma RuleRowsIds(rows: seq<Event>, at: seq<nat>, rules: seq<RuleOutcome>, id: DeviceId, person: Option<string>,
                    draws: nat -> EventLog.Draw)
    requires RuleRows(rows, at, rules, id, person, draws)
    ensures forall row :: row in rows ==> exists i: nat :: i < |rules| && row.id == draws(i).id
  {
    hide Known, Increasing;
    forall row | row in rows
      ensures exists i: nat :: i < |rules| && row.id == draws(i).id
    {
      var k :| 0 <= k < |rows| && rows[k] == row;
      assert row.id == draws(at[k]).id;
    }
  }

  lemma ReportedRowsIds(rows: seq<Event>, at: seq<nat>, reported: seq<ReportedEvent>, id: DeviceId,
                        person: Option<string>, draws: seq<EventLog.Draw>, level: string)
    requires |draws| == |reported| && ReportedRows(rows, at, reported, id, person, draws, level)
    ensures forall row :: row in rows ==> exists i :: 0 <= i < |draws| && row.id == draws[i].id
  {
    hide EventStore.KnownKind, Increasing;
    forall row | row in rows
      ensures exists i :: 0 <= i < |draws| && row.id == draws[i].id
    {
      var k :| 0 <= k < |rows| && rows[k] == row;
      assert row.id == draws[at[k]].id;
    }
  }

  lemma OneMoreRule(log: seq<Event>, lookup: Option<EventLog.PolicyLookup>, id: DeviceId, person: Option<string>,
                    rules: seq<RuleOutcome>, rule: RuleOutcome, draws: nat -> EventLog.Draw,
                    rows: seq<Event>, at: seq<nat>)
    returns (rows': seq<Event>, at': seq<nat>)
    requires id != "" && RuleRows(rows, at, rules, id, person, draws)
    requires !EventStore.HasId(log, draws(|rules|).id)
    requires forall i: nat :: i < |rules| ==> draws(i).id != draws(|rules|).id
    ensures EventLog.Appended(log + rows, lookup, RuleEvent(rule, id, person), draws(|rules|)) == log + rows'
    ensures RuleRows(rows', at', rules + [rule], id, person, draws)
  {
    hide EventLog.Appended, EventStore.HasId, RuleEvent, RuleRow, RuleRows, Known;
    var n, before := |rules|, log + rows;
    RuleRowsIds(rows, at, rules, id, person, draws);
    NoIdAppend(log, rows, draws(n).id);
    RuleAddsRow(before, lookup, rule, id, person, draws(n));
    var after := EventLog.Appended(before, lookup, RuleEvent(rule, id, person), draws(n));
    var row := if Known(rule) then after[|before|] else Event("", 0, 0, "", None, "", "", map[]);
    RuleRowsMore(rows, at, rules, rule, row, id, person, draws);
    rows', at' := rows, at;
    if Known(rule) {
      assert after == before + [row] == log + (rows + [row]);
      rows', at' := rows + [row], at + [n];
    }
  }

  /** The rule hook, over a whole Enforce: one row for each rule of a known outcome, in order, and no other. */
  lemma {:induction false} RulesAddRows(log: seq<Event>, lookup: Option<EventLog.PolicyLookup>, id: DeviceId,
                                        person: Option<string>, rules: seq<RuleOutcome>,
                                        draws: nat -> EventLog.Draw)
    returns (rows: seq<Event>, at: seq<nat>)
    requires id != ""
    requires forall i: nat :: i < |rules| ==> !EventStore.HasId(log, draws(i).id)
    requires forall i: nat, j: nat :: i < j < |rules| ==> draws(i).id != draws(j).id
    ensures RulesLogged(log, lookup, id, person, rules, draws) == log + rows
    ensures RuleRows(rows, at, rules, id, person, draws)
  {
    rows, at := [], [];
    hide EventLog.Appended, EventStore.HasId, RuleEvent, RuleRow, Known;
    if rules != [] {
      hide RuleRows;
      var n := |rules| - 1;
      assert rules == rules[..n] + [rules[n]];
      rows, at := RulesAddRows(log, lookup, id, person, rules[..n], draws);
      rows, at := OneMoreRule(log, lookup, id, person, rules[..n], rules[n], draws, rows, at);
    }
  }

  lemma OneMoreReport(log: seq<Event>, lookup: Option<EventLog.PolicyLookup>, id: DeviceId, person: Option<string>,
                      reported: seq<ReportedEvent>, e: ReportedEvent, draws: seq<EventLog.Draw>, draw: EventLog.Draw,
                      rows: seq<Event>, at: seq<nat>)
    returns (rows': seq<Event>, at': seq<nat>)
    requires id != "" && |draws| == |reported|
    requires ReportedRows(rows, at, reported, id, person, draws, EventLog.LevelFor(lookup, person, id))
    requires !EventStore.HasId(log, draw.id) && forall i :: 0 <= i < |draws| ==> draws[i].id != draw.id
    ensures log + rows' ==
            if EventStore.KnownKind(e.kind) then
              EventLog.Appended(log + rows, lookup, EventOf(e, id, person), draw)
            else log + rows
    ensures ReportedRows(rows', at', reported + [e], id, person, draws + [draw],
                         EventLog.LevelFor(lookup, person, id))
  {
    hide EventLog.Appended, EventLog.LevelFor, EventStore.HasId, EventOf, ReportedRow, ReportedRows,
         EventStore.KnownKind;
    var n, before, level := |reported|, log + rows, EventLog.LevelFor(lookup, person, id);
    ReportedRowsIds(rows, at, reported, id, person, draws, level);
    NoIdAppend(log, rows, draw.id);
    var row := Event("", 0, 0, "", None, "", "", map[]);
    rows', at' := rows, at;
    if EventStore.KnownKind(e.kind) {
      ReportAddsRow(before, lookup, e, id, person, draw);
      var after := EventLog.Appended(before, lookup, EventOf(e, id, person), draw);
      row := after[|before|];
      assert after == before + [row] == log + (rows + [row]);
      rows', at' := rows + [row], at + [n];
    }
    ReportedRowsMore(rows, at, reported, e, row, id, person, draws, draw, level);
  }

  /** The events an agent reports: one row for each of a known kind, in order, and no other. */
  lemma {:induction false} ReportsAddRows(log: seq<Event>, lookup: Option<EventLog.PolicyLookup>, id: DeviceId,
                                          person: Option<string>, reported: seq<ReportedEvent>,
                                          draws: seq<EventLog.Draw>)
    returns (rows: seq<Event>, at: seq<nat>)
    requires id != "" && |draws| == |reported|
    requires forall i :: 0 <= i < |draws| ==> !EventStore.HasId(log, draws[i].id)
    requires forall i, j :: 0 <= i < j < |draws| ==> draws[i].id != draws[j].id
    ensures Ingested(log, lookup, id, person, reported, draws) == log + rows
    ensures ReportedRows(rows, at, reported, id, person, draws, EventLog.LevelFor(lookup, person, id))
    decreases |reported|
  {
    rows, at := [], [];
    hide EventLog.Appended, EventLog.LevelFor, EventStore.HasId, EventOf, ReportedRow;
    if reported != [] {
      hide ReportedRows;
      var n := |reported| - 1;
      assert reported == reported[..n] + [reported[n]] && draws == draws[..n] + [draws[n]];
      assert EventModel.ValidKind(reported[n].kind) == EventStore.KnownKind(reported[n].kind);
      hide EventModel.ValidKind, EventStore.KnownKind;
      rows, at := ReportsAddRows(log, lookup, id, person, reported[..n], draws[..n]);
      rows, at := OneMoreReport(log, lookup, id, person, reported[..n], reported[n], draws[..n], draws[n], rows, at);
    }
  }

  // ---- a whole check-in -----------------------------------------------------------------

  /** Identifiers that are all different, and new to the log. */
  ghost predicate FreshIds(log: seq<Event>, draws: Draws) {
    && !EventStore.HasId(log, draws.seen.id)
    && FreshEventIds(log, draws.events) && FreshRuleIds(log, draws.rules)
    && (forall i :: 0 <= i < |draws.events| ==> draws.events[i].id != draws.seen.id)
    && (forall i: nat :: draws.rules(i).id != draws.seen.id)
    && forall i, j: nat :: 0 <= i < |draws.events| ==> draws.events[i].id != draws.rules(j).id
  }

  ghost predicate FreshEventIds(log: seq<Event>, draws: seq<EventLog.Draw>) {
    && (forall i :: 0 <= i < |draws| ==> !EventStore.HasId(log, draws[i].id))
    && forall i, j :: 0 <= i < j < |draws| ==> draws[i].id != draws[j].id
  }

  ghost predicate FreshRuleIds(log: seq<Event>, draws: nat -> EventLog.Draw) {
    && (forall i: nat :: !EventStore.HasId(log, draws(i).id))
    && forall i: nat, j: nat :: i < j ==> draws(i).id != draws(j).id
  }

  /** The log after the token check: the reported events, then the rules of an Enforce. */
  lemma ServedLog(wires: Wiring, w: World, w': World, id: DeviceId, q: Request, draws: Draws, r: Response)
    returns (rules: seq<RuleOutcome>, reported: seq<Event>, atE: seq<nat>, told: seq<Event>, atR: seq<nat>)
    requires id != "" && Served(wires, w, w', id, q, draws, r) && r != InvalidToken
    requires FreshEventIds(w.log, draws.events) && FreshRuleIds(w.log, draws.rules)
    requires forall i, j: nat :: 0 <= i < |draws.events| ==> draws.events[i].id != draws.rules(j).id
    ensures id in w.tables.devices && |draws.events| == |q.events| && w'.log == w.log + reported + told
    ensures var person := w.tables.devices[id].person;
      && ReportedRows(reported, atE, q.events, id, person, draws.events, EventLog.LevelFor(wires.lookup, person, id))
      && RuleRows(told, atR, rules, id, person, draws.rules)
    ensures exists sent, failed ::
      && Enforced(Deployed(wires.describe), ResolverOver(w.tables, wires.queries), id, draws.now, rules, sent, failed)
      && Answered(ResolverOver(w.tables, wires.queries), id, draws.now, sent, failed, r, w.pending, w'.pending)
  {
    hide Enforced, Answered, Ingested, RulesLogged, ResolverOver, Deployed, ReportedRows, RuleRows, EventStore.HasId,
         EventLog.LevelFor;
    var resolver, person := ResolverOver(w.tables, wires.queries), w.tables.devices[id].person;
    var sent, failed;
    rules, sent, failed :|
      var before := Ingested(w.log, wires.lookup, id, person, q.events, draws.events);
      && w'.log == RulesLogged(before, wires.lookup, id, person, rules, draws.rules)
      && Enforced(Deployed(wires.describe), resolver, id, draws.now, rules, sent, failed)
      && Answered(resolver, id, draws.now, sent, failed, r, w.pending, w'.pending);
    reported, atE := ReportsAddRows(w.log, wires.lookup, id, person, q.events, draws.events);
    var level := EventLog.LevelFor(wires.lookup, person, id);
    ReportedRowsIds(reported, atE, q.events, id, person, draws.events, level);
    forall i: nat
      ensures !EventStore.HasId(w.log + reported, draws.rules(i).id)
    {
      NoIdAppend(w.log, reported, draws.rules(i).id);
    }
    told, atR := RulesAddRows(w.log + reported, wires.lookup, id, person, rules, draws.rules);
  }

  lemma {:induction false} EveryPosition(at: seq<nat>, n: nat)
    requires Increasing(at) && forall i :: i in at <==> 0 <= i < n
    ensures |at| == n && forall k :: 0 <= k < n ==> at[k] == k
  {
    if n > 0 {
      assert n - 1 in at;
      var last := |at| - 1;
      assert at[last] in at && at[last] == n - 1;
      var front := at[..last];
      assert at == front + [n - 1];
      forall i
        ensures i in front <==> 0 <= i < n - 1
      {
        assert i in at <==> i in front || i == n - 1;
        assert i in front ==> i < n - 1;
      }
      EveryPosition(front, n - 1);
    } else {
      NoPosition(at);
    }
  }

  lemma NoPosition(at: seq<nat>)
    ensures at == [] <==> forall i :: i !in at
  {
    if at != [] {
      assert at[0] in at;
    }
  }

  /** One "policy_applied" row for each of these capabilities, in order, and nothing else. */
  ghost predicate AppliedRows(rows: seq<Event>, caps: seq<Registry.Capability>, id: DeviceId, person: Option<string>) {
    && |rows| == |caps|
    && forall k :: 0 <= k < |rows| ==>
         && rows[k].kind == "policy_applied" && rows[k].severity == "info"
         && rows[k].device == id && rows[k].person == person
         && rows[k].attrs == map["capability" := JString(caps[k]), "backend" := JString("agent"),
                                 "note" := JString("queued for agent pickup")]
  }

  lemma QueuedRows(rows: seq<Event>, at: seq<nat>, rules: seq<RuleOutcome>, caps: seq<Registry.Capability>,
                   id: DeviceId, person: Option<string>, draws: nat -> EventLog.Draw)
    requires RuleRows(rows, at, rules, id, person, draws) && AllQueued(rules, caps)
    ensures AppliedRows(rows, caps, id, person)
  {
    hide RuleRow, Increasing;
    forall i | 0 <= i < |rules|
      ensures Known(rules[i])
    {
    }
    hide Known;
    EveryPosition(at, |rules|);
    forall k | 0 <= k < |rows|
      ensures rows[k].kind == "policy_applied" && rows[k].severity == "info"
      ensures rows[k].device == id && rows[k].person == person
      ensures rows[k].attrs == map["capability" := JString(caps[k]), "backend" := JString("agent"),
                                   "note" := JString("queued for agent pickup")]
    {
      QueuedRow(rows[k], caps[k], id, person, draws(k));
    }
  }

  lemma QueuedRow(row: Event, cap: Registry.Capability, id: DeviceId, person: Option<string>, draw: EventLog.Draw)
    requires RuleRow(row, RuleOutcome(cap, "agent", "applied", "", "queued for agent pickup"), id, person, draw)
    ensures row.kind == "policy_applied" && row.severity == "info" && row.device == id && row.person == person
    ensures row.attrs == map["capability" := JString(cap), "backend" := JString("agent"),
                             "note" := JString("queued for agent pickup")]
  {
  }

  /** A server error comes before any rule: nothing has been dispatched. */
  lemma FailedHasNoRules(resolver: Policy.Resolver, describe: Describe, id: DeviceId, now: Time,
                         rules: seq<RuleOutcome>, sent: seq<Dispatch>, failed: bool,
                         r: Response, pending: map<DeviceId, Slice>, pending': map<DeviceId, Slice>)
    requires Enforced(Deployed(describe), resolver, id, now, rules, sent, failed)
    requires Answered(resolver, id, now, sent, failed, r, pending, pending') && r == ServerError
    ensures rules == []
  {
    hide Policy.Resolves, Dispatches, DispatchedRules, Text.Sort, Deployed, Delivered, Mailbox.Slot;
    forall a, failedA, b, failedB |
      Policy.Resolves(resolver, id, now, a, failedA) && Policy.Resolves(resolver, id, now, b, failedB)
      ensures failedA == failedB
    {
      ResolvesUnique(resolver, id, now, a, failedA, b, failedB);
    }
  }

  lemma NoRules(rows: seq<Event>, at: seq<nat>, id: DeviceId, person: Option<string>, draws: nat -> EventLog.Draw)
    requires RuleRows(rows, at, [], id, person, draws)
    ensures rows == []
  {
    EveryPosition(at, 0);
  }

  /** An accepted check-in tells of every capability its policy requires, each once. */
  lemma AcceptedTells(s: Tables, id: DeviceId, queries: Policy.Resolver, describe: Describe, token: string, now: Time,
                      rules: seq<RuleOutcome>, sent: seq<Dispatch>, r: Response,
                      pending: map<DeviceId, Slice>, pending': map<DeviceId, Slice>)
    requires id in s.devices && s.devices[id].token == Some(token) && token != ""
    requires Enforced(Deployed(describe), ResolverOver(s, queries), id, now, rules, sent, false)
    requires Answered(ResolverOver(s, queries), id, now, sent, false, r, pending, pending') && r.Accepted?
    ensures AllQueued(rules, Text.Sort(r.policy.requiredCaps)) && Distinct(r.policy.requiredCaps)
  {
    hide Enforced, Policy.Resolves, Delivered, Text.Sort, AllQueued, Mailbox.Slot, Deployed, ResolverOver, Distinct;
    AcceptedDispatch(s, id, queries, describe, token, now, rules, sent, r.policy);
    ResolvedCapsDistinct(ResolverOver(s, queries), id, now, r.policy);
  }

  lemma ResolvedCapsDistinct(r: Policy.Resolver, id: DeviceId, at: Time, resolved: Policy.ResolvedPolicy)
    requires Policy.Resolves(r, id, at, resolved, false)
    ensures Distinct(resolved.requiredCaps)
  {
    Policy.CapNamesDiffer();
  }

  lemma NotFailed(resolver: Policy.Resolver, id: DeviceId, now: Time, sent: seq<Dispatch>, failed: bool,
                  r: Response, pending: map<DeviceId, Slice>, pending': map<DeviceId, Slice>)
    requires Answered(resolver, id, now, sent, failed, r, pending, pending') && r.Accepted?
    ensures !failed && r.device == id
  {
    hide Policy.Resolves, Delivered, Mailbox.Slot;
  }

  /** The observe hook adds its row to the log, and nothing else changes. */
  lemma WitnessedRow(wires: Wiring, w: World, id: DeviceId, q: Request, draws: Draws) returns (row: Event)
    requires id in w.tables.devices && id != "" && draws.seenAt != ZERO_TIME
    requires !EventStore.HasId(w.log, draws.seen.id)
    ensures Witnessed(wires, w, id, ObservationOf(q, draws.seenAt), draws.seen) == w.(log := w.log + [row])
    ensures SightingRow(row, id, w.tables.devices[id].person, draws.seenAt, draws.seen) && row.id == draws.seen.id
  {
    hide EventStore.HasId, EventLog.Appended;
    var obs, person := ObservationOf(q, draws.seenAt), w.tables.devices[id].person;
    SightingAddsRow(w.log, wires.lookup, obs, id, person, draws.seen);
    var after := EventLog.Appended(w.log, wires.lookup, SeenEvent(obs, id, person), draws.seen);
    row := after[|w.log|];
    assert after == w.log + [row];
  }

  lemma StillFresh(log: seq<Event>, row: Event, draws: Draws)
    requires FreshIds(log, draws) && row.id == draws.seen.id
    ensures FreshEventIds(log + [row], draws.events) && FreshRuleIds(log + [row], draws.rules)
    ensures forall i, j: nat :: 0 <= i < |draws.events| ==> draws.events[i].id != draws.rules(j).id
  {
    hide EventStore.HasId;
    forall i | 0 <= i < |draws.events|
      ensures !EventStore.HasId(log + [row], draws.events[i].id)
    {
      NoIdAppend(log, [row], draws.events[i].id);
    }
    forall i: nat
      ensures !EventStore.HasId(log + [row], draws.rules(i).id)
    {
      NoIdAppend(log, [row], draws.rules(i).id);
    }
  }

  /**
   * The log of a check-in whose identifiers are new: the sighting; unless the token is turned away, the
   * reported events of known kinds; and, if it is accepted, one row for each capability the answer's
   * policy requires, which tells that the agent applied it. A failed Enforce leaves no row of its own.
   */
  lemma CheckinLogs(wires: Wiring, w: World, w': World, q: Request, draws: Draws, r: Response)
    returns (id: DeviceId, sighting: Event, reported: seq<Event>, at: seq<nat>, told: seq<Event>,
             caps: seq<Registry.Capability>)
    requires WellFormed(w.tables) && draws.device !in w.tables.devices
    requires "" !in w.tables.devices && draws.device != ""
    requires q.token != "" && Usable(q, draws) && FreshIds(w.log, draws) && Handled(wires, w, w', q, draws, r)
    ensures w'.log == w.log + [sighting] + reported + told && id in w'.tables.devices
    ensures SightingRow(sighting, id, w'.tables.devices[id].person, draws.seenAt, draws.seen)
    ensures r == InvalidToken ==> reported == [] && told == []
    ensures r != InvalidToken ==>
      var person := w'.tables.devices[id].person;
      ReportedRows(reported, at, q.events, id, person, draws.events, EventLog.LevelFor(wires.lookup, person, id))
    ensures r == ServerError ==> told == []
    ensures r.Accepted? ==>
      && r.device == id && AppliedRows(told, caps, id, w'.tables.devices[id].person)
      && multiset(caps) == multiset(r.policy.requiredCaps) && Distinct(caps) && Text.IsSorted(caps)
  {
    hide Handled, Reconciled, WellFormed, Served, Enforced, Answered, RuleRows, ReportedRows, SightingRow, AppliedRows,
         EventStore.HasId, EventLog.Appended, EventLog.LevelFor, Text.Sort, AllQueued, Distinct, Text.IsSorted,
         FreshEventIds, FreshRuleIds, RegistryReplay.FreshRow, RegistryReplay.SeenRow, Witnessed;
    var obs := ObservationOf(q, draws.seenAt);
    id := SplitHandled(wires, w, w', q, draws, r);
    RegistryReplay.ReconciledDevices(w.tables, obs, wires.pick, draws.device, draws.seenAt, w'.tables, id);
    var seen := Witnessed(wires, w.(tables := w'.tables), id, obs, draws.seen);
    sighting := WitnessedRow(wires, w.(tables := w'.tables), id, q, draws);
    reported, at, told, caps := [], [], [], [];
    ServedRejection(wires, seen, w', id, q, draws, r);
    if r != InvalidToken {
      StillFresh(w.log, sighting, draws);
      var rules, atR;
      rules, reported, at, told, atR := ServedLog(wires, seen, w', id, q, draws, r);
      var person := seen.tables.devices[id].person;
      var resolver := ResolverOver(seen.tables, wires.queries);
      var sent, failed :| Enforced(Deployed(wires.describe), resolver, id, draws.now, rules, sent, failed)
        && Answered(resolver, id, draws.now, sent, failed, r, seen.pending, w'.pending);
      if r == ServerError {
        FailedHasNoRules(resolver, wires.describe, id, draws.now, rules, sent, failed, r, seen.pending, w'.pending);
        NoRules(told, atR, id, person, draws.rules);
      }
      if r.Accepted? {
        NotFailed(resolver, id, draws.now, sent, failed, r, seen.pending, w'.pending);
        caps := Text.Sort(r.policy.requiredCaps);
        AcceptedTells(seen.tables, id, wires.queries, wires.describe, q.token, draws.now, rules, sent, r,
                      seen.pending, w'.pending);
        QueuedRows(told, atR, rules, caps, id, person, draws.rules);
        Text.SortSorts(r.policy.requiredCaps);
        Text.SortDistinct(r.policy.requiredCaps);
      }
    }
  }

  // ---- what it records ------------------------------------------------------------------

  /** What an identity row of the device says, if the request gives it. */
  predicate Presented(q: Request, kind: IdentityKind, value: string) {
    && value != ""
    && ((kind == AgentKind && value == q.agentId) || (kind == MacKind && value == q.mac)
        || (kind == IpKind && value == q.ip) || (kind == HostnameKind && value == q.hostname))
  }

  /**
   * What any check-in with a token records in the registry, whatever it answers: on one device, the
   * identities and capabilities the request presents, and the time. A device not known before is active
   * and of unknown kind, has no owner and no token, and is named after what was presented first.
   */
  lemma CheckinRecords(wires: Wiring, w: World, w': World, q: Request, draws: Draws, r: Response)
    returns (id: DeviceId)
    requires WellFormed(w.tables) && draws.device !in w.tables.devices
    requires q.token != "" && draws.seenAt != ZERO_TIME && Handled(wires, w, w', q, draws, r)
    ensures forall row ::
      row in w'.tables.identities <==>
      row in w.tables.identities || (row.device == id && Presented(q, row.kind, row.value))
    ensures forall row :: row in w'.tables.identities && row.device == id && Presented(q, row.kind, row.value) ==>
      w'.tables.identities[row] == draws.seenAt
    ensures forall row :: row in w.tables.identities && !(row.device == id && Presented(q, row.kind, row.value)) ==>
      row in w'.tables.identities && w'.tables.identities[row] == w.tables.identities[row]
    ensures forall c :: c in w'.tables.caps <==> c in w.tables.caps || (c.device == id && c.cap in q.caps)
    ensures id in w'.tables.devices && w'.tables.devices[id].lastSeen == Some(draws.seenAt)
    ensures id in w.tables.devices ==>
      var was, row := w.tables.devices[id], w'.tables.devices[id];
      row == was.(lastSeen := row.lastSeen, updatedAt := WholeSecond(draws.seenAt))
    ensures id !in w.tables.devices ==>
      var row := w'.tables.devices[id];
      && row.person == None && row.token == None && row.state == "active" && row.kind == "unknown"
      && (q.hostname != "" ==> row.title == q.hostname)
      && (q.hostname == "" && q.agentId != "" ==> row.title == "agent:" + q.agentId)
      && (q.hostname == "" && q.agentId == "" && q.mac != "" ==> row.title == "mac:" + q.mac)
      && (q.hostname == "" && q.agentId == "" && q.mac == "" ==> row.title == "unknown device")
    ensures forall d :: d != id ==> (d in w'.tables.devices <==> d in w.tables.devices)
    ensures forall d :: d != id && d in w.tables.devices ==> w'.tables.devices[d] == w.tables.devices[d]
  {
    hide Handled, Reconciled, WellFormed, Served, WholeSecond;
    var obs := ObservationOf(q, draws.seenAt);
    id := SplitHandled(wires, w, w', q, draws, r);
    RegistryReplay.ReconciledDevices(w.tables, obs, wires.pick, draws.device, draws.seenAt, w'.tables, id);
    RegistryReplay.ReconciledRecords(w.tables, obs, wires.pick, draws.device, draws.seenAt, w'.tables, id);
    forall kind, value
      ensures RegistryReplay.Gives(obs, kind, value) <==> Presented(q, kind, value)
    {
    }
    hide RegistryReplay.Gives;
  }
}
