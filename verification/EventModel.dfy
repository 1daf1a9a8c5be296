/** The rows of the append-only event log. */
module EventModel {
  import opened Prelude

  const DEVICE_SEEN := "device_seen"
  const BLOCK := "block"

  predicate ValidKind(kind: string) {
    kind in {DEVICE_SEEN, "policy_applied", "policy_failed", "policy_unenforceable", BLOCK,
             "session_start", "session_stop", "schedule_transition"}
  }

  /** A decoded JSON value. */
  datatype Json =
    | JNull
    | JBool(b: bool)
    | JNumber(x: real)
    | JString(s: string)
    | JArray(items: seq<Json>)
    | JObject(fields: map<string, Json>)

  type Attrs = map<string, Json>

  /** at is the device's clock, recordedAt the core's. Empty strings and the zero time mean "not given". */
  datatype Event = Event(
    id: string, at: Time, recordedAt: Time, kind: string, person: Option<string>,
    device: string, severity: string, attrs: Attrs)

  /** What Insert fills in before the row is written; recordedAt is the column's default. */
  function Completed(ev: Event, drawn: string, now: Time, recordedAt: Time): Event {
    ev.(id := if ev.id == "" then drawn else ev.id,
        at := if ev.at == ZERO_TIME then now else ev.at,
        severity := if ev.severity == "" then "info" else ev.severity,
        recordedAt := recordedAt)
  }
}
