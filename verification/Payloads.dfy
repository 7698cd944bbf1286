/**
  The JSON kept in rows and events, and the payloads of compensation and
  mutation events (apps/api/internal/core/usecase/data_debugger_service.go and
  runtime_gateway_service.go). Comparing normalised JSON text is comparing values.
 */
module Payloads {
  import opened Wrappers

  datatype Json =
    | Null
    | Bool(b: bool)
    | Num(n: int)
    | Str(s: string)
    | Arr(items: seq<Json>)
    | Obj(fields: map<string, Json>)

  /** pickTargetState; Null is Go's nil. */
  function PickTargetState(payload: Json): Json {
    if !payload.Obj? then Null
    else
      var fields := payload.fields;
      if "restoredState" in fields then fields["restoredState"]
      else if "restored_state" in fields then fields["restored_state"]
      else if "after" in fields then fields["after"]
      else if "before" in fields || "targetEventId" in fields || "target_event_id" in fields then Null
      else payload
  }

  /** Where a payload keeps the state it left, the key that decides first. */
  const STATE_KEYS := ["restoredState", "restored_state", "after"]

  /** The first of these keys decides; without any a compensation left nothing, and any other object is the state. */
  lemma FirstKeyDecides(fields: map<string, Json>)
    ensures forall k :: 0 <= k < |STATE_KEYS| && STATE_KEYS[k] in fields
                        && (forall j :: 0 <= j < k ==> STATE_KEYS[j] !in fields) ==>
                          PickTargetState(Obj(fields)) == fields[STATE_KEYS[k]]
    ensures (forall k :: 0 <= k < |STATE_KEYS| ==> STATE_KEYS[k] !in fields) ==>
              PickTargetState(Obj(fields))
              == if {"before", "targetEventId", "target_event_id"} !! fields.Keys then Obj(fields) else Null
  {
    assert STATE_KEYS[0] == "restoredState" && STATE_KEYS[1] == "restored_state" && STATE_KEYS[2] == "after";
    var marks := {"before", "targetEventId", "target_event_id"};
    assert marks !! fields.Keys <==> forall key :: key in marks ==> key !in fields;
  }

  /** resolveRollbackTargetState. */
  function ResolveTargetState(payload: Json): Option<Json> {
    var state := PickTargetState(payload);
    if state.Null? then None else Some(state)
  }

  /** decodeJSONObjectOrNull accepts these. */
  predicate ObjectOrNull(j: Json) {
    j.Obj? || j.Null?
  }

  /** buildCompensationPayload. */
  function CompensationPayload(current: Json, target: Json, targetEventId: nat): Option<Json> {
    if !ObjectOrNull(current) || !ObjectOrNull(target) || target.Null? then None
    else Some(Obj(map["targetEventId" := Num(targetEventId), "before" := current, "after" := target,
                      "restoredState" := target]))
  }

  function WithRestored(fields: map<string, Json>, after: Json): map<string, Json> {
    if after.Null? then fields else fields["restoredState" := after]
  }

  /** buildFullRollbackPayload. */
  function FullRollbackPayload(before: Json, after: Json, snapshotId: nat, action: string): Option<Json> {
    if !ObjectOrNull(before) || !ObjectOrNull(after) then None
    else
      Some(Obj(WithRestored(
                 map["rollbackType" := Str("FULL"), "rollbackAction" := Str(action),
                     "targetSnapshotId" := Num(snapshotId),
                     "before" := before, "after" := after],
                 after)))
  }

  /** buildRuntimeMutationPayload. */
  function RuntimePayload(before: Json, after: Json, kind: string, scenario: string): Option<Json> {
    if !ObjectOrNull(before) || !ObjectOrNull(after) then None
    else
      Some(Obj(WithRestored(map["mutationType" := Str(kind), "scenario" := Str(scenario), "before" := before,
                                "after" := after], after)))
  }

  /** The keys that make a payload look like a compensation. */
  predicate HasReservedKey(fields: map<string, Json>) {
    || "restoredState" in fields || "restored_state" in fields || "after" in fields
    || "before" in fields || "targetEventId" in fields || "target_event_id" in fields
  }

  /** A row stored as it is, is read back as it is exactly if it has none of the reserved keys. */
  lemma RawStateIsRestoredIff(fields: map<string, Json>)
    ensures PickTargetState(Obj(fields)) == Obj(fields) <==> !HasReservedKey(fields)
  {
    PartIsSmaller(fields, "restoredState");
    PartIsSmaller(fields, "restored_state");
    PartIsSmaller(fields, "after");
  }

  /** No object is one of its own parts. */
  lemma PartIsSmaller(fields: map<string, Json>, key: string)
    ensures key in fields ==> fields[key] != Obj(fields)
  {
    if key in fields { assert fields[key] < Obj(fields); }
  }

  /** The state after the event, as the event itself records it: "after", null for a removal. */
  predicate Records(payload: Json, before: Json, after: Json) {
    && payload.Obj?
    && "before" in payload.fields && payload.fields["before"] == before
    && "after" in payload.fields && payload.fields["after"] == after
    && (if after.Null? then "restoredState" !in payload.fields
        else "restoredState" in payload.fields && payload.fields["restoredState"] == after)
    && "restored_state" !in payload.fields
  }

  /** The three builders fail exactly on states that are neither object nor null, and record what they are given. */
  lemma BuildersRecord(before: Json, after: Json, id: nat, action: string, scenario: string)
    ensures var c := CompensationPayload(before, after, id);
            && (c.Some? <==> ObjectOrNull(before) && after.Obj?)
            && (c.Some? ==> Records(c.value, before, after) && HasField(c.value, "targetEventId", Num(id)))
    ensures var f := FullRollbackPayload(before, after, id, action);
            && (f.Some? <==> ObjectOrNull(before) && ObjectOrNull(after))
            && (f.Some? ==> Records(f.value, before, after) && HasField(f.value, "rollbackType", Str("FULL"))
                            && HasField(f.value, "rollbackAction", Str(action))
                            && HasField(f.value, "targetSnapshotId", Num(id)))
    ensures var m := RuntimePayload(before, after, action, scenario);
            && (m.Some? <==> ObjectOrNull(before) && ObjectOrNull(after))
            && (m.Some? ==> Records(m.value, before, after) && HasField(m.value, "mutationType", Str(action))
                            && HasField(m.value, "scenario", Str(scenario)))
  {
  }

  predicate HasField(payload: Json, key: string, value: Json) {
    payload.Obj? && key in payload.fields && payload.fields[key] == value
  }

  /** A recorded state is what a rollback to the event restores; a recorded removal restores nothing. */
  lemma RecordedStateIsRestored(payload: Json, before: Json, after: Json)
    requires Records(payload, before, after)
    ensures ResolveTargetState(payload) == if after.Null? then None else Some(after)
  {
  }
}
