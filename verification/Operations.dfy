/**
  What the services decide before they write: creating an entity, rolling one
  entity back, and a batch of runtime mutations
  (apps/api/internal/core/usecase/data_debugger_service.go and
  runtime_gateway_service.go). Each decision is a plan, made from the stored
  state, that a transaction then carries out.
 */
module Operations {
  import opened Wrappers
  import opened Payloads
  import opened EntityStore
  import opened ReplayInvariant
  import Text
  import Seqs

  // -------- reading --------

  ghost function FindLatest(snapshots: map<Id, Snapshot>, integration: Id, table: string): (r: Option<Id>)
    ensures r.Some? ==> IsLatest(snapshots, integration, table, r.value)
    ensures r.None? ==> forall s :: s in snapshots ==> !IsLatest(snapshots, integration, table, s)
  {
    if s :| s in snapshots && IsLatest(snapshots, integration, table, s) then Some(s) else None
  }

  ghost function FindInitial(snapshots: map<Id, Snapshot>, integration: Id, table: string): (r: Option<Id>)
    ensures r.Some? ==> IsInitial(snapshots, integration, table, r.value)
    ensures r.None? ==> forall s :: s in snapshots ==> !IsInitial(snapshots, integration, table, s)
  {
    if s :| s in snapshots && IsInitial(snapshots, integration, table, s) then Some(s) else None
  }

  lemma {:induction false} LeastExists(ids: set<Id>, key: Id -> int) returns (s: Id)
    requires ids != {}
    ensures s in ids && forall s' :: s' in ids ==> key(s) <= key(s')
    decreases |ids|
  {
    s :| s in ids;
    var rest := ids - {s};
    if rest != {} {
      var least := LeastExists(rest, key);
      if key(least) < key(s) { s := least; }
    }
  }

  function Age(snapshots: map<Id, Snapshot>, s: Id): int {
    if s in snapshots then snapshots[s].createdAt else 0
  }

  lemma LatestExists(snapshots: map<Id, Snapshot>, integration: Id, table: string) returns (s: Id)
    requires TableOf(snapshots, integration, table) != {}
    ensures s in snapshots && IsLatest(snapshots, integration, table, s)
  {
    hide InTable;
    var ids := TableOf(snapshots, integration, table);
    var key := (s: Id) => -Age(snapshots, s);
    s := LeastExists(ids, key);
    forall s' | s' in snapshots && InTable(snapshots, integration, table, s') ensures key(s) <= key(s') {
      assert s' in ids;
    }
  }

  /** A table with snapshots has a latest one. */
  lemma FindLatestIff(snapshots: map<Id, Snapshot>, integration: Id, table: string)
    ensures FindLatest(snapshots, integration, table).None? <==> TableOf(snapshots, integration, table) == {}
  {
    var r := FindLatest(snapshots, integration, table);
    if r.Some? {
      assert r.value in TableOf(snapshots, integration, table);
    } else if TableOf(snapshots, integration, table) != {} {
      var s := LatestExists(snapshots, integration, table);
    }
  }

  lemma InitialExists(snapshots: map<Id, Snapshot>, integration: Id, table: string) returns (s: Id)
    requires TableOf(snapshots, integration, table) != {}
    ensures s in snapshots && IsInitial(snapshots, integration, table, s)
  {
    hide InTable;
    var ids := TableOf(snapshots, integration, table);
    var key := (s: Id) => Age(snapshots, s);
    s := LeastExists(ids, key);
    forall s' | s' in snapshots && InTable(snapshots, integration, table, s') ensures key(s) <= key(s') {
      assert s' in ids;
    }
  }

  /** And an initial one. */
  lemma FindInitialIff(snapshots: map<Id, Snapshot>, integration: Id, table: string)
    ensures FindInitial(snapshots, integration, table).None? <==> TableOf(snapshots, integration, table) == {}
  {
    var r := FindInitial(snapshots, integration, table);
    if r.Some? {
      assert r.value in TableOf(snapshots, integration, table);
    } else if TableOf(snapshots, integration, table) != {} {
      var s := InitialExists(snapshots, integration, table);
    }
  }

  /** FindWorkingEntity, as the JSON the services carry on with: null when there is no row. */
  function CurrentState(st: State, s: Id, e: string): Json {
    var data := RowData(st.rows, s, e);
    if data == [] then Null else data[0]
  }

  predicate Timeline(st: State, integration: Id, table: string, e: string, ev: Event) {
    InTable(st.snapshots, integration, table, ev.snapshot) && ev.entityId == e
  }

  /** FindTimelineEvent. */
  function FindEvent(st: State, log: seq<Event>, integration: Id, table: string, e: string, id: Id): Option<Event> {
    if log == [] then None
    else if log[|log| - 1].id == id && Timeline(st, integration, table, e, log[|log| - 1]) then Some(log[|log| - 1])
    else FindEvent(st, log[..|log| - 1], integration, table, e, id)
  }

  lemma {:induction false} FindEventFinds(st: State, log: seq<Event>, integration: Id, table: string, e: string, id: Id)
    ensures var r := FindEvent(st, log, integration, table, e, id);
            && (r.Some? ==> r.value in log && r.value.id == id && Timeline(st, integration, table, e, r.value))
            && (r.None? ==> forall ev :: ev in log && Timeline(st, integration, table, e, ev) ==> ev.id != id)
  {
    if log != [] {
      FindEventFinds(st, log[..|log| - 1], integration, table, e, id);
      Seqs.Unsnoc(log);
    }
  }

  /** Events of a good log are found by their ids. */
  lemma FindEventById(st: State, integration: Id, table: string, e: string, ev: Event)
    requires GoodLog(st) && ev in st.log && Timeline(st, integration, table, e, ev)
    ensures FindEvent(st, st.log, integration, table, e, ev.id) == Some(ev)
  {
    hide WellShaped, LeftState, Timeline;
    FindEventFinds(st, st.log, integration, table, e, ev.id);
    var found := FindEvent(st, st.log, integration, table, e, ev.id);
    var i :| 0 <= i < |st.log| && st.log[i] == ev;
    var j :| 0 <= j < |st.log| && st.log[j] == found.value;
    assert i == j;
  }

  /** The rows of a snapshot in sync with a good log are objects. */
  lemma {:induction false} ReplayLeavesObjects(log: seq<Event>, s: Id, e: string)
    requires forall i :: 0 <= i < |log| ==> WellShaped(log[i].action, log[i].payload, LeftState(log[i]))
    ensures Replay(log, s, e).Some? ==> Replay(log, s, e).value.Obj?
  {
    if log != [] { ReplayLeavesObjects(log[..|log| - 1], s, e); }
  }

  lemma CurrentIsReplay(st: State, s: Id, e: string)
    requires GoodLog(st) && InSync(st, s)
    ensures RowData(st.rows, s, e) == Listed(Replay(st.log, s, e))
    ensures ObjectOrNull(CurrentState(st, s, e)) && (CurrentState(st, s, e) == Null <==> RowData(st.rows, s, e) == [])
  {
    ReplayLeavesObjects(st.log, s, e);
    hide WellShaped, LeftState, Replay, RowData;
    assert RowData(st.rows, s, e) == Listed(Replay(st.log, s, e));
  }

  lemma {:induction false} RowDataIsStored(rows: seq<Row>, s: Id, e: string)
    requires ObjectRows(rows)
    ensures forall data :: data in RowData(rows, s, e) ==> data.Obj?
    ensures RowData(rows, s, e) != [] ==> CleanId(e)
  {
    hide CleanId;
    if rows != [] {
      assert rows[|rows| - 1] in rows;
      RowDataIsStored(rows[..|rows| - 1], s, e);
    }
  }

  /** Whatever snapshot is read, and whenever: a current state is an object or null. */
  lemma CurrentIsObject(st: State, s: Id, e: string)
    requires ObjectRows(st.rows)
    ensures ObjectOrNull(CurrentState(st, s, e))
  {
    RowDataIsStored(st.rows, s, e);
    hide RowData, CleanId;
  }

  // -------- creating an entity --------

  predicate HasSource(st: State, integration: Id, source: Id) {
    source in st.sources && st.sources[source].integration == integration
  }

  /** resolveSourceAndSnapshot, for operations that need a snapshot. */
  ghost function ActiveSnapshot(st: State, integration: Id, source: Id): Option<Id> {
    if HasSource(st, integration, source) then FindLatest(st.snapshots, integration, st.sources[source].slug) else None
  }

  /** CreateEntity before its transaction. */
  ghost function PlanCreate(st: State, integration: Id, source: Id, rawId: string,
                            payload: Option<map<string, Json>>): Result<Plan, Error> {
    var e := Text.TrimSpace(rawId);
    if e == "" || payload.None? then Err(InvalidInput)
    else match ActiveSnapshot(st, integration, source)
      case None => Err(NotFound)
      case Some(s) =>
        var data := Obj(payload.value);
        Ok(Plan([Write(s, Change(e, Some(data), EntityUpsert, data))], map[source := s]))
  }

  // -------- rolling one entity back --------

  /** The write of a rollback, once its target event and the entity's current state are read. */
  function RollbackWrite(s: Id, e: string, ev: Event, current: Json): Option<Write> {
    match ResolveTargetState(ev.payload)
    case None => None
    case Some(target) =>
      match CompensationPayload(current, target, ev.id)
      case None => None
      case Some(payload) => Some(Write(s, Change(e, Some(target), RollbackCompensation, payload)))
  }

  /** RollbackEntity before its transaction. */
  ghost function PlanRollback(st: State, integration: Id, source: Id, rawId: string, eventId: Id): Result<Plan, Error> {
    var e := Text.TrimSpace(rawId);
    if e == "" then Err(InvalidInput)
    else match ActiveSnapshot(st, integration, source)
      case None => Err(NotFound)
      case Some(s) =>
        match FindEvent(st, st.log, integration, st.sources[source].slug, e, eventId)
        case None => Err(NotFound)
        case Some(ev) =>
          match RollbackWrite(s, e, ev, CurrentState(st, s, e))
          case None => Err(Semantic)
          case Some(w) => Ok(Plan([w], map[source := s]))
  }

  predicate IsRaw(action: Action) {
    action.BaselineImport? || action.EntityUpsert?
  }

  /** The event left its entity with a state that a rollback can read back from the payload. */
  predicate Restorable(ev: Event) {
    LeftState(ev).Some? && (IsRaw(ev.action) ==> ev.payload.Obj? && !HasReservedKey(ev.payload.fields))
  }

  /**
    What a well-shaped event resolves to: the state it left, none if it left none; a raw row only
    without reserved keys.
   */
  lemma TargetOfEvent(ev: Event)
    requires WellShaped(ev.action, ev.payload, LeftState(ev))
    ensures LeftState(ev).None? ==> ResolveTargetState(ev.payload) == None
    ensures ResolveTargetState(ev.payload) == LeftState(ev) <==> LeftState(ev).None? || Restorable(ev)
  {
    if IsRaw(ev.action) {
      RawStateIsRestoredIff(ev.payload.fields);
    } else {
      var after := if LeftState(ev).Some? then LeftState(ev).value else Null;
      RecordedStateIsRestored(ev.payload, ev.payload.fields["before"], after);
    }
  }

  /** One write applied: the entity's row, all other rows, and the log. */
  lemma OneWrite(st: State, w: Write)
    requires |RowData(st.rows, w.snapshot, w.change.entityId)| <= 1
    ensures RowData(Applied(st, w).rows, w.snapshot, w.change.entityId) == Listed(w.change.data)
    ensures forall s, e :: s != w.snapshot || e != w.change.entityId ==>
              RowData(Applied(st, w).rows, s, e) == RowData(st.rows, s, e)
  {
    forall s, e
      ensures s != w.snapshot || e != w.change.entityId ==> RowData(Applied(st, w).rows, s, e) == RowData(st.rows, s, e)
    {
      WrittenRow(st, w, s, e);
    }
    WrittenRow(st, w, w.snapshot, w.change.entityId);
  }

  lemma WrittenRow(st: State, w: Write, s: Id, e: string)
    ensures s != w.snapshot || e != w.change.entityId ==> RowData(Applied(st, w).rows, s, e) == RowData(st.rows, s, e)
    ensures |RowData(st.rows, w.snapshot, w.change.entityId)| <= 1 ==>
              RowData(Applied(st, w).rows, w.snapshot, w.change.entityId) == Listed(w.change.data)
    ensures s != w.snapshot ==> CountRows(Applied(st, w).rows, s) == CountRows(st.rows, s)
  {
    if w.change.data.Some? {
      RowDataUpsert(st.rows, w.snapshot, w.change.entityId, w.change.data.value, s, e);
    } else {
      RowDataDelete(st.rows, w.snapshot, w.change.entityId, s, e);
      RowDataDelete(st.rows, w.snapshot, w.change.entityId, w.snapshot, w.change.entityId);
    }
  }

  lemma AppliedOne(st: State, w: Write)
    ensures AppliedAll(st, [w]) == Applied(st, w)
  {
    assert [w][..0] == [];
  }

  /** Only the rows and log entries of the given entity differ, and the log grew by one event that left `state`. */
  ghost predicate OnlyEntityChanged(st: State, st': State, s: Id, e: string, state: Json) {
    && RowData(st'.rows, s, e) == [state]
    && (forall s', e' :: s' != s || e' != e ==> RowData(st'.rows, s', e') == RowData(st.rows, s', e'))
    && |st'.log| == |st.log| + 1 && st.log <= st'.log
    && st'.log[|st.log|].snapshot == s && st'.log[|st.log|].entityId == e && LeftState(st'.log[|st.log|]) == Some(state)
    && st'.snapshots == st.snapshots && st'.sources.Keys == st.sources.Keys
  }

  /** An honest single put, carried out. */
  lemma CommitOnePut(st: State, w: Write, source: Id)
    requires Honest(w.change) && w.change.data.Some? && w.snapshot in st.snapshots && source in st.sources
    requires |RowData(st.rows, w.snapshot, w.change.entityId)| <= 1
    ensures var r := Commit(st, Plan([w], map[source := w.snapshot]));
            r.Ok? && OnlyEntityChanged(st, r.value, w.snapshot, w.change.entityId, w.change.data.value)
  {
    AppliedOne(st, w);
    OneWrite(st, w);
    HonestLeaves(st.nextId, w);
    hide RowData, Honest, WriteRow, LeftState, CountRows;
  }

  /**
    No past state is lost: whatever the latest snapshot and the current state
    are, rolling back to a logged event that left a state restores exactly that
    state, touches no other entity and appends one event that records both.
   */
  lemma RollbackRestores(st: State, integration: Id, source: Id, rawId: string, ev: Event)
    requires Kept(st) && HasSource(st, integration, source) && ev in st.log
    requires Text.TrimSpace(rawId) == ev.entityId
    requires InTable(st.snapshots, integration, st.sources[source].slug, ev.snapshot) && Restorable(ev)
    ensures var plan := PlanRollback(st, integration, source, rawId, ev.id);
            && plan.Ok? && Commit(st, plan.value).Ok?
            && var st' := Commit(st, plan.value).value;
               var s := ActiveSnapshot(st, integration, source).value;
               && OnlyEntityChanged(st, st', s, ev.entityId, LeftState(ev).value)
               && RecordsAfter(st'.log[|st.log|].payload, LeftState(ev).value)
               && st'.log[|st.log|].payload.fields["before"] == CurrentState(st, s, ev.entityId)
               && st'.sources[source].recordCount == CountRows(st'.rows, s)
  {
    var table := st.sources[source].slug;
    FindLatestIff(st.snapshots, integration, table);
    assert ev.snapshot in TableOf(st.snapshots, integration, table);
    var s := ActiveSnapshot(st, integration, source).value;
    LatestIsInSync(st, integration, table, s);
    FindEventById(st, integration, table, ev.entityId, ev);
    CurrentIsReplay(st, s, ev.entityId);
    EventIsWellShaped(st, ev);
    LoggedIdIsClean(st, ev);
    hide InSync, Kept, GoodLog, IsLatest, TableOf, FindEvent, CleanId;
    RollbackWriteFor(s, ev.entityId, ev, CurrentState(st, s, ev.entityId));
    var w := RollbackWrite(s, ev.entityId, ev, CurrentState(st, s, ev.entityId)).value;
    hide RollbackWrite;
    assert PlanRollback(st, integration, source, rawId, ev.id) == Ok(Plan([w], map[source := s]));
    hide PlanRollback, WellShaped, Restorable, RowData, CurrentState;
    CommitOnePut(st, w, source);
    CommittedPut(st, w, source);
  }

  lemma EventIsWellShaped(st: State, ev: Event)
    requires GoodLog(st) && ev in st.log
    ensures WellShaped(ev.action, ev.payload, LeftState(ev))
  {
  }

  /** The id of a logged event is what a caller gets back when it is trimmed once more. */
  lemma LoggedIdIsClean(st: State, ev: Event)
    requires GoodLog(st) && ev in st.log
    ensures CleanId(ev.entityId) && ev.entityId != "" && Text.TrimSpace(ev.entityId) == ev.entityId
  {
    hide WellShaped, LeftState;
    CleanIdFacts(ev.entityId);
  }

  lemma RollbackWriteFor(s: Id, e: string, ev: Event, current: Json)
    requires WellShaped(ev.action, ev.payload, LeftState(ev)) && Restorable(ev) && ObjectOrNull(current) && CleanId(e)
    ensures var w := RollbackWrite(s, e, ev, current);
            && w.Some? && Honest(w.value.change) && w.value.snapshot == s && w.value.change.entityId == e
            && w.value.change.data == LeftState(ev) && w.value.change.action == RollbackCompensation
            && RecordsAfter(w.value.change.payload, LeftState(ev).value)
            && w.value.change.payload.fields["before"] == current
  {
    hide CleanId;
    TargetOfEvent(ev);
    BuildersRecord(current, LeftState(ev).value, ev.id, "", "");
  }

  lemma CommittedPut(st: State, w: Write, source: Id)
    requires w.snapshot in st.snapshots && source in st.sources
    ensures var r := Commit(st, Plan([w], map[source := w.snapshot]));
            && r.Ok? && |r.value.log| == |st.log| + 1 && r.value.log[|st.log|] == EventOf(st.nextId, w)
            && r.value.sources[source].recordCount == CountRows(r.value.rows, w.snapshot)
  {
    AppliedOne(st, w);
    hide WriteRow, CountRows;
  }

  /** An event that left its entity deleted is refused, and so is an unknown one. */
  lemma RollbackRefused(st: State, integration: Id, source: Id, rawId: string, id: Id)
    requires Kept(st)
    ensures (exists ev :: ev in st.log && ev.id == id && LeftState(ev).None?) ==>
              PlanRollback(st, integration, source, rawId, id).Err?
    ensures (forall ev :: ev in st.log ==> ev.id != id) ==> PlanRollback(st, integration, source, rawId, id).Err?
  {
    var e := Text.TrimSpace(rawId);
    var s := ActiveSnapshot(st, integration, source);
    if e != "" && s.Some? {
      var table := st.sources[source].slug;
      FindEventFinds(st, st.log, integration, table, e, id);
      var found := FindEvent(st, st.log, integration, table, e, id);
      if found.Some? {
        EventIsWellShaped(st, found.value);
        TargetOfEvent(found.value);
        SameIdSameEvent(st, found.value);
      }
    }
    hide Kept, FindEvent, WellShaped, LeftState, ResolveTargetState, CompensationPayload, CurrentState, ActiveSnapshot;
  }

  lemma SameIdSameEvent(st: State, ev: Event)
    requires GoodLog(st) && ev in st.log
    ensures forall ev' :: ev' in st.log && ev'.id == ev.id ==> ev' == ev
  {
    hide WellShaped, LeftState;
    var i :| 0 <= i < |st.log| && st.log[i] == ev;
    forall ev' | ev' in st.log && ev'.id == ev.id ensures ev' == ev {
      var j :| 0 <= j < |st.log| && st.log[j] == ev';
      assert i == j;
    }
  }

  /** A baseline or created row comes back unchanged exactly if it has none of the reserved keys. */
  lemma RawRollbackIff(st: State, integration: Id, source: Id, rawId: string, ev: Event)
    requires Kept(st) && HasSource(st, integration, source) && ev in st.log && IsRaw(ev.action)
    requires Text.TrimSpace(rawId) == ev.entityId
    requires InTable(st.snapshots, integration, st.sources[source].slug, ev.snapshot)
    ensures var plan := PlanRollback(st, integration, source, rawId, ev.id);
            (plan.Ok? && plan.value.writes[0].change.data == LeftState(ev)) <==> !HasReservedKey(ev.payload.fields)
  {
    EventIsWellShaped(st, ev);
    assert ev.payload.Obj? && LeftState(ev) == Some(ev.payload);
    var table := st.sources[source].slug;
    FindEventById(st, integration, table, ev.entityId, ev);
    RawStateIsRestoredIff(ev.payload.fields);
    if !HasReservedKey(ev.payload.fields) {
      RollbackRestores(st, integration, source, rawId, ev);
      RawTarget(st, integration, source, rawId, ev);
    }
    hide Kept, GoodLog, InTable, FindEvent, CompensationPayload, CurrentState, HasReservedKey, ActiveSnapshot;
  }

  lemma RawTarget(st: State, integration: Id, source: Id, rawId: string, ev: Event)
    requires PlanRollback(st, integration, source, rawId, ev.id).Ok? && HasSource(st, integration, source)
    requires FindEvent(st, st.log, integration, st.sources[source].slug, Text.TrimSpace(rawId), ev.id) == Some(ev)
    ensures var plan := PlanRollback(st, integration, source, rawId, ev.id).value;
            plan.writes[0].change.data == ResolveTargetState(ev.payload)
  {
    hide FindEvent, CompensationPayload, CurrentState, ActiveSnapshot, ResolveTargetState;
  }

  /** A created entity has exactly the given payload, whatever it was before, and nothing else changes. */
  lemma CreatePutsPayload(st: State, integration: Id, source: Id, rawId: string, payload: map<string, Json>)
    requires Kept(st) && PlanCreate(st, integration, source, rawId, Some(payload)).Ok?
    ensures var plan := PlanCreate(st, integration, source, rawId, Some(payload)).value;
            var r := Commit(st, plan);
            && r.Ok? && OnlyEntityChanged(st, r.value, plan.writes[0].snapshot, Text.TrimSpace(rawId), Obj(payload))
            && r.value.sources[source].recordCount == CountRows(r.value.rows, plan.writes[0].snapshot)
  {
    var plan := PlanCreate(st, integration, source, rawId, Some(payload)).value;
    var w := plan.writes[0];
    CleanIdFacts(rawId);
    LatestIsInSync(st, integration, st.sources[source].slug, w.snapshot);
    CurrentIsReplay(st, w.snapshot, w.change.entityId);
    hide Kept, InSync, RowData, IsLatest, FindLatest, CleanId;
    CommitOnePut(st, w, source);
    CommittedPut(st, w, source);
  }
}
