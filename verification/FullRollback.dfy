/**
  Rolling a whole source back to its first baseline: RollbackComplete
  (apps/api/internal/core/usecase/data_debugger_service.go).
 */
module FullRollback {
  import opened Wrappers
  import opened Payloads
  import opened EntityStore
  import opened ReplayInvariant
  import opened Operations
  import Seqs

  // -------- several writes --------

  /** The last write to an entity of a snapshot. */
  function LastWrite(writes: seq<Write>, s: Id, e: string): Option<Change> {
    if writes == [] then None
    else if writes[|writes| - 1].snapshot == s && writes[|writes| - 1].change.entityId == e then
      Some(writes[|writes| - 1].change)
    else LastWrite(writes[..|writes| - 1], s, e)
  }

  lemma {:induction false} LastWriteAppend(a: seq<Write>, b: seq<Write>, s: Id, e: string)
    ensures LastWrite(a + b, s, e) == if LastWrite(b, s, e).Some? then LastWrite(b, s, e) else LastWrite(a, s, e)
  {
    if b == [] {
      Seqs.EmptyRight(a);
    } else {
      assert (a + b)[..|a + b| - 1] == a + b[..|b| - 1];
      LastWriteAppend(a, b[..|b| - 1], s, e);
    }
  }

  /** The last write wins; what is not written stays. */
  lemma {:induction false} LastWriteWins(st: State, writes: seq<Write>, s: Id, e: string)
    requires |RowData(st.rows, s, e)| <= 1
    ensures RowData(AppliedAll(st, writes).rows, s, e)
         == match LastWrite(writes, s, e) { case None => RowData(st.rows, s, e) case Some(c) => Listed(c.data) }
  {
    hide RowData, Applied;
    if writes != [] {
      var front, w := writes[..|writes| - 1], writes[|writes| - 1];
      LastWriteWins(st, front, s, e);
      WrittenRow(AppliedAll(st, front), w, s, e);
    }
  }

  /** Snapshots nobody writes to keep their rows and their number. */
  lemma {:induction false} UnwrittenSnapshot(st: State, writes: seq<Write>, s: Id, e: string)
    requires forall w :: w in writes ==> w.snapshot != s
    ensures RowData(AppliedAll(st, writes).rows, s, e) == RowData(st.rows, s, e)
    ensures CountRows(AppliedAll(st, writes).rows, s) == CountRows(st.rows, s)
  {
    hide RowData, CountRows, Applied;
    if writes != [] {
      var front, w := writes[..|writes| - 1], writes[|writes| - 1];
      assert w in writes && forall x :: x in front ==> x in writes;
      UnwrittenSnapshot(st, front, s, e);
      WrittenRow(AppliedAll(st, front), w, s, e);
    }
  }

  // -------- the two maps --------

  /** currentByEntity. */
  function CurrentMap(rows: seq<Row>, s: Id): map<string, Json> {
    if rows == [] then map[]
    else
      var last := rows[|rows| - 1];
      var m := CurrentMap(rows[..|rows| - 1], s);
      if last.snapshot == s then m[last.entityId := last.data] else m
  }

  predicate IsBaselineOf(ev: Event, s: Id) {
    ev.snapshot == s && ev.action == BaselineImport
  }

  /** baselineByEntity, from ListSnapshotBaselineEntities. */
  function BaselineMap(log: seq<Event>, s: Id): map<string, Json> {
    if log == [] then map[]
    else
      var last := log[|log| - 1];
      var m := BaselineMap(log[..|log| - 1], s);
      if IsBaselineOf(last, s) then m[last.entityId := last.payload] else m
  }

  lemma {:induction false} CurrentMapIsRows(rows: seq<Row>, s: Id, e: string)
    ensures var data := RowData(rows, s, e);
            if data == [] then e !in CurrentMap(rows, s)
            else e in CurrentMap(rows, s) && CurrentMap(rows, s)[e] == data[|data| - 1]
  {
    if rows != [] { CurrentMapIsRows(rows[..|rows| - 1], s, e); }
  }

  lemma {:induction false} BaselineMapHasObjects(log: seq<Event>, s: Id)
    requires forall i :: 0 <= i < |log| ==> WellShaped(log[i].action, log[i].payload, LeftState(log[i]))
    requires forall i :: 0 <= i < |log| ==> CleanId(log[i].entityId)
    ensures AllObjects(BaselineMap(log, s))
  {
    hide CleanId;
    if log != [] { BaselineMapHasObjects(log[..|log| - 1], s); }
  }

  lemma {:induction false} CurrentMapHasObjects(rows: seq<Row>, s: Id)
    requires ObjectRows(rows)
    ensures AllObjects(CurrentMap(rows, s))
  {
    hide CleanId;
    if rows != [] {
      assert rows[|rows| - 1] in rows;
      CurrentMapHasObjects(rows[..|rows| - 1], s);
    }
  }

  /** Entities to write: absent now, or different from the baseline. */
  function Differing(current: map<string, Json>, baseline: map<string, Json>): set<string> {
    set e | e in baseline && (e !in current || current[e] != baseline[e])
  }

  /** Entities to remove. */
  function Surplus(current: map<string, Json>, baseline: map<string, Json>): set<string> {
    set e | e in current && e !in baseline
  }

  /** The order in which a loop over a map happens to meet these keys. */
  ghost predicate Enumerates(order: seq<string>, keys: set<string>) {
    && (forall e :: e in order <==> e in keys)
    && forall i, j :: 0 <= i < j < |order| ==> order[i] != order[j]
  }

  // -------- the plan --------

  function BeforeOf(current: map<string, Json>, e: string): Json {
    if e in current then current[e] else Null
  }

  /** States as they are stored: objects under clean ids. */
  ghost predicate AllObjects(m: map<string, Json>) {
    forall e :: e in m ==> m[e].Obj? && CleanId(e)
  }

  /** Stored states are objects, so building the payload cannot fail. */
  function UpsertWrite(s: Id, initial: Id, current: map<string, Json>, baseline: map<string, Json>, e: string): Write
    requires e in baseline && AllObjects(baseline) && AllObjects(current)
  {
    var payload := FullRollbackPayload(BeforeOf(current, e), baseline[e], initial, "UPSERT").value;
    Write(s, Change(e, Some(baseline[e]), RollbackCompensation, payload))
  }

  function RemoveWrite(s: Id, initial: Id, current: map<string, Json>, e: string): Write
    requires AllObjects(current)
  {
    var payload := FullRollbackPayload(BeforeOf(current, e), Null, initial, "DELETE").value;
    Write(s, Change(e, None, RollbackDeleteCompensation, payload))
  }

  function UpsertWrites(s: Id, initial: Id, current: map<string, Json>, baseline: map<string, Json>,
                        order: seq<string>): (r: seq<Write>)
    requires AllObjects(baseline) && AllObjects(current) && forall e :: e in order ==> e in baseline
    ensures |r| == |order| && forall i :: 0 <= i < |r| ==> r[i] == UpsertWrite(s, initial, current, baseline, order[i])
  {
    seq(|order|, i requires 0 <= i < |order| => UpsertWrite(s, initial, current, baseline, order[i]))
  }

  function RemoveWrites(s: Id, initial: Id, current: map<string, Json>, order: seq<string>): (r: seq<Write>)
    requires AllObjects(current)
    ensures |r| == |order| && forall i :: 0 <= i < |r| ==> r[i] == RemoveWrite(s, initial, current, order[i])
  {
    seq(|order|, i requires 0 <= i < |order| => RemoveWrite(s, initial, current, order[i]))
  }

  ghost predicate IsLastWrite(writes: seq<Write>, e: string, i: int) {
    && 0 <= i < |writes| && writes[i].change.entityId == e
    && forall j :: i < j < |writes| ==> writes[j].change.entityId != e
  }

  lemma {:induction false} LastOfIndex(writes: seq<Write>, s: Id, e: string, i: int)
    requires IsLastWrite(writes, e, i) && writes[i].snapshot == s
    ensures LastWrite(writes, s, e) == Some(writes[i].change)
  {
    if i < |writes| - 1 { LastOfIndex(writes[..|writes| - 1], s, e, i); }
  }

  lemma {:induction false} NoneTouches(writes: seq<Write>, s: Id, e: string)
    requires forall i :: 0 <= i < |writes| ==> writes[i].change.entityId != e
    ensures LastWrite(writes, s, e) == None
  {
    if writes != [] { NoneTouches(writes[..|writes| - 1], s, e); }
  }

  lemma LastOfUpserts(s: Id, initial: Id, current: map<string, Json>, baseline: map<string, Json>, order: seq<string>,
                      e: string)
    requires AllObjects(baseline) && AllObjects(current)
    requires Enumerates(order, Differing(current, baseline))
    ensures LastWrite(UpsertWrites(s, initial, current, baseline, order), s, e)
         == if e in Differing(current, baseline) then Some(UpsertWrite(s, initial, current, baseline, e).change)
            else None
  {
    var writes := UpsertWrites(s, initial, current, baseline, order);
    hide FullRollbackPayload;
    if e in order {
      var i :| 0 <= i < |order| && order[i] == e;
      assert IsLastWrite(writes, e, i);
      LastOfIndex(writes, s, e, i);
    } else {
      assert forall j :: 0 <= j < |writes| ==> writes[j].change.entityId == order[j];
      NoneTouches(writes, s, e);
    }
  }

  lemma LastOfRemoves(s: Id, initial: Id, current: map<string, Json>, order: seq<string>, keys: set<string>, e: string)
    requires AllObjects(current) && Enumerates(order, keys)
    ensures LastWrite(RemoveWrites(s, initial, current, order), s, e)
         == if e in keys then Some(RemoveWrite(s, initial, current, e).change) else None
  {
    var writes := RemoveWrites(s, initial, current, order);
    hide FullRollbackPayload;
    if e in order {
      var i :| 0 <= i < |order| && order[i] == e;
      assert IsLastWrite(writes, e, i);
      LastOfIndex(writes, s, e, i);
    } else {
      assert forall j :: 0 <= j < |writes| ==> writes[j].change.entityId == order[j];
      NoneTouches(writes, s, e);
    }
  }

  lemma UpsertWriteIsHonest(s: Id, initial: Id, current: map<string, Json>, baseline: map<string, Json>, e: string)
    requires e in baseline && AllObjects(baseline) && AllObjects(current)
    ensures var w := UpsertWrite(s, initial, current, baseline, e);
            Honest(w.change) && w.snapshot == s && w.change.payload.fields["before"] == BeforeOf(current, e)
  {
    hide CleanId;
    BuildersRecord(BeforeOf(current, e), baseline[e], initial, "UPSERT", "");
  }

  lemma RemoveWriteIsHonest(s: Id, initial: Id, current: map<string, Json>, e: string)
    requires AllObjects(current) && CleanId(e)
    ensures var w := RemoveWrite(s, initial, current, e);
            Honest(w.change) && w.snapshot == s && w.change.payload.fields["before"] == BeforeOf(current, e)
  {
    hide CleanId;
    BuildersRecord(BeforeOf(current, e), Null, initial, "DELETE", "");
  }

  /** What RollbackComplete has read: the snapshot to write to, the initial one, and the two maps. */
  datatype Reading = Reading(snapshot: Id, initial: Id, current: map<string, Json>, baseline: map<string, Json>)

  /** RollbackComplete before its loops. An initial snapshot without rows is "not found". */
  ghost function ReadForRollback(st: State, integration: Id, source: Id): Result<Reading, Error> {
    match ActiveSnapshot(st, integration, source)
    case None => Err(NotFound)
    case Some(s) =>
      match FindInitial(st.snapshots, integration, st.sources[source].slug)
      case None => Err(NotFound)
      case Some(initial) =>
        var baseline := BaselineMap(st.log, initial);
        if baseline == map[] then Err(NotFound) else Ok(Reading(s, initial, CurrentMap(st.rows, s), baseline))
  }

  /** The orders of the two loops over maps. */
  datatype Orders = Orders(upserts: seq<string>, removes: seq<string>)

  ghost predicate OrdersFor(o: Orders, r: Reading) {
    && Enumerates(o.upserts, Differing(r.current, r.baseline))
    && Enumerates(o.removes, Surplus(r.current, r.baseline))
  }

  ghost predicate GoodReading(r: Reading) {
    AllObjects(r.current) && AllObjects(r.baseline)
  }

  ghost function FullWrites(r: Reading, o: Orders): seq<Write>
    requires GoodReading(r) && OrdersFor(o, r)
  {
    UpsertWrites(r.snapshot, r.initial, r.current, r.baseline, o.upserts)
    + RemoveWrites(r.snapshot, r.initial, r.current, o.removes)
  }

  ghost function PlanFull(r: Reading, o: Orders, source: Id): Plan
    requires GoodReading(r) && OrdersFor(o, r)
  {
    Plan(FullWrites(r, o), map[source := r.snapshot])
  }

  lemma ReadingIsGood(st: State, integration: Id, source: Id)
    requires Kept(st) && ReadForRollback(st, integration, source).Ok?
    ensures GoodReading(ReadForRollback(st, integration, source).value)
    ensures InSync(st, ReadForRollback(st, integration, source).value.snapshot)
  {
    var r := ReadForRollback(st, integration, source).value;
    LatestIsInSync(st, integration, st.sources[source].slug, r.snapshot);
    BaselineMapHasObjects(st.log, r.initial);
    CurrentMapHasObjects(st.rows, r.snapshot);
    hide BaselineMap, CurrentMap, WellShaped, LeftState, CleanId;
  }

  lemma FullWritesAreHonest(r: Reading, o: Orders)
    requires GoodReading(r) && OrdersFor(o, r)
    ensures AllHonest(FullWrites(r, o))
    ensures forall w :: w in FullWrites(r, o) ==> w.snapshot == r.snapshot
  {
    var ups, dels := UpsertWrites(r.snapshot, r.initial, r.current, r.baseline, o.upserts),
                     RemoveWrites(r.snapshot, r.initial, r.current, o.removes);
    hide UpsertWrites, RemoveWrites, Honest, UpsertWrite, RemoveWrite;
    forall w | w in FullWrites(r, o) ensures Honest(w.change) && w.snapshot == r.snapshot {
      if w in ups {
        var i :| 0 <= i < |ups| && ups[i] == w;
        assert o.upserts[i] in Differing(r.current, r.baseline);
        UpsertWriteIsHonest(r.snapshot, r.initial, r.current, r.baseline, o.upserts[i]);
      } else {
        assert w in dels;
        var i :| 0 <= i < |dels| && dels[i] == w;
        assert o.removes[i] in Surplus(r.current, r.baseline);
        RemoveWriteIsHonest(r.snapshot, r.initial, r.current, o.removes[i]);
      }
    }
  }

  /** What the last write of a full rollback to an entity says. */
  lemma LastOfFull(r: Reading, o: Orders, e: string)
    requires GoodReading(r) && OrdersFor(o, r)
    ensures var last := LastWrite(FullWrites(r, o), r.snapshot, e);
            && (e in Differing(r.current, r.baseline) ==> last.Some? && last.value.data == Some(r.baseline[e]))
            && (e in Surplus(r.current, r.baseline) ==> last.Some? && last.value.data == None)
            && (e !in Differing(r.current, r.baseline) && e !in Surplus(r.current, r.baseline) ==> last == None)
  {
    LastOfUpserts(r.snapshot, r.initial, r.current, r.baseline, o.upserts, e);
    LastOfRemoves(r.snapshot, r.initial, r.current, o.removes, Surplus(r.current, r.baseline), e);
    LastWriteAppend(UpsertWrites(r.snapshot, r.initial, r.current, r.baseline, o.upserts),
                    RemoveWrites(r.snapshot, r.initial, r.current, o.removes), r.snapshot, e);
    hide UpsertWrites, RemoveWrites, LastWrite, Enumerates, FullRollbackPayload;
  }

  /** The rows of one entity after a full rollback. */
  lemma FullRollbackRow(st: State, integration: Id, source: Id, o: Orders, e: string)
    requires Kept(st) && ReadForRollback(st, integration, source).Ok?
    requires GoodReading(ReadForRollback(st, integration, source).value)
    requires OrdersFor(o, ReadForRollback(st, integration, source).value)
    ensures var r := ReadForRollback(st, integration, source).value;
            RowData(AppliedAll(st, FullWrites(r, o)).rows, r.snapshot, e)
            == if e in r.baseline then [r.baseline[e]] else []
  {
    var r := ReadForRollback(st, integration, source).value;
    ReadingIsGood(st, integration, source);
    CurrentIsReplay(st, r.snapshot, e);
    CurrentMapIsRows(st.rows, r.snapshot, e);
    assert r.current == CurrentMap(st.rows, r.snapshot);
    hide Kept, InSync, ReadForRollback, RowData, CurrentMap, OrdersFor, GoodReading, FullWrites, LastWrite, Replay;
    hide CurrentState;
    LastOfFull(r, o, e);
    LastWriteWins(st, FullWrites(r, o), r.snapshot, e);
  }

  lemma FullWritesLength(r: Reading, o: Orders)
    requires GoodReading(r) && OrdersFor(o, r)
    ensures |FullWrites(r, o)| == |Differing(r.current, r.baseline)| + |Surplus(r.current, r.baseline)|
  {
    EnumeratesLength(o.upserts, Differing(r.current, r.baseline));
    EnumeratesLength(o.removes, Surplus(r.current, r.baseline));
    hide Enumerates, Differing, Surplus, UpsertWrite, RemoveWrite;
  }

  lemma FullPlanCommits(st: State, r: Reading, o: Orders, source: Id)
    requires GoodReading(r) && OrdersFor(o, r) && r.snapshot in st.snapshots && source in st.sources
    requires forall w :: w in FullWrites(r, o) ==> w.snapshot == r.snapshot
    ensures Commit(st, PlanFull(r, o, source)).Ok?
  {
    hide AppliedAll, FullWrites, OrdersFor, GoodReading;
  }

  /**
    A full rollback, in whatever order its loops run: the projection becomes the
    first baseline, other snapshots keep their rows, and the log grows by one
    event per differing entity.
   */
  lemma FullRollbackRestores(st: State, integration: Id, source: Id, o: Orders)
    requires Kept(st) && ReadForRollback(st, integration, source).Ok?
    requires GoodReading(ReadForRollback(st, integration, source).value)
    requires OrdersFor(o, ReadForRollback(st, integration, source).value)
    ensures var r := ReadForRollback(st, integration, source).value;
            var result := Commit(st, PlanFull(r, o, source));
            && result.Ok? && Kept(result.value)
            && (forall e :: RowData(result.value.rows, r.snapshot, e)
                            == if e in r.baseline then [r.baseline[e]] else [])
            && (forall s, e :: s != r.snapshot ==> RowData(result.value.rows, s, e) == RowData(st.rows, s, e))
            && result.value.log == st.log + EventsOf(st.nextId, FullWrites(r, o))
            && |result.value.log| == |st.log| + |Differing(r.current, r.baseline)| + |Surplus(r.current, r.baseline)|
            && result.value.snapshots == st.snapshots
  {
    var r := ReadForRollback(st, integration, source).value;
    assert r.snapshot in st.snapshots && source in st.sources;
    var writes := FullWrites(r, o);
    FullWritesLength(r, o);
    FullWritesAreHonest(r, o);
    FullPlanCommits(st, r, o, source);
    hide ReadForRollback, RowData, AllHonest, FullWrites, OrdersFor, GoodReading, Kept, AppliedAll, Commit, Differing;
    hide Surplus;
    AppliedAllLog(st, writes);
    CommitKeeps(st, PlanFull(r, o, source));
    Committed(st, PlanFull(r, o, source));
    forall e
      ensures RowData(AppliedAll(st, writes).rows, r.snapshot, e) == if e in r.baseline then [r.baseline[e]] else []
    {
      FullRollbackRow(st, integration, source, o, e);
    }
    forall s, e | s != r.snapshot ensures RowData(AppliedAll(st, writes).rows, s, e) == RowData(st.rows, s, e) {
      UnwrittenSnapshot(st, writes, s, e);
    }
  }

  // -------- the baseline stays --------

  lemma {:induction false} BaselineMapAppend(log: seq<Event>, more: seq<Event>, s: Id)
    requires forall i :: 0 <= i < |more| ==> !IsBaselineOf(more[i], s)
    ensures BaselineMap(log + more, s) == BaselineMap(log, s)
  {
    if more == [] {
      Seqs.EmptyRight(log);
    } else {
      assert (log + more)[..|log + more| - 1] == log + more[..|more| - 1];
      BaselineMapAppend(log, more[..|more| - 1], s);
    }
  }

  /** Honest writes never change what a snapshot was uploaded with. */
  lemma WritesKeepBaseline(st: State, writes: seq<Write>, s: Id)
    requires AllHonest(writes)
    ensures BaselineMap(AppliedAll(st, writes).log, s) == BaselineMap(st.log, s)
  {
    AppliedAllLog(st, writes);
    forall i | 0 <= i < |writes| ensures !IsBaselineOf(EventsOf(st.nextId, writes)[i], s) {
      assert writes[i] in writes;
    }
    BaselineMapAppend(st.log, EventsOf(st.nextId, writes), s);
  }

  /** Nor does an upload, for the snapshots that were there. */
  lemma UploadKeepsBaseline(st: State, up: Upload, s: Id)
    requires up.source in st.sources && s != st.nextId
    ensures BaselineMap(Uploaded(st, up).log, s) == BaselineMap(st.log, s)
  {
    hide BaselineEvents, BaselineMap, RowsWithout, BaselineRows, TableOf;
    BaselineEventsAt(st.nextId + 1, st.nextId, up.items);
    BaselineMapAppend(st.log, BaselineEvents(st.nextId + 1, st.nextId, up.items), s);
  }

  lemma {:induction false} BaselineMapWithout(log: seq<Event>, ids: set<Id>, s: Id)
    requires s !in ids
    ensures BaselineMap(LogWithout(log, ids), s) == BaselineMap(log, s)
  {
    if log != [] {
      var front, last := log[..|log| - 1], log[|log| - 1];
      BaselineMapWithout(front, ids, s);
      if last.snapshot in ids {
        Seqs.EmptyRight(LogWithout(front, ids));
      } else {
        assert (LogWithout(front, ids) + [last])[..|LogWithout(front, ids)|] == LogWithout(front, ids);
      }
    }
  }

  lemma BaselineMapEmptyPrefix(log: seq<Event>, s: Id)
    requires forall i :: 0 <= i < |log| ==> !IsBaselineOf(log[i], s)
    ensures BaselineMap(log, s) == map[]
  {
    BaselineMapAppend([], log, s);
    Seqs.EmptyLeft(log);
  }

  function ItemsMap(items: seq<Item>): map<string, Json> {
    if items == [] then map[]
    else ItemsMap(items[..|items| - 1])[items[|items| - 1].entityId := items[|items| - 1].data]
  }

  /** What an upload makes the baseline of its snapshot. */
  lemma {:induction false} BaselineMapOfItems(log: seq<Event>, firstId: Id, s: Id, items: seq<Item>)
    requires forall i :: 0 <= i < |log| ==> log[i].snapshot != s
    ensures BaselineMap(log + BaselineEvents(firstId, s, items), s) == ItemsMap(items)
  {
    if items == [] {
      Seqs.EmptyRight(log);
      BaselineMapEmptyPrefix(log, s);
    } else {
      var front := items[..|items| - 1];
      BaselineMapOfItems(log, firstId, s, front);
      var ev := BaselineEvent(firstId + |items| - 1, s, items[|items| - 1]);
      Seqs.Assoc(log, BaselineEvents(firstId, s, front), [ev]);
      var l := log + BaselineEvents(firstId, s, front);
      assert (l + [ev])[..|l|] == l;
    }
  }

  // -------- rolling back again --------

  lemma SameReading(st: State, st': State, integration: Id, source: Id)
    requires ReadForRollback(st, integration, source).Ok?
    requires st'.snapshots == st.snapshots && source in st'.sources
    requires st'.sources[source].integration == st.sources[source].integration
    requires st'.sources[source].slug == st.sources[source].slug
    requires var r := ReadForRollback(st, integration, source).value;
             BaselineMap(st'.log, r.initial) == r.baseline && CurrentMap(st'.rows, r.snapshot) == r.baseline
    ensures var r := ReadForRollback(st, integration, source).value;
            ReadForRollback(st', integration, source) == Ok(r.(current := r.baseline))
  {
    hide BaselineMap, CurrentMap, FindLatest, FindInitial;
  }

  /** After a full rollback a second one reads a projection equal to the baseline. */
  lemma SecondReading(st: State, integration: Id, source: Id, o: Orders)
    requires Kept(st) && ReadForRollback(st, integration, source).Ok?
    requires GoodReading(ReadForRollback(st, integration, source).value)
    requires OrdersFor(o, ReadForRollback(st, integration, source).value)
    ensures var r := ReadForRollback(st, integration, source).value;
            var result := Commit(st, PlanFull(r, o, source));
            result.Ok? && ReadForRollback(result.value, integration, source) == Ok(r.(current := r.baseline))
  {
    var r := ReadForRollback(st, integration, source).value;
    assert r.baseline == BaselineMap(st.log, r.initial) && source in st.sources;
    hide Kept, GoodReading, OrdersFor, ReadForRollback, RowData, AppliedAll, BaselineMap, CurrentMap, FullWrites;
    hide Commit, AllHonest;
    hide Differing, Surplus;
    FullRollbackRestores(st, integration, source, o);
    Committed(st, PlanFull(r, o, source));
    FullWritesAreHonest(r, o);
    WritesKeepBaseline(st, FullWrites(r, o), r.initial);
    var st' := Commit(st, PlanFull(r, o, source)).value;
    ProjectionIsBaseline(st', r);
    SameReading(st, st', integration, source);
  }

  /** Each key exactly once. */
  lemma {:induction false} EnumeratesLength(order: seq<string>, keys: set<string>)
    requires Enumerates(order, keys)
    ensures |order| == |keys|
  {
    if order == [] {
      assert keys == {} by { assert forall e :: e in keys ==> e in order; }
    } else {
      var rest, e := order[..|order| - 1], order[|order| - 1];
      Seqs.Unsnoc(order);
      assert e in keys && forall i :: 0 <= i < |rest| ==> rest[i] == order[i];
      assert Enumerates(rest, keys - {e});
      EnumeratesLength(rest, keys - {e});
    }
  }

  /** Nothing differs, so nothing is written: no row changes and no event is appended. */
  lemma NothingLeftToRollBack(st: State, r: Reading, o: Orders, source: Id)
    requires GoodReading(r) && OrdersFor(o, r) && r.current == r.baseline && source in st.sources
    ensures var result := Commit(st, PlanFull(r, o, source));
            result.Ok? && result.value.log == st.log && result.value.rows == st.rows && o == Orders([], [])
  {
    assert Differing(r.current, r.baseline) == {} && Surplus(r.current, r.baseline) == {};
    EnumeratesLength(o.upserts, {});
    EnumeratesLength(o.removes, {});
  }

  lemma ProjectionIsBaseline(st: State, r: Reading)
    requires forall e :: RowData(st.rows, r.snapshot, e) == if e in r.baseline then [r.baseline[e]] else []
    ensures CurrentMap(st.rows, r.snapshot) == r.baseline
  {
    var m := CurrentMap(st.rows, r.snapshot);
    forall e ensures e in m <==> e in r.baseline
      ensures e in m && e in r.baseline ==> m[e] == r.baseline[e]
    {
      CurrentMapIsRows(st.rows, r.snapshot, e);
    }
    assert m.Keys == r.baseline.Keys;
  }
}
