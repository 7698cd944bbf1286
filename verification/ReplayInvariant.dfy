/**
  Replay: whatever transactions interleave, the working rows of a table's
  latest snapshot are what its event log leaves.
 */
module ReplayInvariant {
  import opened Wrappers
  import opened Payloads
  import opened EntityStore
  import Seqs

  // -------- honest changes --------

  predicate RecordsAfter(payload: Json, after: Json) {
    payload.Obj? && "before" in payload.fields && ObjectOrNull(payload.fields["before"])
    && Records(payload, payload.fields["before"], after)
  }

  /** The payload of an event with the given action says which state it left. */
  predicate WellShaped(action: Action, payload: Json, left: Option<Json>) {
    match action
    case BaselineImport => payload.Obj? && left == Some(payload)
    case EntityUpsert => payload.Obj? && left == Some(payload)
    case RuntimeUpsert => left.Some? && left.value.Obj? && RecordsAfter(payload, left.value)
    case RollbackCompensation => left.Some? && left.value.Obj? && RecordsAfter(payload, left.value)
    case RuntimeDelete => left.None? && RecordsAfter(payload, Null)
    case RollbackDeleteCompensation => left.None? && RecordsAfter(payload, Null)
  }

  /** A change whose event says what its row write does. */
  predicate Honest(c: Change) {
    c.action != BaselineImport && CleanId(c.entityId) && WellShaped(c.action, c.payload, c.data)
  }

  ghost predicate AllHonest(writes: seq<Write>) {
    forall w :: w in writes ==> Honest(w.change)
  }

  lemma HonestLeaves(id: Id, w: Write)
    requires Honest(w.change)
    ensures LeftState(EventOf(id, w)) == w.change.data
  {
  }

  // -------- the invariant --------

  function Listed(o: Option<Json>): seq<Json> {
    match o
    case None => []
    case Some(data) => [data]
  }

  /** The rows of the snapshot are the replay of its log: one row per entity, with that state. */
  ghost predicate InSync(st: State, s: Id) {
    forall e :: RowData(st.rows, s, e) == Listed(Replay(st.log, s, e))
  }

  /** The table has a later snapshot. */
  ghost predicate Superseded(st: State, s: Id) {
    exists s' :: s' in st.snapshots && Later(st, s', s)
  }

  predicate Later(st: State, s': Id, s: Id)
    requires s' in st.snapshots
  {
    && s in st.snapshots
    && st.snapshots[s'].integration == st.snapshots[s].integration && st.snapshots[s'].table == st.snapshots[s].table
    && st.snapshots[s].createdAt < st.snapshots[s'].createdAt
  }

  /** Foreign keys, and fresh ids above all used ones. */
  ghost predicate Linked(st: State) {
    && (forall s :: s in st.snapshots ==> s < st.nextId)
    && (forall i :: i in st.sources ==> i < st.nextId)
    && (forall r :: r in st.rows ==> r.snapshot in st.snapshots)
    && (forall i :: 0 <= i < |st.log| ==> st.log[i].snapshot in st.snapshots)
  }

  /** Event ids grow along the log, entity ids are clean, and every payload has the shape of its action. */
  ghost predicate GoodLog(st: State) {
    && (forall i :: 0 <= i < |st.log| ==> st.log[i].id < st.nextId)
    && (forall i, j :: 0 <= i < j < |st.log| ==> st.log[i].id < st.log[j].id)
    && (forall i :: 0 <= i < |st.log| ==> CleanId(st.log[i].entityId))
    && (forall i :: 0 <= i < |st.log| ==> WellShaped(st.log[i].action, st.log[i].payload, LeftState(st.log[i])))
  }

  /** Every stored row, of whatever snapshot, is a JSON object under a clean id. */
  ghost predicate ObjectRows(rows: seq<Row>) {
    forall r :: r in rows ==> r.data.Obj? && CleanId(r.entityId)
  }

  ghost predicate Kept(st: State) {
    && Linked(st)
    && ObjectRows(st.rows)
    && GoodLog(st)
    && forall s :: s in st.snapshots ==> InSync(st, s) || Superseded(st, s)
  }

  /** What the invariant is for: the latest snapshot of every table shows the replay of its log. */
  lemma LatestIsInSync(st: State, integration: Id, table: string, s: Id)
    requires Kept(st) && IsLatest(st.snapshots, integration, table, s)
    ensures InSync(st, s)
  {
    hide InSync, GoodLog, Linked, ObjectRows;
  }

  // -------- a plan --------

  lemma WriteKeepsSync(st: State, w: Write, s: Id)
    requires InSync(st, s) && Honest(w.change)
    ensures InSync(Applied(st, w), s)
  {
    var st' := Applied(st, w);
    forall e ensures RowData(st'.rows, s, e) == Listed(Replay(st'.log, s, e)) {
      ReplaySnoc(st.log, EventOf(st.nextId, w), s, e);
      HonestLeaves(st.nextId, w);
      if w.change.data.Some? {
        RowDataUpsert(st.rows, w.snapshot, w.change.entityId, w.change.data.value, s, e);
      } else {
        RowDataDelete(st.rows, w.snapshot, w.change.entityId, s, e);
      }
      assert RowData(st.rows, s, e) == Listed(Replay(st.log, s, e));
      hide RowData, Replay, UpsertRow, DeleteRow, Honest, LeftState;
    }
  }

  lemma {:induction false} DeleteRowMembers(rows: seq<Row>, s: Id, e: string)
    ensures forall r :: r in DeleteRow(rows, s, e) ==> r in rows
  {
    if rows != [] {
      DeleteRowMembers(rows[..|rows| - 1], s, e);
    }
  }

  lemma WriteKeepsLinked(st: State, w: Write)
    requires Linked(st) && w.snapshot in st.snapshots
    ensures Linked(Applied(st, w))
  {
    var st' := Applied(st, w);
    DeleteRowMembers(st.rows, w.snapshot, w.change.entityId);
    forall r | r in st'.rows ensures r.snapshot in st.snapshots {
      if w.change.data.Some? && RowData(st.rows, w.snapshot, w.change.entityId) != [] {
        var i :| 0 <= i < |st'.rows| && st'.rows[i] == r;
        assert st.rows[i] in st.rows;
      }
    }
  }

  lemma WriteKeepsObjects(st: State, w: Write)
    requires ObjectRows(st.rows) && Honest(w.change)
    ensures ObjectRows(Applied(st, w).rows)
  {
    hide CleanId, Records, RowData;
    var rows' := Applied(st, w).rows;
    DeleteRowMembers(st.rows, w.snapshot, w.change.entityId);
    forall r | r in rows' ensures r.data.Obj? && CleanId(r.entityId) {
      if w.change.data.Some? && RowData(st.rows, w.snapshot, w.change.entityId) != [] {
        var i :| 0 <= i < |rows'| && rows'[i] == r;
        assert st.rows[i] in st.rows;
      }
    }
  }

  lemma WriteKeepsGoodLog(st: State, w: Write)
    requires GoodLog(st) && Honest(w.change)
    ensures GoodLog(Applied(st, w))
  {
    HonestLeaves(st.nextId, w);
    hide WellShaped, WriteRow, CleanId;
  }

  lemma {:induction false} WritesKeep(st: State, writes: seq<Write>)
    requires Kept(st) && AllHonest(writes) && KnownSnapshots(st, writes)
    ensures Kept(AppliedAll(st, writes))
  {
    hide InSync, Superseded, Honest, Linked, ObjectRows, GoodLog, Applied;
    if writes != [] {
      var front, w := writes[..|writes| - 1], writes[|writes| - 1];
      assert w in writes && forall x :: x in front ==> x in writes;
      WritesKeep(st, front);
      var st1 := AppliedAll(st, front);
      WriteKeeps(st1, w);
    }
  }

  lemma WriteKeeps(st: State, w: Write)
    requires Kept(st) && Honest(w.change) && w.snapshot in st.snapshots
    ensures Kept(Applied(st, w))
  {
    WriteKeepsLinked(st, w);
    WriteKeepsGoodLog(st, w);
    WriteKeepsObjects(st, w);
    hide InSync, Honest, Linked, ObjectRows, GoodLog;
    var st' := Applied(st, w);
    forall s | s in st'.snapshots ensures InSync(st', s) || Superseded(st', s) {
      if InSync(st, s) {
        WriteKeepsSync(st, w, s);
      } else {
        var s' :| s' in st.snapshots && Later(st, s', s);
        assert Later(st', s', s);
      }
    }
  }

  /** Only the sources changed, and by no more than their counts and slugs. */
  lemma SourcesDoNotMatter(st: State, st': State)
    requires Kept(st) && st'.snapshots == st.snapshots && st'.log == st.log && st'.rows == st.rows
    requires st'.nextId >= st.nextId && forall i :: i in st'.sources ==> i < st'.nextId
    ensures Kept(st')
  {
    hide WellShaped, LeftState, RowData, Replay, CleanId;
    forall s | s in st'.snapshots ensures InSync(st', s) || Superseded(st', s) {
      if !InSync(st, s) {
        var s' :| s' in st.snapshots && Later(st, s', s);
        assert Later(st', s', s);
      }
    }
  }

  /** The transaction of any honest plan, however stale what it was computed from. */
  lemma CommitKeeps(st: State, plan: Plan)
    requires Kept(st) && AllHonest(plan.writes) && Commit(st, plan).Ok?
    ensures Kept(Commit(st, plan).value)
  {
    WritesKeep(st, plan.writes);
    AppliedAllLog(st, plan.writes);
    var st1 := AppliedAll(st, plan.writes);
    assert forall i :: i in st1.sources ==> i < st1.nextId by { hide AppliedAll; }
    hide Kept, AppliedAll, AllHonest, KnownSnapshots;
    SourcesDoNotMatter(st1, CountedAll(st1, plan.counts));
  }

  // -------- an upload --------

  function IfItem(item: Item, e: string): seq<Json> {
    if item.entityId == e then [item.data] else []
  }

  /** The values a parsed payload gives for one entity id. */
  function ItemData(items: seq<Item>, e: string): seq<Json> {
    if items == [] then [] else ItemData(items[..|items| - 1], e) + IfItem(items[|items| - 1], e)
  }

  ghost predicate DistinctIds(items: seq<Item>) {
    forall i, j :: 0 <= i < j < |items| ==> items[i].entityId != items[j].entityId
  }

  lemma {:induction false} BaselineRowData(s: Id, items: seq<Item>, s': Id, e: string)
    ensures RowData(BaselineRows(s, items), s', e) == if s' == s then ItemData(items, e) else []
    ensures CountRows(BaselineRows(s, items), s') == if s' == s then |items| else 0
    ensures forall r :: r in BaselineRows(s, items) ==> r.snapshot == s
  {
    if items != [] {
      var front, last := items[..|items| - 1], items[|items| - 1];
      BaselineRowData(s, front, s', e);
      var row := Row(s, last.entityId, last.data);
      RowDataAppend(BaselineRows(s, front), [row], s', e);
      OneRow(row, s', e);
    }
  }

  lemma {:induction false} BaselineReplay(log: seq<Event>, firstId: Id, s: Id, items: seq<Item>, s': Id, e: string)
    ensures var values := ItemData(items, e);
            Replay(log + BaselineEvents(firstId, s, items), s', e)
            == if s' == s && values != [] then Some(values[|values| - 1]) else Replay(log, s', e)
  {
    if items == [] {
      Seqs.EmptyRight(log);
    } else {
      var front, last := items[..|items| - 1], items[|items| - 1];
      BaselineReplay(log, firstId, s, front, s', e);
      var ev := BaselineEvent(firstId + |items| - 1, s, last);
      Seqs.Assoc(log, BaselineEvents(firstId, s, front), [ev]);
      ReplaySnoc(log + BaselineEvents(firstId, s, front), ev, s', e);
    }
  }

  lemma {:induction false} NoItemData(items: seq<Item>, e: string)
    ensures ItemData(items, e) == [] <==> forall i :: 0 <= i < |items| ==> items[i].entityId != e
  {
    if items != [] { NoItemData(items[..|items| - 1], e); }
  }

  /** Distinct entity ids: at most one value per entity. */
  lemma {:induction false} DistinctIdsIff(items: seq<Item>)
    ensures DistinctIds(items) <==> forall e :: |ItemData(items, e)| <= 1
  {
    if items != [] {
      var front, last := items[..|items| - 1], items[|items| - 1];
      DistinctIdsIff(front);
      NoItemData(front, last.entityId);
      if !DistinctIds(items) {
        if DistinctIds(front) {
          assert ItemData(front, last.entityId) != [];
          assert |ItemData(items, last.entityId)| > 1;
        } else {
          var e :| |ItemData(front, e)| > 1;
          assert |ItemData(items, e)| > 1;
        }
      } else {
        assert DistinctIds(front) by {
          assert forall i :: 0 <= i < |front| ==> front[i] == items[i];
        }
        forall e ensures |ItemData(items, e)| <= 1 {
          assert |ItemData(front, e)| <= 1;
        }
      }
    }
  }

  lemma {:induction false} FreshSnapshotIsEmpty(rows: seq<Row>, log: seq<Event>, s: Id, e: string)
    requires (forall r :: r in rows ==> r.snapshot != s) && forall i :: 0 <= i < |log| ==> log[i].snapshot != s
    ensures RowData(rows, s, e) == [] && CountRows(rows, s) == 0 && Replay(log, s, e) == None
    decreases |rows| + |log|
  {
    if rows != [] {
      FreshSnapshotIsEmpty(rows[..|rows| - 1], log, s, e);
      assert rows[|rows| - 1] in rows;
    } else if log != [] {
      FreshSnapshotIsEmpty(rows, log[..|log| - 1], s, e);
    }
  }

  lemma TableIsKnown(st: State, up: Upload)
    requires Linked(st)
    ensures forall s :: s in TableOf(st.snapshots, up.integration, up.table) ==> s in st.snapshots && s != st.nextId
  {
  }

  /** Rows and replay of every snapshot after an upload. */
  lemma UploadedRows(st: State, up: Upload, s: Id, e: string)
    requires Linked(st) && up.source in st.sources
    ensures var st', values := Uploaded(st, up), ItemData(up.items, e);
            && RowData(st'.rows, s, e) == (if s == st.nextId then values
                                           else if s in TableOf(st.snapshots, up.integration, up.table) then []
                                           else RowData(st.rows, s, e))
            && Replay(st'.log, s, e) == (if s != st.nextId then Replay(st.log, s, e)
                                         else if values == [] then None
                                         else Some(values[|values| - 1]))
  {
    hide RowData, Replay, RowsWithout, BaselineRows, BaselineEvents, ItemData, TableOf;
    var ids := TableOf(st.snapshots, up.integration, up.table);
    var wiped, added := RowsWithout(st.rows, ids), BaselineRows(st.nextId, up.items);
    RowDataAppend(wiped, added, s, e);
    RowDataWithout(st.rows, ids, s, e);
    BaselineRowData(st.nextId, up.items, s, e);
    BaselineReplay(st.log, st.nextId + 1, st.nextId, up.items, s, e);
    if s == st.nextId { FreshSnapshotIsEmpty(st.rows, st.log, s, e); }
    assert s in ids ==> s != st.nextId by { TableIsKnown(st, up); }
    hide Linked;
    Seqs.EmptyLeft(ItemData(up.items, e));
    Seqs.EmptyRight(RowData(wiped, s, e));
  }

  /** Right after an upload its snapshot shows the replay exactly if the entity ids are distinct. */
  lemma NewSnapshotInSyncIff(st: State, up: Upload)
    requires Linked(st) && up.source in st.sources
    ensures InSync(Uploaded(st, up), st.nextId) <==> DistinctIds(up.items)
  {
    var st' := Uploaded(st, up);
    DistinctIdsIff(up.items);
    hide DistinctIds, RowData, Replay, ItemData, Linked, Uploaded;
    forall e
      ensures RowData(st'.rows, st.nextId, e) == Listed(Replay(st'.log, st.nextId, e)) <==> |ItemData(up.items, e)| <= 1
    {
      UploadedRows(st, up, st.nextId, e);
    }
    if InSync(st', st.nextId) {
      forall e ensures |ItemData(up.items, e)| <= 1 {
        assert RowData(st'.rows, st.nextId, e) == Listed(Replay(st'.log, st.nextId, e));
      }
    }
    if DistinctIds(up.items) {
      forall e ensures RowData(st'.rows, st.nextId, e) == Listed(Replay(st'.log, st.nextId, e)) {
        assert |ItemData(up.items, e)| <= 1;
      }
    }
  }

  ghost predicate EmptyReplay(st: State, s: Id) {
    forall e :: Replay(st.log, s, e) == None
  }

  /** A snapshot that was there before stays in sync exactly if its rows stay or its log leaves nothing. */
  lemma OldSnapshotInSync(st: State, up: Upload, s: Id)
    requires Linked(st) && up.source in st.sources && s in st.snapshots
    ensures s !in TableOf(st.snapshots, up.integration, up.table) ==> (InSync(Uploaded(st, up), s) <==> InSync(st, s))
    ensures s in TableOf(st.snapshots, up.integration, up.table) ==>
              (InSync(Uploaded(st, up), s) <==> EmptyReplay(st, s))
  {
    var st' := Uploaded(st, up);
    assert s != st.nextId;
    hide RowData, Replay, Linked, Uploaded, TableOf;
    forall e
      ensures s !in TableOf(st.snapshots, up.integration, up.table) ==>
                RowData(st'.rows, s, e) == RowData(st.rows, s, e)
      ensures s in TableOf(st.snapshots, up.integration, up.table) ==> RowData(st'.rows, s, e) == []
      ensures Replay(st'.log, s, e) == Replay(st.log, s, e)
    {
      UploadedRows(st, up, s, e);
    }
    if s in TableOf(st.snapshots, up.integration, up.table) {
      if InSync(st', s) {
        forall e ensures Replay(st.log, s, e) == None {
          assert RowData(st'.rows, s, e) == Listed(Replay(st'.log, s, e));
        }
      }
    }
  }

  /** The new snapshot is later than every snapshot of its table. */
  ghost predicate InOrder(st: State, up: Upload) {
    forall s :: s in TableOf(st.snapshots, up.integration, up.table) ==> st.snapshots[s].createdAt < up.now
  }

  /** Parsed rows are objects under clean ids. */
  ghost predicate GoodItems(items: seq<Item>) {
    forall i :: 0 <= i < |items| ==> items[i].data.Obj? && CleanId(items[i].entityId)
  }

  lemma {:induction false} BaselineEventsAt(firstId: Id, s: Id, items: seq<Item>)
    ensures |BaselineEvents(firstId, s, items)| == |items|
    ensures forall i :: 0 <= i < |items| ==>
              BaselineEvents(firstId, s, items)[i] == BaselineEvent(firstId + i, s, items[i])
  {
    if items != [] { BaselineEventsAt(firstId, s, items[..|items| - 1]); }
  }

  lemma {:induction false} RowsWithoutMembers(rows: seq<Row>, ids: set<Id>)
    ensures forall r :: r in RowsWithout(rows, ids) ==> r in rows && r.snapshot !in ids
  {
    if rows != [] { RowsWithoutMembers(rows[..|rows| - 1], ids); }
  }

  lemma UploadKeepsLinked(st: State, up: Upload)
    requires Linked(st) && up.source in st.sources
    ensures Linked(Uploaded(st, up))
  {
    hide RowsWithout, BaselineRows, BaselineEvents, TableOf, RowData, CountRows;
    BaselineEventsAt(st.nextId + 1, st.nextId, up.items);
    BaselineRowData(st.nextId, up.items, st.nextId, "");
    RowsWithoutMembers(st.rows, TableOf(st.snapshots, up.integration, up.table));
  }

  lemma {:induction false} BaselineRowsAreObjects(s: Id, items: seq<Item>)
    requires GoodItems(items)
    ensures ObjectRows(BaselineRows(s, items))
  {
    hide CleanId;
    if items != [] {
      BaselineRowsAreObjects(s, items[..|items| - 1]);
    }
  }

  lemma UploadKeepsObjects(st: State, up: Upload)
    requires ObjectRows(st.rows) && up.source in st.sources && GoodItems(up.items)
    ensures ObjectRows(Uploaded(st, up).rows)
  {
    hide CleanId, GoodItems, RowsWithout, BaselineRows, BaselineEvents, TableOf;
    BaselineRowsAreObjects(st.nextId, up.items);
    RowsWithoutMembers(st.rows, TableOf(st.snapshots, up.integration, up.table));
  }

  lemma UploadKeepsGoodLog(st: State, up: Upload)
    requires GoodLog(st) && up.source in st.sources && GoodItems(up.items)
    ensures GoodLog(Uploaded(st, up))
  {
    BaselineEventsAt(st.nextId + 1, st.nextId, up.items);
    var st' := Uploaded(st, up);
    var n := |st.log|;
    hide RowsWithout, BaselineRows, BaselineEvents, TableOf, CleanId;
    forall i | 0 <= i < |st'.log|
      ensures WellShaped(st'.log[i].action, st'.log[i].payload, LeftState(st'.log[i]))
      ensures st'.log[i].id < st'.nextId && CleanId(st'.log[i].entityId)
    {
      if i < n {
        assert st'.log[i] == st.log[i];
      } else {
        assert st'.log[i] == BaselineEvent(st.nextId + 1 + (i - n), st.nextId, up.items[i - n]);
      }
    }
    hide WellShaped;
  }

  lemma UploadKeeps(st: State, up: Upload)
    requires Kept(st) && up.source in st.sources && DistinctIds(up.items) && GoodItems(up.items) && InOrder(st, up)
    ensures Kept(Uploaded(st, up))
  {
    UploadKeepsLinked(st, up);
    UploadKeepsGoodLog(st, up);
    UploadKeepsObjects(st, up);
    NewSnapshotInSyncIff(st, up);
    var st' := Uploaded(st, up);
    assert st'.snapshots == st.snapshots[st.nextId := Snapshot(up.integration, up.table, up.now)];
    assert st.nextId !in st.snapshots;
    hide InSync, Linked, ObjectRows, GoodLog, Uploaded, DistinctIds, GoodItems;
    forall s | s in st'.snapshots ensures InSync(st', s) || Superseded(st', s) {
      if s != st.nextId {
        OldSnapshotInSync(st, up, s);
        if s in TableOf(st.snapshots, up.integration, up.table) {
          assert Later(st', st.nextId, s);
        } else if !InSync(st, s) {
          var s' :| s' in st.snapshots && Later(st, s', s);
          assert Later(st', s', s);
        }
      }
    }
  }

  /** The latest snapshots of the uploaded table show their replay. */
  ghost predicate TableInSync(st: State, integration: Id, table: string) {
    forall s :: s in st.snapshots && IsLatest(st.snapshots, integration, table, s) ==> InSync(st, s)
  }

  /**
    Nothing newer stays in the table, or what stays leaves nothing; and if the upload is newest, its
    ids are distinct.
   */
  ghost predicate UploadSafe(st: State, up: Upload) {
    && (forall s :: s in st.snapshots && IsLatest(st.snapshots, up.integration, up.table, s)
                    && up.now <= st.snapshots[s].createdAt ==>
          EmptyReplay(st, s))
    && ((forall s :: s in TableOf(st.snapshots, up.integration, up.table) ==> st.snapshots[s].createdAt <= up.now) ==>
          DistinctIds(up.items))
  }

  /**
    Exactly when an upload leaves the table's latest snapshot in sync: an upload
    that commits behind a newer snapshot wipes the rows of that snapshot, which
    stays the latest.
   */
  lemma UploadSafeIff(st: State, up: Upload)
    requires Kept(st) && up.source in st.sources
    ensures TableInSync(Uploaded(st, up), up.integration, up.table) <==> UploadSafe(st, up)
  {
    NewSnapshotInSyncIff(st, up);
    var st' := Uploaded(st, up);
    assert st'.snapshots == st.snapshots[st.nextId := Snapshot(up.integration, up.table, up.now)];
    assert st.nextId !in st.snapshots;
    hide InSync, Linked, ObjectRows, GoodLog, Uploaded, DistinctIds, EmptyReplay;
    assert forall s :: s in TableOf(st.snapshots, up.integration, up.table)
                       <==> s in st.snapshots && InTable(st.snapshots, up.integration, up.table, s);
    forall s | s in st.snapshots
      ensures IsLatest(st'.snapshots, up.integration, up.table, s)
         <==> IsLatest(st.snapshots, up.integration, up.table, s) && up.now <= st.snapshots[s].createdAt
      ensures IsLatest(st'.snapshots, up.integration, up.table, s) ==> (InSync(st', s) <==> EmptyReplay(st, s))
    {
      LatestAfterUpload(st, st', up, s);
      if IsLatest(st'.snapshots, up.integration, up.table, s) { OldSnapshotInSync(st, up, s); }
    }
    NewestAfterUpload(st, st', up);
  }

  lemma LatestAfterUpload(st: State, st': State, up: Upload, s: Id)
    requires st'.snapshots == st.snapshots[st.nextId := Snapshot(up.integration, up.table, up.now)]
    requires st.nextId !in st.snapshots && s in st.snapshots
    ensures IsLatest(st'.snapshots, up.integration, up.table, s)
       <==> IsLatest(st.snapshots, up.integration, up.table, s) && up.now <= st.snapshots[s].createdAt
  {
    assert InTable(st'.snapshots, up.integration, up.table, st.nextId);
    assert forall s' :: s' in st.snapshots ==>
             InTable(st'.snapshots, up.integration, up.table, s')
             == InTable(st.snapshots, up.integration, up.table, s');
  }

  lemma NewestAfterUpload(st: State, st': State, up: Upload)
    requires st'.snapshots == st.snapshots[st.nextId := Snapshot(up.integration, up.table, up.now)]
    requires st.nextId !in st.snapshots
    ensures IsLatest(st'.snapshots, up.integration, up.table, st.nextId)
       <==> forall s :: s in TableOf(st.snapshots, up.integration, up.table) ==> st.snapshots[s].createdAt <= up.now
  {
    assert forall s' :: s' in st.snapshots ==>
             InTable(st'.snapshots, up.integration, up.table, s')
             == InTable(st.snapshots, up.integration, up.table, s');
  }
}
