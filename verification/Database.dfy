/**
  The store as an object that its methods update in place: the statements of
  apps/api/internal/adapters/sqlite/store_data_sources.go, the transactions
  around them, and the operations of the services. Every transaction saves the
  tables first and puts them back on an error, as WithTx does
  (apps/api/internal/adapters/sqlite/store.go).
 */
module Database {
  import opened Wrappers
  import opened Payloads
  import opened EntityStore
  import opened ReplayInvariant
  import opened InterleavedRuns
  import opened Operations
  import opened FullRollback
  import opened RuntimeBatch
  import opened SequentialRuns
  import opened SourceLife
  import Text
  import Seqs

  /** A transaction succeeded with the stated result, or it failed with the stated error and nothing changed. */
  ghost predicate Transacted(result: Result<State, Error>, before: State, after: State, error: Option<Error>) {
    match result
    case Ok(st) => error.None? && after == st
    case Err(e) => error == Some(e) && after == before
  }

  /** An operation ran as Serve says, and left a good store if its input was sound. */
  ghost predicate Served(op: Op, before: State, error: Option<Error>, after: State) {
    Transacted(Serve(before, op), before, after, error) && (Sound(before, op) ==> Good(after))
  }

  lemma RowDataPrefix(rows: seq<Row>, n: nat, s: Id, e: string)
    requires n <= |rows|
    ensures RowData(rows[..n], s, e) <= RowData(rows, s, e)
  {
    hide RowData;
    RowDataAppend(rows[..n], rows[n..], s, e);
    assert rows[..n] + rows[n..] == rows;
  }

  lemma NothingApplied(st: State)
    ensures AppliedAll(st, []) == st
  {
  }

  lemma GoodParts(st: State)
    requires Good(st)
    ensures Kept(st) && DistinctTimes(st.snapshots) && UniqueSlugs(st.sources)
  {
    hide Kept, DistinctTimes, UniqueSlugs;
  }

  /** A batch that stops at a mutation fails as a whole. */
  lemma {:induction false} BatchStops(st: State, integration: Id, ms: seq<Mutation>, env: Env, scenario: string, n: nat)
    requires n <= |ms| && BatchOf(st, integration, ms[..n], env, scenario).Err?
    ensures BatchOf(st, integration, ms, env, scenario) == BatchOf(st, integration, ms[..n], env, scenario)
    decreases |ms|
  {
    hide Turn;
    if n == |ms| {
      assert ms[..n] == ms;
    } else {
      assert ms[..|ms| - 1][..n] == ms[..n];
      BatchStops(st, integration, ms[..|ms| - 1], env, scenario, n);
    }
  }

  /** The sources while those in `done` are recounted. */
  function PartlyCounted(st: State, counts: map<Id, Id>, done: set<Id>): map<Id, Source>
    requires done <= counts.Keys
  {
    map id | id in st.sources ::
      if id in done then st.sources[id].(recordCount := CountRows(st.rows, counts[id])) else st.sources[id]
  }

  // -------- parsed rows --------

  /** anyToString, and the digest that names a row without an id. */
  datatype Naming = Naming(text: Json -> string, digest: (map<string, Json>, nat) -> string)

  /** A digest is a hexadecimal number: neither blank nor with white space around it. */
  ghost predicate GoodNaming(naming: Naming) {
    forall row, index :: CleanId(naming.digest(row, index))
  }

  function RawIdOf(row: map<string, Json>, naming: Naming): string {
    Text.TrimSpace(naming.text(if "id" in row then row["id"] else Null))
  }

  /** resolveEntityID, and the row as it is stored: a row without an id gets the name it was given. */
  function ItemOf(row: map<string, Json>, index: nat, naming: Naming): Item {
    var rawId := RawIdOf(row, naming);
    if rawId != "" then Item(rawId, Obj(row))
    else Item(naming.digest(row, index), Obj(row["_entity_id" := Str(naming.digest(row, index))]))
  }

  function ItemsOf(rows: seq<map<string, Json>>, naming: Naming): (r: seq<Item>)
    ensures |r| == |rows| && forall i :: 0 <= i < |r| ==> r[i] == ItemOf(rows[i], i, naming)
  {
    seq(|rows|, i requires 0 <= i < |rows| => ItemOf(rows[i], i, naming))
  }

  lemma ItemsAreGood(rows: seq<map<string, Json>>, naming: Naming, items: seq<Item>)
    requires |items| == |rows| && forall i :: 0 <= i < |items| ==> items[i] == ItemOf(rows[i], i, naming)
    ensures GoodNaming(naming) ==> GoodItems(items)
  {
    forall i | 0 <= i < |items| && GoodNaming(naming) ensures items[i].data.Obj? && CleanId(items[i].entityId) {
      var row := rows[i];
      CleanIdFacts(naming.text(if "id" in row then row["id"] else Null));
      assert CleanId(naming.digest(row, i));
      hide CleanId, Text.TrimSpace, GoodNaming;
    }
  }

  /** The loop of UploadBaseline over the parsed rows. */
  method BuildItems(rows: seq<map<string, Json>>, naming: Naming) returns (items: seq<Item>)
    ensures items == ItemsOf(rows, naming)
    ensures GoodNaming(naming) ==> GoodItems(items)
    ensures |items| == |rows| && forall i :: 0 <= i < |rows| ==>
              var own := Text.TrimSpace(naming.text(if "id" in rows[i] then rows[i]["id"] else Null));
              var name := if own != "" then own else naming.digest(rows[i], i);
              items[i] == Item(name, Obj(if own != "" then rows[i] else rows[i]["_entity_id" := Str(name)]))
  {
    items := [];
    for i := 0 to |rows|
      invariant |items| == i && forall j :: 0 <= j < i ==> items[j] == ItemOf(rows[j], j, naming)
    {
      var row := rows[i];
      var e := RawIdOf(row, naming);
      if e == "" {
        e := naming.digest(row, i);
        row := row["_entity_id" := Str(e)];
      }
      items := items + [Item(e, Obj(row))];
    }
    assert GoodNaming(naming) ==> GoodItems(items) by { ItemsAreGood(rows, naming, items); }
  }

  class Store {
    var sources: map<Id, Source>
    var snapshots: map<Id, Snapshot>
    var log: seq<Event>
    var rows: seq<Row>
    var nextId: Id
    var traffic: seq<string>

    ghost function Contents(): State
      reads this
    {
      State(sources, snapshots, log, rows, nextId)
    }

    constructor ()
      ensures Contents() == EMPTY && traffic == []
    {
      sources, snapshots, log, rows, nextId, traffic := map[], map[], [], [], 0, [];
    }

    // -------- statements --------

    /** UpsertWorkingEntity: UPDATE, then INSERT if no row was affected. */
    method UpsertWorkingEntity(s: Id, e: string, data: Json) returns (ok: bool)
      modifies this`rows
      ensures ok <==> RowData(old(rows), s, e) != [] || s in snapshots
      ensures rows == if ok then UpsertRow(old(rows), s, e, data) else old(rows)
    {
      var updated: seq<Row> := [];
      var affected := 0;
      for i := 0 to |rows|
        invariant updated == ReplaceRows(rows[..i], s, e, data)
        invariant affected == |RowData(rows[..i], s, e)|
      {
        assert rows[..i + 1][..i] == rows[..i];
        assert ReplaceRows(rows[..i + 1], s, e, data)
               == ReplaceRows(rows[..i], s, e, data) + [ReplacedRow(rows[i], s, e, data)];
        if rows[i].snapshot == s && rows[i].entityId == e {
          updated := updated + [rows[i].(data := data)];
          affected := affected + 1;
        } else {
          updated := updated + [rows[i]];
        }
      }
      assert rows[..|rows|] == rows;
      if affected > 0 {
        rows := updated;
        return true;
      }
      if s !in snapshots {
        return false;
      }
      rows := rows + [Row(s, e, data)];
      return true;
    }

    /** DeleteWorkingEntity. */
    method DeleteWorkingEntity(s: Id, e: string)
      modifies this`rows
      ensures rows == DeleteRow(old(rows), s, e)
    {
      var kept: seq<Row> := [];
      for i := 0 to |rows|
        invariant rows == old(rows) && kept == DeleteRow(rows[..i], s, e)
      {
        assert rows[..i + 1][..i] == rows[..i];
        if !(rows[i].snapshot == s && rows[i].entityId == e) {
          kept := kept + [rows[i]];
        } else {
          Seqs.EmptyRight(kept);
        }
      }
      assert rows[..|rows|] == rows;
      rows := kept;
    }

    /** AppendEntityEvent, with a fresh event id. */
    method AppendEntityEvent(s: Id, e: string, action: Action, payload: Json) returns (ok: bool)
      modifies this`log, this`nextId
      ensures ok <==> s in snapshots
      ensures ok ==> log == old(log) + [Event(old(nextId), s, e, action, payload)] && nextId == old(nextId) + 1
      ensures !ok ==> log == old(log) && nextId == old(nextId)
    {
      if s !in snapshots {
        return false;
      }
      log := log + [Event(nextId, s, e, action, payload)];
      nextId := nextId + 1;
      return true;
    }

    /** CountWorkingEntities. */
    method CountWorkingEntities(s: Id) returns (n: nat)
      ensures n == CountRows(rows, s)
    {
      n := 0;
      for i := 0 to |rows|
        invariant n == CountRows(rows[..i], s)
      {
        assert rows[..i + 1][..i] == rows[..i];
        if rows[i].snapshot == s {
          n := n + 1;
        }
      }
      assert rows[..|rows|] == rows;
    }

    /** UpdateSyncStats. */
    method UpdateSyncStats(source: Id, n: nat) returns (error: Option<Error>)
      modifies this`sources
      ensures Transacted(SetCount(old(Contents()), source, n), old(Contents()), Contents(), error)
    {
      if source !in sources {
        return Some(NotFound);
      }
      sources := sources[source := sources[source].(recordCount := n)];
      return None;
    }

    /** FindWorkingEntity; null stands for "not found". */
    method FindWorkingEntity(s: Id, e: string) returns (r: Json)
      ensures r == CurrentState(Contents(), s, e)
    {
      for i := 0 to |rows|
        invariant RowData(rows[..i], s, e) == []
      {
        assert rows[..i + 1][..i] == rows[..i];
        if rows[i].snapshot == s && rows[i].entityId == e {
          RowDataPrefix(rows, i + 1, s, e);
          return rows[i].data;
        }
      }
      assert rows[..|rows|] == rows;
      return Null;
    }

    /** FindLatestSnapshotID, over the snapshots in any order. */
    method FindLatestSnapshotID(integration: Id, table: string) returns (r: Option<Id>)
      ensures if r.Some? then IsLatest(snapshots, integration, table, r.value)
              else TableOf(snapshots, integration, table) == {}
      ensures DistinctTimes(snapshots) ==> r == FindLatest(snapshots, integration, table)
    {
      r := None;
      var rest := snapshots.Keys;
      while rest != {}
        invariant rest <= snapshots.Keys
        invariant r.Some? ==> InTable(snapshots, integration, table, r.value)
        invariant forall s :: s in snapshots.Keys - rest && InTable(snapshots, integration, table, s) ==>
                    r.Some? && snapshots[s].createdAt <= snapshots[r.value].createdAt
      {
        hide DistinctTimes;
        var s :| s in rest;
        if InTable(snapshots, integration, table, s)
           && (r.None? || snapshots[r.value].createdAt < snapshots[s].createdAt) {
          r := Some(s);
        }
        rest := rest - {s};
      }
      hide DistinctTimes;
      if r.Some? {
        assert IsLatest(snapshots, integration, table, r.value);
        if DistinctTimes(snapshots) { FoundLatest(snapshots, integration, table, r.value); }
      } else {
        assert TableOf(snapshots, integration, table) == {};
        FindLatestIff(snapshots, integration, table);
      }
    }

    /** FindInitialSnapshotID. */
    method FindInitialSnapshotID(integration: Id, table: string) returns (r: Option<Id>)
      ensures if r.Some? then IsInitial(snapshots, integration, table, r.value)
              else TableOf(snapshots, integration, table) == {}
      ensures DistinctTimes(snapshots) ==> r == FindInitial(snapshots, integration, table)
    {
      r := None;
      var rest := snapshots.Keys;
      while rest != {}
        invariant rest <= snapshots.Keys
        invariant r.Some? ==> InTable(snapshots, integration, table, r.value)
        invariant forall s :: s in snapshots.Keys - rest && InTable(snapshots, integration, table, s) ==>
                    r.Some? && snapshots[r.value].createdAt <= snapshots[s].createdAt
      {
        hide DistinctTimes;
        var s :| s in rest;
        if InTable(snapshots, integration, table, s)
           && (r.None? || snapshots[s].createdAt < snapshots[r.value].createdAt) {
          r := Some(s);
        }
        rest := rest - {s};
      }
      hide DistinctTimes;
      if r.Some? {
        assert IsInitial(snapshots, integration, table, r.value);
        if DistinctTimes(snapshots) { FoundInitial(snapshots, integration, table, r.value); }
      } else {
        assert TableOf(snapshots, integration, table) == {};
        FindInitialIff(snapshots, integration, table);
      }
    }

    /** FindTimelineEvent. */
    method FindTimelineEvent(integration: Id, table: string, e: string, id: Id) returns (r: Option<Event>)
      ensures r == FindEvent(Contents(), log, integration, table, e, id)
    {
      r := None;
      for i := 0 to |log|
        invariant r == FindEvent(Contents(), log[..i], integration, table, e, id)
      {
        assert log[..i + 1][..i] == log[..i];
        if log[i].id == id && InTable(snapshots, integration, table, log[i].snapshot) && log[i].entityId == e {
          r := Some(log[i]);
        }
      }
      assert log[..|log|] == log;
    }

    /** FindByIntegrationAndSlug. */
    method FindByIntegrationAndSlug(integration: Id, slug: string) returns (r: Option<Id>)
      requires UniqueSlugs(sources)
      ensures r == FindSource(sources, integration, slug)
    {
      if id :| id in sources && sources[id].integration == integration && sources[id].slug == slug {
        return Some(id);
      }
      return None;
    }

    // -------- transactions --------

    /** One row write and its event. */
    method ApplyWrite(w: Write) returns (ok: bool)
      modifies this`rows, this`log, this`nextId
      ensures ok <==> w.snapshot in snapshots
      ensures ok ==> Contents() == Applied(old(Contents()), w)
    {
      match w.change.data {
        case Some(data) =>
          ok := UpsertWorkingEntity(w.snapshot, w.change.entityId, data);
          if !ok {
            return;
          }
        case None =>
          DeleteWorkingEntity(w.snapshot, w.change.entityId);
      }
      ok := AppendEntityEvent(w.snapshot, w.change.entityId, w.change.action, w.change.payload);
    }

    /** The recounts at the end of a transaction, in any order. */
    method Recount(counts: map<Id, Id>) returns (error: Option<Error>)
      modifies this`sources
      ensures error == if counts.Keys <= old(sources).Keys then None else Some(NotFound)
      ensures error.None? ==> Contents() == CountedAll(old(Contents()), counts)
    {
      ghost var before := Contents();
      ghost var done: set<Id> := {};
      var rest := counts.Keys;
      assert sources == PartlyCounted(before, counts, done);
      while rest != {}
        invariant rest <= counts.Keys && done == counts.Keys - rest && done <= before.sources.Keys
        invariant sources == PartlyCounted(before, counts, done)
      {
        hide CountRows;
        var id :| id in rest;
        var n := CountWorkingEntities(counts[id]);
        var stats := UpdateSyncStats(id, n);
        if stats.Some? {
          return stats;
        }
        done := done + {id};
        rest := rest - {id};
        assert sources == PartlyCounted(before, counts, done);
      }
      assert done == counts.Keys;
      return None;
    }

    /** Carrying out a plan, whatever the store has become since the plan was made. */
    method CommitPlan(plan: Plan) returns (error: Option<Error>)
      modifies this`sources, this`log, this`rows, this`nextId
      ensures Transacted(Commit(old(Contents()), plan), old(Contents()), Contents(), error)
    {
      hide Applied;
      var sources', log', rows', nextId' := sources, log, rows, nextId;
      ghost var before := Contents();
      for i := 0 to |plan.writes|
        invariant Contents() == AppliedAll(before, plan.writes[..i])
        invariant forall w :: w in plan.writes[..i] ==> w.snapshot in snapshots
      {
        assert plan.writes[..i + 1] == plan.writes[..i] + [plan.writes[i]];
        var ok := ApplyWrite(plan.writes[i]);
        if !ok {
          assert plan.writes[i] in plan.writes;
          sources, log, rows, nextId := sources', log', rows', nextId';
          return Some(Constraint);
        }
      }
      assert plan.writes[..|plan.writes|] == plan.writes;
      error := Recount(plan.counts);
      if error.Some? {
        sources, log, rows, nextId := sources', log', rows', nextId';
      }
    }

    /** The two insert loops of ReplaceBaseline. */
    method InsertBaseline(s: Id, items: seq<Item>)
      modifies this`rows, this`log
      ensures rows == old(rows) + BaselineRows(s, items)
      ensures log == old(log) + BaselineEvents(s + 1, s, items)
    {
      for i := 0 to |items|
        invariant rows == old(rows) + BaselineRows(s, items[..i]) && log == old(log)
      {
        assert items[..i + 1][..i] == items[..i];
        var row := Row(s, items[i].entityId, items[i].data);
        Seqs.Assoc(old(rows), BaselineRows(s, items[..i]), [row]);
        rows := rows + [row];
      }
      assert items[..|items|] == items;
      for i := 0 to |items|
        invariant log == old(log) + BaselineEvents(s + 1, s, items[..i]) && rows == old(rows) + BaselineRows(s, items)
      {
        assert items[..i + 1][..i] == items[..i];
        var event := Event(s + 1 + i, s, items[i].entityId, BaselineImport, items[i].data);
        Seqs.Assoc(old(log), BaselineEvents(s + 1, s, items[..i]), [event]);
        log := log + [event];
      }
    }

    /** ReplaceBaseline: wipe the rows of the table, insert the snapshot, its rows and its events, update the source. */
    method ReplaceBaseline(up: Upload) returns (error: Option<Error>)
      modifies this`sources, this`snapshots, this`log, this`rows, this`nextId
      ensures Transacted(CommitUpload(old(Contents()), up), old(Contents()), Contents(), error)
    {
      hide RowsWithout, BaselineRows, BaselineEvents, TableOf;
      var sources', snapshots', log', rows', nextId' := sources, snapshots, log, rows, nextId;
      WipeRows(TableOf(snapshots, up.integration, up.table));
      snapshots := snapshots[nextId := Snapshot(up.integration, up.table, up.now)];
      InsertBaseline(nextId, up.items);
      nextId := nextId + 1 + |up.items|;
      if up.source !in sources {
        sources, snapshots, log, rows, nextId := sources', snapshots', log', rows', nextId';
        return Some(NotFound);
      }
      sources := sources[up.source := sources[up.source].(recordCount := |up.items|)];
      return None;
    }

    /** DELETE FROM working_datasets WHERE snapshot_id IN ids. */
    method WipeRows(ids: set<Id>)
      modifies this`rows
      ensures rows == RowsWithout(old(rows), ids)
    {
      var kept: seq<Row> := [];
      for i := 0 to |rows|
        invariant rows == old(rows) && kept == RowsWithout(rows[..i], ids)
      {
        assert rows[..i + 1][..i] == rows[..i];
        if rows[i].snapshot !in ids {
          kept := kept + [rows[i]];
        } else {
          Seqs.EmptyRight(kept);
        }
      }
      assert rows[..|rows|] == rows;
      rows := kept;
    }

    /** DELETE FROM events WHERE snapshot_id IN ids. */
    method WipeEvents(ids: set<Id>)
      modifies this`log
      ensures log == LogWithout(old(log), ids)
    {
      var kept: seq<Event> := [];
      for i := 0 to |log|
        invariant log == old(log) && kept == LogWithout(log[..i], ids)
      {
        assert log[..i + 1][..i] == log[..i];
        if log[i].snapshot !in ids {
          kept := kept + [log[i]];
        } else {
          Seqs.EmptyRight(kept);
        }
      }
      assert log[..|log|] == log;
      log := kept;
    }

    /** Create. */
    method Create(integration: Id, slug: string) returns (error: Option<Error>)
      modifies this`sources, this`nextId
      ensures Transacted(CreateSource(old(Contents()), integration, slug), old(Contents()), Contents(), error)
    {
      if id :| id in sources && sources[id].integration == integration && sources[id].slug == slug {
        return Some(AlreadyExists);
      }
      sources := sources[nextId := Source(integration, slug, 0)];
      nextId := nextId + 1;
      return None;
    }

    /** Update: a new slug for the source and for its snapshots. */
    method Update(source: Id, integration: Id, slug: string) returns (error: Option<Error>)
      modifies this`sources, this`snapshots
      ensures Transacted(RenameSource(old(Contents()), source, integration, slug), old(Contents()), Contents(), error)
    {
      if source !in sources || sources[source].integration != integration {
        return Some(NotFound);
      }
      if id :| id in sources && id != source && sources[id].integration == integration && sources[id].slug == slug {
        return Some(AlreadyExists);
      }
      var current := sources[source].slug;
      assert !SlugTaken(Contents(), integration, slug, Some(source));
      sources := sources[source := sources[source].(slug := slug)];
      if current == slug {
        assert snapshots == Retabled(old(Contents()), integration, current, slug);
        return None;
      }
      snapshots := map s | s in snapshots ::
                     if InTable(snapshots, integration, current, s) then snapshots[s].(table := slug) else snapshots[s];
      return None;
    }

    /** Delete of the repository, with the slug its caller passes. */
    method Delete(source: Id, integration: Id, slug: string) returns (error: Option<Error>)
      modifies this`sources, this`snapshots, this`log, this`rows
      ensures Transacted(DeleteSource(old(Contents()), source, integration, slug), old(Contents()), Contents(), error)
    {
      var sources', snapshots', log', rows' := sources, snapshots, log, rows;
      var ids := TableOf(snapshots, integration, slug);
      WipeRows(ids);
      WipeEvents(ids);
      snapshots := map s | s in snapshots && s !in ids :: snapshots[s];
      if source !in sources || sources[source].integration != integration {
        sources, snapshots, log, rows := sources', snapshots', log', rows';
        return Some(NotFound);
      }
      sources := map id | id in sources && id != source :: sources[id];
      return None;
    }

    // -------- services --------

    ghost predicate Valid()
      reads this
    {
      Good(Contents())
    }

    /** resolveSourceAndSnapshot. */
    method ResolveSnapshot(integration: Id, source: Id) returns (r: Option<Id>)
      requires DistinctTimes(snapshots)
      ensures r == ActiveSnapshot(Contents(), integration, source)
    {
      if source !in sources || sources[source].integration != integration {
        return None;
      }
      r := FindLatestSnapshotID(integration, sources[source].slug);
    }

    /** CreateEntity. */
    method CreateEntity(integration: Id, source: Id, rawId: string, payload: Option<map<string, Json>>)
      returns (error: Option<Error>)
      requires Valid()
      modifies this`sources, this`log, this`rows, this`nextId
      ensures Served(Op.CreateEntity(integration, source, rawId, payload), old(Contents()), error, Contents())
    {
      ghost var before := Contents();
      ghost var op := Op.CreateEntity(integration, source, rawId, payload);
      ServeKeepsGood(before, op);
      hide Good, Kept, Commit;
      var e := Text.TrimSpace(rawId);
      if e == "" || payload.None? {
        return Some(InvalidInput);
      }
      var active := ResolveSnapshot(integration, source);
      if active.None? {
        return Some(NotFound);
      }
      var data := Obj(payload.value);
      var plan := Plan([Write(active.value, Change(e, Some(data), EntityUpsert, data))], map[source := active.value]);
      assert PlanCreate(before, integration, source, rawId, payload) == Ok(plan);
      error := CommitPlan(plan);
    }

    /** RollbackEntity. */
    method RollbackEntity(integration: Id, source: Id, rawId: string, eventId: Id) returns (error: Option<Error>)
      requires Valid()
      modifies this`sources, this`log, this`rows, this`nextId
      ensures Served(Op.RollbackEntity(integration, source, rawId, eventId), old(Contents()), error, Contents())
    {
      ghost var before := Contents();
      ServeKeepsGood(before, Op.RollbackEntity(integration, source, rawId, eventId));
      hide Good, Kept, Commit, FindEvent, CurrentState, PickTargetState;
      var e := Text.TrimSpace(rawId);
      if e == "" {
        return Some(InvalidInput);
      }
      var active := ResolveSnapshot(integration, source);
      if active.None? {
        return Some(NotFound);
      }
      var event := FindTimelineEvent(integration, sources[source].slug, e, eventId);
      if event.None? {
        return Some(NotFound);
      }
      var target := ResolveTargetState(event.value.payload);
      if target.None? {
        return Some(Semantic);
      }
      var current := FindWorkingEntity(active.value, e);
      var payload := CompensationPayload(current, target.value, event.value.id);
      if payload.None? {
        return Some(Semantic);
      }
      var w := Write(active.value, Change(e, target, RollbackCompensation, payload.value));
      assert RollbackWrite(active.value, e, event.value, current) == Some(w);
      error := CommitPlan(Plan([w], map[source := active.value]));
    }

    /** currentByEntity. */
    method CurrentByEntity(s: Id) returns (m: map<string, Json>)
      ensures m == CurrentMap(rows, s)
    {
      m := map[];
      for i := 0 to |rows|
        invariant m == CurrentMap(rows[..i], s)
      {
        assert rows[..i + 1][..i] == rows[..i];
        if rows[i].snapshot == s {
          m := m[rows[i].entityId := rows[i].data];
        }
      }
      assert rows[..|rows|] == rows;
    }

    /** baselineByEntity. */
    method BaselineByEntity(s: Id) returns (m: map<string, Json>)
      ensures m == BaselineMap(log, s)
    {
      m := map[];
      for i := 0 to |log|
        invariant m == BaselineMap(log[..i], s)
      {
        assert log[..i + 1][..i] == log[..i];
        if IsBaselineOf(log[i], s) {
          m := m[log[i].entityId := log[i].payload];
        }
      }
      assert log[..|log|] == log;
    }

    /** The reads of RollbackComplete. */
    method ReadRollback(integration: Id, source: Id) returns (r: Result<Reading, Error>)
      requires DistinctTimes(snapshots)
      ensures r == ReadForRollback(Contents(), integration, source)
    {
      var active := ResolveSnapshot(integration, source);
      if active.None? {
        return Err(NotFound);
      }
      var initial := FindInitialSnapshotID(integration, sources[source].slug);
      if initial.None? {
        return Err(NotFound);
      }
      var baseline := BaselineByEntity(initial.value);
      if baseline == map[] {
        return Err(NotFound);
      }
      var current := CurrentByEntity(active.value);
      return Ok(Reading(active.value, initial.value, current, baseline));
    }

    /** RollbackComplete: the reported numbers of upserted and removed entities and of compensation events. */
    method RollbackComplete(integration: Id, source: Id)
      returns (error: Option<Error>, upserted: nat, removed: nat, compensationEvents: nat, ghost o: Orders)
      requires Valid()
      modifies this`sources, this`log, this`rows, this`nextId
      ensures Served(Op.RollbackComplete(integration, source, o), old(Contents()), error, Contents())
      ensures var read := ReadForRollback(old(Contents()), integration, source);
              read.Ok? ==> OrdersFor(o, read.value) && error.None?
      ensures error.None? ==> upserted == |o.upserts| && removed == |o.removes|
      ensures error.None? ==> compensationEvents == upserted + removed && |log| == |old(log)| + compensationEvents
    {
      ghost var before := Contents();
      assert Kept(before);
      hide Good, Kept, ReadForRollback, OrdersFor;
      o := Orders([], []);
      upserted, removed, compensationEvents := 0, 0, 0;
      var read := ReadRollback(integration, source);
      if read.Err? {
        ServeKeepsGood(before, Op.RollbackComplete(integration, source, o));
        return Some(read.error), 0, 0, 0, o;
      }
      ReadingIsGood(before, integration, source);
      var upserts, upsertOrder := PlanUpserts(read.value);
      var removes, removeOrder := PlanRemoves(read.value);
      o := Orders(upsertOrder, removeOrder);
      assert OrdersFor(o, read.value);
      ServeKeepsGood(before, Op.RollbackComplete(integration, source, o));
      ghost var plan := PlanFull(read.value, o, source);
      assert plan.writes == upserts + removes;
      FullRollbackRestores(before, integration, source, o);
      hide Commit, FullWrites;
      error := CommitPlan(Plan(upserts + removes, map[source := read.value.snapshot]));
      upserted, removed := |upserts|, |removes|;
      compensationEvents := |upserts| + |removes|;
    }

    /** The loop over baselineByEntity. */
    method PlanUpserts(r: Reading) returns (writes: seq<Write>, order: seq<string>)
      requires GoodReading(r)
      ensures Enumerates(order, Differing(r.current, r.baseline))
      ensures forall e :: e in order ==> e in r.baseline
      ensures writes == UpsertWrites(r.snapshot, r.initial, r.current, r.baseline, order)
    {
      hide UpsertWrite;
      writes, order := [], [];
      var rest := r.baseline.Keys;
      while rest != {}
        invariant rest <= r.baseline.Keys
        invariant forall e :: e in order <==> e in Differing(r.current, r.baseline) && e !in rest
        invariant forall i, j :: 0 <= i < j < |order| ==> order[i] != order[j]
        invariant |writes| == |order|
        invariant forall i :: 0 <= i < |order| ==>
                    order[i] in r.baseline
                    && writes[i] == UpsertWrite(r.snapshot, r.initial, r.current, r.baseline, order[i])
      {
        var e :| e in rest;
        rest := rest - {e};
        if e !in r.current || r.current[e] != r.baseline[e] {
          writes := writes + [UpsertWrite(r.snapshot, r.initial, r.current, r.baseline, e)];
          order := order + [e];
        }
      }
    }

    /** The loop over currentByEntity. */
    method PlanRemoves(r: Reading) returns (writes: seq<Write>, order: seq<string>)
      requires GoodReading(r)
      ensures Enumerates(order, Surplus(r.current, r.baseline))
      ensures writes == RemoveWrites(r.snapshot, r.initial, r.current, order)
    {
      hide RemoveWrite;
      writes, order := [], [];
      var rest := r.current.Keys;
      while rest != {}
        invariant rest <= r.current.Keys
        invariant forall e :: e in order <==> e in Surplus(r.current, r.baseline) && e !in rest
        invariant forall i, j :: 0 <= i < j < |order| ==> order[i] != order[j]
        invariant |writes| == |order|
        invariant forall i :: 0 <= i < |order| ==> writes[i] == RemoveWrite(r.snapshot, r.initial, r.current, order[i])
      {
        var e :| e in rest;
        rest := rest - {e};
        if e !in r.baseline {
          writes := writes + [RemoveWrite(r.snapshot, r.initial, r.current, e)];
          order := order + [e];
        }
      }
    }

    /** The checks of one mutation. */
    method ResolveMutation(integration: Id, m: Mutation, env: Env) returns (r: Result<Target, Error>)
      requires DistinctTimes(snapshots) && UniqueSlugs(sources)
      ensures r == Resolve(Contents(), integration, m, env)
    {
      var kind, slug := KindOf(m), SlugOf(m);
      if kind == "" || slug == "" {
        return Err(Semantic);
      }
      var source := FindByIntegrationAndSlug(integration, slug);
      if source.None? {
        return Err(NotFound);
      }
      var s := FindLatestSnapshotID(integration, slug);
      if s.None? {
        return Err(NotFound);
      }
      return ResolveEntity(source.value, s.value, m, env);
    }

    /** One turn of applyRuntimeMutations, on the rows the turns before it left. */
    method ApplyMutation(integration: Id, m: Mutation, env: Env, scenario: string, ghost before: State, ghost b: Batch,
                         touched: map<Id, Id>)
      returns (error: Option<Error>, touched': map<Id, Id>, ghost b': Batch)
      requires DistinctTimes(snapshots) && UniqueSlugs(sources)
      requires Contents() == AppliedAll(before, b.writes) && touched == b.touched
      modifies this`log, this`rows, this`nextId
      ensures match Turn(before, integration, b, m, env, scenario)
              case Err(e) => error == Some(e)
              case Ok(next) =>
                error.None? && b' == next && touched' == next.touched && Contents() == AppliedAll(before, next.writes)
    {
      hide Resolve, Applied, KindOf, CurrentState, RuntimePayload, IsLatest;
      touched', b' := touched, b;
      ResolveIsFixed(before, b.writes, integration, m, env);
      var target := ResolveMutation(integration, m, env);
      if target.Err? {
        return Some(target.error), touched, b;
      }
      var t := target.value;
      var current := FindWorkingEntity(t.snapshot, t.entityId);
      var payload := RuntimePayload(current, AsJson(t.data), KindOf(m), Text.TrimSpace(scenario));
      if payload.None? {
        return Some(Semantic), touched, b;
      }
      var w := Write(t.snapshot, Change(t.entityId, t.data, ActionOf(t), payload.value));
      ResolvedTarget(before, integration, m, env);
      assert t.snapshot in snapshots;
      var ok := ApplyWrite(w);
      touched' := touched[t.source := t.snapshot];
      b' := Batch(b.writes + [w], touched');
      assert (b.writes + [w])[..|b.writes|] == b.writes;
      return None, touched', b';
    }

    /** The loop of applyRuntimeMutations. After an error the tables are whatever the turns so far left. */
    method ApplyMutations(integration: Id, mutations: seq<Mutation>, env: Env, scenario: string)
      returns (error: Option<Error>, touched: map<Id, Id>)
      requires Kept(Contents()) && DistinctTimes(snapshots) && UniqueSlugs(sources)
      modifies this`log, this`rows, this`nextId
      ensures match BatchOf(old(Contents()), integration, mutations, env, scenario)
              case Err(e) => error == Some(e)
              case Ok(b) => error.None? && touched == b.touched && Contents() == AppliedAll(old(Contents()), b.writes)
    {
      hide Kept, Turn, AppliedAll, DistinctTimes, UniqueSlugs;
      ghost var before := Contents();
      touched := map[];
      ghost var b := Batch([], map[]);
      assert Contents() == AppliedAll(before, []) by { NothingApplied(before); }
      for i := 0 to |mutations|
        invariant BatchOf(before, integration, mutations[..i], env, scenario) == Ok(b)
        invariant touched == b.touched && Contents() == AppliedAll(before, b.writes)
        invariant snapshots == before.snapshots && sources == before.sources
      {
        assert mutations[..i + 1][..i] == mutations[..i];
        ghost var next;
        error, touched, next := ApplyMutation(integration, mutations[i], env, scenario, before, b, touched);
        if error.Some? {
          BatchStops(before, integration, mutations, env, scenario, i + 1);
          return;
        }
        b := next;
      }
      assert mutations[..|mutations|] == mutations;
      return None, touched;
    }

    /**
      The transaction of Execute: the mutations in order, the recounts, and the
      insertion of the traffic record, which the table may refuse. A failure of
      either half undoes all of it; that of a mutation is the one reported.
     */
    method Execute(integration: Id, mutations: seq<Mutation>, env: Env, scenario: string, record: Result<string, Error>)
      returns (error: Option<Error>)
      requires Valid()
      modifies this`sources, this`log, this`rows, this`nextId, this`traffic
      ensures var op := Op.Execute(integration, mutations, env, scenario);
              if Serve(old(Contents()), op).Err? || record.Ok? then Served(op, old(Contents()), error, Contents())
              else error == Some(record.error) && Contents() == old(Contents())
      ensures traffic == if error.None? then old(traffic) + [record.value] else old(traffic)
      ensures error.None? ==> record.Ok?
    {
      ghost var before := Contents();
      ServeKeepsGood(before, Op.Execute(integration, mutations, env, scenario));
      hide Good, Kept, BatchOf, AppliedAll, KnownSnapshots, DistinctTimes, UniqueSlugs, CountedAll;
      assert Kept(before) && DistinctTimes(snapshots) && UniqueSlugs(sources) by { GoodParts(before); }
      var sources', log', rows', nextId' := sources, log, rows, nextId;
      var touched;
      error, touched := ApplyMutations(integration, mutations, env, scenario);
      if error.Some? {
        log, rows, nextId := log', rows', nextId';
        return;
      }
      BatchCommits(before, integration, mutations, env, scenario,
                   BatchOf(before, integration, mutations, env, scenario).value);
      error := Recount(touched);
      assert error.None?;
      if record.Err? {
        sources, log, rows, nextId := sources', log', rows', nextId';
        return Some(record.error);
      }
      traffic := traffic + [record.value];
    }

    /** UploadBaseline after parsing. */
    method UploadBaseline(source: Id, integration: Id, now: int, parsed: seq<map<string, Json>>, naming: Naming)
      returns (error: Option<Error>)
      requires Valid()
      modifies this`sources, this`snapshots, this`log, this`rows, this`nextId
      ensures Served(Op.UploadBaseline(source, integration, now, ItemsOf(parsed, naming)), old(Contents()), error,
                     Contents())
    {
      ghost var before := Contents();
      ghost var op := Op.UploadBaseline(source, integration, now, ItemsOf(parsed, naming));
      if Sound(before, op) { ServeKeepsGood(before, op); }
      hide Good, Kept, Sound, Uploaded, ItemsOf;
      if source !in sources || sources[source].integration != integration {
        return Some(NotFound);
      }
      var items := BuildItems(parsed, naming);
      error := ReplaceBaseline(Upload(source, integration, sources[source].slug, now, items));
    }

    /** Update of the service. */
    method RenameDataSource(source: Id, integration: Id, slug: string) returns (error: Option<Error>)
      requires Valid()
      modifies this`sources, this`snapshots
      ensures Served(Op.Rename(source, integration, slug), old(Contents()), error, Contents())
    {
      ServeKeepsGood(Contents(), Op.Rename(source, integration, slug));
      hide Good, Kept, RenameSource;
      error := Update(source, integration, slug);
    }

    /** Delete of the service, with nothing between its read of the slug and its transaction. */
    method DeleteDataSource(source: Id, integration: Id) returns (error: Option<Error>)
      requires Valid()
      modifies this`sources, this`snapshots, this`log, this`rows
      ensures Served(Op.Delete(source, integration), old(Contents()), error, Contents())
    {
      ServeKeepsGood(Contents(), Op.Delete(source, integration));
      hide Good, Kept, DeleteSource;
      if source !in sources || sources[source].integration != integration {
        return Some(NotFound);
      }
      error := Delete(source, integration, sources[source].slug);
    }

    /** SyncNow: the count is read, and then written. */
    method SyncNow(integration: Id, source: Id) returns (error: Option<Error>)
      requires Valid()
      modifies this`sources
      ensures Served(Op.Sync(integration, source), old(Contents()), error, Contents())
      ensures error.None? ==> Contents() == old(Contents())
    {
      ServeKeepsGood(Contents(), Op.Sync(integration, source));
      if HasSource(Contents(), integration, source) { SyncChangesNothing(Contents(), integration, source); }
      assert DistinctTimes(snapshots);
      hide Good, Kept, CountRows, FindLatest;
      if source !in sources || sources[source].integration != integration {
        return Some(NotFound);
      }
      var active := ResolveSnapshot(integration, source);
      var n := 0;
      if active.Some? {
        n := CountWorkingEntities(active.value);
      }
      error := UpdateSyncStats(source, n);
    }
  }
}
