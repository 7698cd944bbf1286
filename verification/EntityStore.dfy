/**
  The event-sourced entity store: sources, immutable snapshots, an append-only
  event log and the working rows
  (apps/api/internal/adapters/sqlite/store_data_sources.go and the tables of
  db/migrations). This file says what the stored state is, what each statement
  does to it, and what it means to replay the log.
 */
module EntityStore {
  import opened Wrappers
  import opened Payloads
  import Seqs
  import Text

  type Id = nat

  /** Entity ids are trimmed before anything else is done with them, and blank ones refused. */
  predicate CleanId(e: string) {
    e != "" && Text.Trimmed(e)
  }

  /** Trimming a clean id again changes nothing, and trimming any text gives a clean id or nothing. */
  lemma CleanIdFacts(e: string)
    ensures CleanId(e) ==> Text.TrimSpace(e) == e
    ensures Text.TrimSpace(e) != "" ==> CleanId(Text.TrimSpace(e))
  {
    Text.TrimSpaceFacts(e);
    if CleanId(e) { Text.TrimmedIsFixed(e); }
  }

  datatype Error = InvalidInput | NotFound | AlreadyExists | Semantic | Constraint

  datatype Action =
    | BaselineImport
    | EntityUpsert
    | RuntimeUpsert
    | RuntimeDelete
    | RollbackCompensation
    | RollbackDeleteCompensation

  datatype Source = Source(integration: Id, slug: string, recordCount: nat)

  datatype Snapshot = Snapshot(integration: Id, table: string, createdAt: int)

  datatype Event = Event(id: Id, snapshot: Id, entityId: string, action: Action, payload: Json)

  datatype Row = Row(snapshot: Id, entityId: string, data: Json)

  /** nextId stands for uuid.NewString: ids below it may be in use, it and those above are fresh. */
  datatype State = State(sources: map<Id, Source>, snapshots: map<Id, Snapshot>, log: seq<Event>, rows: seq<Row>,
                         nextId: Id)

  // -------- working rows --------

  function IfRow(row: Row, s: Id, e: string): seq<Json> {
    if row.snapshot == s && row.entityId == e then [row.data] else []
  }

  /** What the rows hold for one entity of one snapshot: no table constraint keeps this to one value. */
  function RowData(rows: seq<Row>, s: Id, e: string): seq<Json> {
    if rows == [] then [] else RowData(rows[..|rows| - 1], s, e) + IfRow(rows[|rows| - 1], s, e)
  }

  /** CountWorkingEntities. */
  function CountRows(rows: seq<Row>, s: Id): nat {
    if rows == [] then 0 else CountRows(rows[..|rows| - 1], s) + if rows[|rows| - 1].snapshot == s then 1 else 0
  }

  function ReplacedRow(row: Row, s: Id, e: string, data: Json): Row {
    if row.snapshot == s && row.entityId == e then row.(data := data) else row
  }

  /** UPDATE working_datasets SET current_data_json = data for one entity. */
  function ReplaceRows(rows: seq<Row>, s: Id, e: string, data: Json): (r: seq<Row>)
    ensures |r| == |rows|
    ensures forall i :: 0 <= i < |r| ==> r[i] == ReplacedRow(rows[i], s, e, data)
  {
    seq(|rows|, i requires 0 <= i < |rows| => ReplacedRow(rows[i], s, e, data))
  }

  /** UpsertWorkingEntity: update what is there, insert if nothing was. */
  function UpsertRow(rows: seq<Row>, s: Id, e: string, data: Json): seq<Row> {
    if RowData(rows, s, e) != [] then ReplaceRows(rows, s, e, data) else rows + [Row(s, e, data)]
  }

  /** DeleteWorkingEntity. */
  function DeleteRow(rows: seq<Row>, s: Id, e: string): seq<Row> {
    if rows == [] then []
    else
      DeleteRow(rows[..|rows| - 1], s, e)
      + if rows[|rows| - 1].snapshot == s && rows[|rows| - 1].entityId == e then [] else [rows[|rows| - 1]]
  }

  /** The rows of other snapshots. */
  function RowsWithout(rows: seq<Row>, ids: set<Id>): seq<Row> {
    if rows == [] then []
    else RowsWithout(rows[..|rows| - 1], ids) + if rows[|rows| - 1].snapshot in ids then [] else [rows[|rows| - 1]]
  }

  lemma {:induction false} RowDataAppend(a: seq<Row>, b: seq<Row>, s: Id, e: string)
    ensures RowData(a + b, s, e) == RowData(a, s, e) + RowData(b, s, e)
    ensures CountRows(a + b, s) == CountRows(a, s) + CountRows(b, s)
  {
    if b == [] {
      Seqs.EmptyRight(a);
      Seqs.EmptyRight(RowData(a, s, e));
    } else {
      var front, last := b[..|b| - 1], b[|b| - 1];
      assert (a + b)[..|a + b| - 1] == a + front;
      RowDataAppend(a, front, s, e);
      Seqs.Assoc(RowData(a, s, e), RowData(front, s, e), IfRow(last, s, e));
    }
  }

  lemma OneRow(row: Row, s: Id, e: string)
    ensures RowData([row], s, e) == IfRow(row, s, e)
    ensures CountRows([row], s) == if row.snapshot == s then 1 else 0
  {
    assert [row][..0] == [];
  }

  function Repeat(data: Json, n: nat): (r: seq<Json>)
    ensures |r| == n && forall i :: 0 <= i < n ==> r[i] == data
  {
    seq(n, i => data)
  }

  lemma RepeatGrows(data: Json, n: nat)
    ensures Repeat(data, n + 1) == Repeat(data, n) + [data]
  {
  }

  lemma {:induction false} RowDataReplace(rows: seq<Row>, s: Id, e: string, data: Json, s': Id, e': string)
    ensures RowData(ReplaceRows(rows, s, e, data), s', e')
         == if s' == s && e' == e then Repeat(data, |RowData(rows, s, e)|) else RowData(rows, s', e')
    ensures CountRows(ReplaceRows(rows, s, e, data), s') == CountRows(rows, s')
  {
    if rows != [] {
      var front, last := rows[..|rows| - 1], rows[|rows| - 1];
      var r := ReplaceRows(rows, s, e, data);
      assert r[..|r| - 1] == ReplaceRows(front, s, e, data) && r[|r| - 1] == ReplacedRow(last, s, e, data);
      RowDataReplace(front, s, e, data, s', e');
      hide ReplaceRows;
      if s' == s && e' == e {
        RepeatGrows(data, |RowData(front, s, e)|);
        Seqs.EmptyRight(Repeat(data, |RowData(front, s, e)|));
      }
    }
  }

  lemma RowDataUpsert(rows: seq<Row>, s: Id, e: string, data: Json, s': Id, e': string)
    ensures s' != s || e' != e ==> RowData(UpsertRow(rows, s, e, data), s', e') == RowData(rows, s', e')
    ensures |RowData(rows, s, e)| <= 1 ==> RowData(UpsertRow(rows, s, e, data), s, e) == [data]
    ensures s' != s ==> CountRows(UpsertRow(rows, s, e, data), s') == CountRows(rows, s')
  {
    RowDataReplace(rows, s, e, data, s', e');
    RowDataReplace(rows, s, e, data, s, e);
    var row := Row(s, e, data);
    RowDataAppend(rows, [row], s', e');
    RowDataAppend(rows, [row], s, e);
    OneRow(row, s', e');
    OneRow(row, s, e);
    hide RowData, CountRows;
  }

  lemma {:induction false} RowDataDelete(rows: seq<Row>, s: Id, e: string, s': Id, e': string)
    ensures RowData(DeleteRow(rows, s, e), s', e') == if s' == s && e' == e then [] else RowData(rows, s', e')
    ensures s' != s ==> CountRows(DeleteRow(rows, s, e), s') == CountRows(rows, s')
  {
    if rows != [] {
      var front, last := rows[..|rows| - 1], rows[|rows| - 1];
      RowDataDelete(front, s, e, s', e');
      if !(last.snapshot == s && last.entityId == e) {
        RowDataAppend(DeleteRow(front, s, e), [last], s', e');
        OneRow(last, s', e');
      } else {
        Seqs.EmptyRight(DeleteRow(front, s, e));
      }
    }
  }

  lemma {:induction false} RowDataWithout(rows: seq<Row>, ids: set<Id>, s: Id, e: string)
    ensures RowData(RowsWithout(rows, ids), s, e) == if s in ids then [] else RowData(rows, s, e)
    ensures CountRows(RowsWithout(rows, ids), s) == if s in ids then 0 else CountRows(rows, s)
  {
    if rows != [] {
      var front, last := rows[..|rows| - 1], rows[|rows| - 1];
      RowDataWithout(front, ids, s, e);
      if last.snapshot in ids {
        Seqs.EmptyRight(RowsWithout(front, ids));
      } else {
        RowDataAppend(RowsWithout(front, ids), [last], s, e);
        OneRow(last, s, e);
      }
    }
  }

  // -------- the log --------

  /** The state an event left its entity in, read from the event alone. */
  function LeftState(ev: Event): Option<Json> {
    match ev.action
    case BaselineImport => Some(ev.payload)
    case EntityUpsert => Some(ev.payload)
    case RuntimeUpsert => AfterOf(ev.payload)
    case RollbackCompensation => AfterOf(ev.payload)
    case RuntimeDelete => None
    case RollbackDeleteCompensation => None
  }

  function AfterOf(payload: Json): Option<Json> {
    if payload.Obj? && "after" in payload.fields then Some(payload.fields["after"]) else None
  }

  /** Replaying the log in append order: what the last event of the entity left. */
  function Replay(log: seq<Event>, s: Id, e: string): Option<Json> {
    if log == [] then None
    else if log[|log| - 1].snapshot == s && log[|log| - 1].entityId == e then LeftState(log[|log| - 1])
    else Replay(log[..|log| - 1], s, e)
  }

  lemma ReplaySnoc(log: seq<Event>, ev: Event, s: Id, e: string)
    ensures Replay(log + [ev], s, e) == if ev.snapshot == s && ev.entityId == e then LeftState(ev)
                                        else Replay(log, s, e)
  {
    assert (log + [ev])[..|log|] == log;
  }

  /** The events of other snapshots. */
  function LogWithout(log: seq<Event>, ids: set<Id>): seq<Event> {
    if log == [] then []
    else LogWithout(log[..|log| - 1], ids) + if log[|log| - 1].snapshot in ids then [] else [log[|log| - 1]]
  }

  lemma {:induction false} ReplayWithout(log: seq<Event>, ids: set<Id>, s: Id, e: string)
    ensures Replay(LogWithout(log, ids), s, e) == if s in ids then None else Replay(log, s, e)
  {
    if log != [] {
      var front, last := log[..|log| - 1], log[|log| - 1];
      ReplayWithout(front, ids, s, e);
      if last.snapshot in ids {
        Seqs.EmptyRight(LogWithout(front, ids));
      } else {
        ReplaySnoc(LogWithout(front, ids), last, s, e);
      }
    }
  }

  // -------- snapshots of a table --------

  predicate InTable(snapshots: map<Id, Snapshot>, integration: Id, table: string, s: Id) {
    s in snapshots && snapshots[s].integration == integration && snapshots[s].table == table
  }

  function TableOf(snapshots: map<Id, Snapshot>, integration: Id, table: string): set<Id> {
    set s | s in snapshots && InTable(snapshots, integration, table, s)
  }

  /** FindLatestSnapshotID: ORDER BY created_at DESC LIMIT 1. */
  predicate IsLatest(snapshots: map<Id, Snapshot>, integration: Id, table: string, s: Id) {
    && InTable(snapshots, integration, table, s)
    && forall s' :: s' in snapshots && InTable(snapshots, integration, table, s') ==>
         snapshots[s'].createdAt <= snapshots[s].createdAt
  }

  /** FindInitialSnapshotID: ORDER BY created_at ASC LIMIT 1. */
  predicate IsInitial(snapshots: map<Id, Snapshot>, integration: Id, table: string, s: Id) {
    && InTable(snapshots, integration, table, s)
    && forall s' :: s' in snapshots && InTable(snapshots, integration, table, s') ==>
         snapshots[s].createdAt <= snapshots[s'].createdAt
  }

  // -------- writing a row and its event --------

  /** A row write (None deletes the row) and the event that goes with it. */
  datatype Change = Change(entityId: string, data: Option<Json>, action: Action, payload: Json)

  datatype Write = Write(snapshot: Id, change: Change)

  function WriteRow(rows: seq<Row>, w: Write): seq<Row> {
    match w.change.data
    case Some(data) => UpsertRow(rows, w.snapshot, w.change.entityId, data)
    case None => DeleteRow(rows, w.snapshot, w.change.entityId)
  }

  function EventOf(id: Id, w: Write): Event {
    Event(id, w.snapshot, w.change.entityId, w.change.action, w.change.payload)
  }

  function Applied(st: State, w: Write): State {
    st.(rows := WriteRow(st.rows, w), log := st.log + [EventOf(st.nextId, w)], nextId := st.nextId + 1)
  }

  function AppliedAll(st: State, writes: seq<Write>): (r: State)
    ensures r.sources == st.sources && r.snapshots == st.snapshots
  {
    if writes == [] then st else Applied(AppliedAll(st, writes[..|writes| - 1]), writes[|writes| - 1])
  }

  /** UpdateSyncStats for every listed source, each with the number of rows of its snapshot. */
  function CountedAll(st: State, counts: map<Id, Id>): State {
    st.(sources := map id | id in st.sources ::
                       if id in counts then
                         st.sources[id].(recordCount := CountRows(st.rows, counts[id])) else st.sources[id])
  }

  // -------- plans --------

  /** What a transaction writes, and which sources it recounts over which snapshot. */
  datatype Plan = Plan(writes: seq<Write>, counts: map<Id, Id>)

  ghost predicate KnownSnapshots(st: State, writes: seq<Write>) {
    forall w :: w in writes ==> w.snapshot in st.snapshots
  }

  /**
    The transaction of a plan: every row and event, then the record counts.
    A missing snapshot violates a foreign key, a missing source is not found;
    either way nothing is written.
   */
  ghost function Commit(st: State, plan: Plan): Result<State, Error> {
    if !KnownSnapshots(st, plan.writes) then Err(Constraint)
    else if !(plan.counts.Keys <= st.sources.Keys) then Err(NotFound)
    else Ok(CountedAll(AppliedAll(st, plan.writes), plan.counts))
  }

  function EventsOf(firstId: Id, writes: seq<Write>): (r: seq<Event>)
    ensures |r| == |writes| && forall i :: 0 <= i < |r| ==> r[i] == EventOf(firstId + i, writes[i])
  {
    seq(|writes|, i requires 0 <= i < |writes| => EventOf(firstId + i, writes[i]))
  }

  /** The log only grows, by one event per write, in order. */
  lemma {:induction false} AppliedAllLog(st: State, writes: seq<Write>)
    ensures AppliedAll(st, writes).nextId == st.nextId + |writes|
    ensures AppliedAll(st, writes).log == st.log + EventsOf(st.nextId, writes)
  {
    if writes != [] {
      var front := writes[..|writes| - 1];
      AppliedAllLog(st, front);
      assert EventsOf(st.nextId, writes)
             == EventsOf(st.nextId, front) + [EventOf(st.nextId + |front|, writes[|front|])];
    }
  }

  /** What a committed transaction leaves, table by table. */
  lemma Committed(st: State, plan: Plan)
    requires Commit(st, plan).Ok?
    ensures var st' := Commit(st, plan).value;
            && st'.snapshots == st.snapshots && st'.sources.Keys == st.sources.Keys
            && st'.rows == AppliedAll(st, plan.writes).rows && st'.log == AppliedAll(st, plan.writes).log
            && forall id :: id in st.sources ==>
                 st'.sources[id].integration == st.sources[id].integration
                 && st'.sources[id].slug == st.sources[id].slug
  {
    hide AppliedAll, CountRows, KnownSnapshots;
  }

  // -------- uploads --------

  /** One parsed row with its entity id. */
  datatype Item = Item(entityId: string, data: Json)

  function BaselineRows(s: Id, items: seq<Item>): seq<Row> {
    if items == [] then []
    else BaselineRows(s, items[..|items| - 1]) + [Row(s, items[|items| - 1].entityId, items[|items| - 1].data)]
  }

  function BaselineEvent(id: Id, s: Id, item: Item): Event {
    Event(id, s, item.entityId, BaselineImport, item.data)
  }

  function BaselineEvents(firstId: Id, s: Id, items: seq<Item>): seq<Event> {
    if items == [] then []
    else BaselineEvents(firstId, s, items[..|items| - 1])
         + [BaselineEvent(firstId + |items| - 1, s, items[|items| - 1])]
  }

  /** What an upload has decided to write when its transaction begins. The table name was read before. */
  datatype Upload = Upload(source: Id, integration: Id, table: string, now: int, items: seq<Item>)

  function Uploaded(st: State, up: Upload): State
    requires up.source in st.sources
  {
    var s := st.nextId;
    State(st.sources[up.source := st.sources[up.source].(recordCount := |up.items|)],
          st.snapshots[s := Snapshot(up.integration, up.table, up.now)],
          st.log + BaselineEvents(s + 1, s, up.items),
          RowsWithout(st.rows, TableOf(st.snapshots, up.integration, up.table)) + BaselineRows(s, up.items),
          s + 1 + |up.items|)
  }

  /** The transaction of an upload, ReplaceBaseline. */
  function CommitUpload(st: State, up: Upload): Result<State, Error> {
    if up.source !in st.sources then Err(NotFound) else Ok(Uploaded(st, up))
  }

  // -------- sources --------

  predicate SlugTaken(st: State, integration: Id, slug: string, except: Option<Id>) {
    exists id :: id in st.sources && st.sources[id].integration == integration && st.sources[id].slug == slug
                 && Some(id) != except
  }

  /** Create. */
  function CreateSource(st: State, integration: Id, slug: string): Result<State, Error> {
    if SlugTaken(st, integration, slug, None) then Err(AlreadyExists)
    else Ok(st.(sources := st.sources[st.nextId := Source(integration, slug, 0)], nextId := st.nextId + 1))
  }

  function Retabled(st: State, integration: Id, from: string, to: string): map<Id, Snapshot> {
    map s | s in st.snapshots :: if InTable(st.snapshots, integration, from, s) then st.snapshots[s].(table := to)
                                 else st.snapshots[s]
  }

  /** Update: the source row and, for a new slug, the table name of its snapshots. */
  function RenameSource(st: State, source: Id, integration: Id, slug: string): Result<State, Error> {
    if source !in st.sources || st.sources[source].integration != integration then Err(NotFound)
    else if SlugTaken(st, integration, slug, Some(source)) then Err(AlreadyExists)
    else Ok(st.(sources := st.sources[source := st.sources[source].(slug := slug)],
                snapshots := Retabled(st, integration, st.sources[source].slug, slug)))
  }

  /** Delete, with the slug its caller read before: rows, events and snapshots of that table, and the source. */
  function DeleteSource(st: State, source: Id, integration: Id, slug: string): Result<State, Error> {
    if source !in st.sources || st.sources[source].integration != integration then Err(NotFound)
    else
      var ids := TableOf(st.snapshots, integration, slug);
      Ok(st.(sources := map id | id in st.sources && id != source :: st.sources[id],
             snapshots := map s | s in st.snapshots && s !in ids :: st.snapshots[s],
             log := LogWithout(st.log, ids),
             rows := RowsWithout(st.rows, ids)))
  }

  /** UpdateSyncStats: the second half of SyncNow, with the count it read before. */
  function SetCount(st: State, source: Id, n: nat): Result<State, Error> {
    if source !in st.sources then Err(NotFound)
    else Ok(st.(sources := st.sources[source := st.sources[source].(recordCount := n)]))
  }
}
