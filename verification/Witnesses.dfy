/**
  Runs from the empty store in which a simple law fails: an upload that commits
  late, a sync, a creation and a deletion that others overtake, and the rollbacks
  that do not bring a state back.
 */
module Witnesses {
  import opened Wrappers
  import opened Payloads
  import opened EntityStore
  import opened ReplayInvariant
  import opened InterleavedRuns
  import opened Operations
  import opened RuntimeBatch
  import opened SequentialRuns
  import opened SourceLife
  import opened StaleTransactions
  import opened ConcurrentRuns
  import Text

  // -------- walking through a run --------

  lemma OneMore(w: World, ms: seq<Move>, m: Move)
    ensures AfterMoves(w, ms + [m]) == MoveTo(AfterMoves(w, ms), m)
    ensures FairRun(w, ms + [m]) <==> FairRun(w, ms) && Fair(AfterMoves(w, ms), m)
  {
    hide MoveTo, Fair;
    assert (ms + [m])[..|ms|] == ms;
  }

  lemma NoMoves(w: World)
    ensures AfterMoves(w, []) == w && FairRun(w, [])
  {
  }

  /** The world after the run, which was fair so far. */
  ghost predicate Reached(ms: seq<Move>, w: World) {
    FairRun(START, ms) && AfterMoves(START, ms) == w
  }

  lemma Step1(ms: seq<Move>, w: World, m: Move, w': World)
    requires Reached(ms, w) && Fair(w, m) && MoveTo(w, m) == w'
    ensures Reached(ms + [m], w')
  {
    hide MoveTo, Fair;
    OneMore(START, ms, m);
  }

  // -------- rows that can be uploaded --------

  /** resolveJSONType. */
  function TypeName(value: Json): string {
    match value
    case Null => "null"
    case Bool(_) => "boolean"
    case Num(_) => "number"
    case Str(_) => "string"
    case Arr(_) => "array"
    case Obj(_) => "object"
  }

  function Shape(fields: map<string, Json>): map<string, string> {
    map key | key in fields :: TypeName(fields[key])
  }

  /** parseJSONBaseline accepts the rows, and resolveEntityID gives them these ids. */
  ghost predicate Acceptable(items: seq<Item>) {
    items != [] && forall i :: 0 <= i < |items| ==> AcceptableRow(items[i], items[0])
  }

  ghost predicate AcceptableRow(item: Item, first: Item) {
    && item.data.Obj? && first.data.Obj? && Shape(item.data.fields) == Shape(first.data.fields)
    && (forall key :: key in item.data.fields ==> CleanId(key))
    && CleanId(item.entityId) && "id" in item.data.fields && item.data.fields["id"] == Str(item.entityId)
  }

  const THING := Obj(map["id" := Str("a")])

  /** A row with a reserved key. */
  function Keyed(id: string): Json {
    Obj(map["id" := Str(id), "after" := THING])
  }

  const ITEMS := [Item("a", Keyed("a")), Item("k", Keyed("k"))]

  const THREE := [Item("a", Keyed("a")), Item("k", Keyed("k")), Item("m", Keyed("m"))]

  lemma KeyedRow(a: string, b: string)
    requires CleanId(a)
    ensures AcceptableRow(Item(a, Keyed(a)), Item(b, Keyed(b)))
  {
    assert CleanId("id") && CleanId("after");
    assert Shape(Keyed(a).fields) == Shape(Keyed(b).fields);
  }

  lemma CleanIds()
    ensures CleanId("a") && CleanId("k") && CleanId("m")
  {
  }

  /** The uploads of the runs below are files that the parser takes. */
  lemma UploadsAreAcceptable()
    ensures Acceptable(ITEMS) && Acceptable([ITEMS[0]]) && Acceptable([ITEMS[1]]) && Acceptable(THREE)
    ensures DistinctIds(ITEMS) && DistinctIds([ITEMS[0]]) && DistinctIds([ITEMS[1]]) && DistinctIds(THREE)
    ensures GoodItems(ITEMS) && GoodItems([ITEMS[0]]) && GoodItems([ITEMS[1]]) && GoodItems(THREE)
  {
    CleanIds();
    hide CleanId, AcceptableRow;
    forall a | a in {"a", "k", "m"} ensures AcceptableRow(Item(a, Keyed(a)), ITEMS[0]) { KeyedRow(a, "a"); }
    KeyedRow("k", "k");
  }

  // -------- a stocked source --------

  const ONE_SOURCE := State(map[0 := Source(7, "t", 0)], map[], [], [], 1)

  const REGISTERING := [Begin(Register(7, "t")), Finish(0)]

  const STOCK := Upload(0, 7, "t", 2, ITEMS)

  const STOCKED := Uploaded(ONE_SOURCE, STOCK)

  const STOCKING := REGISTERING + [Begin(UploadBaseline(0, 7, 2, ITEMS)), Read(0), Finish(0)]

  lemma RegisteringReaches()
    ensures Reached(REGISTERING, World(ONE_SOURCE, []))
  {
    var register := Other(Create(7, "t"));
    assert Reached([], START) by { NoMoves(START); }
    hide Reached;
    Step1([], START, Begin(Register(7, "t")), World(EMPTY, [register]));
    assert CarryOut(EMPTY, register) == ONE_SOURCE;
    assert Without([register], 0) == [];
    Step1([] + [Begin(Register(7, "t"))], World(EMPTY, [register]), Finish(0), World(ONE_SOURCE, []));
    assert REGISTERING == [] + [Begin(Register(7, "t"))] + [Finish(0)];
  }

  lemma StockIsInOrder()
    ensures InOrder(ONE_SOURCE, STOCK)
  {
  }

  lemma StockingReaches()
    ensures Reached(STOCKING, World(STOCKED, []))
  {
    UploadsAreAcceptable();
    RegisteringReaches();
    StockIsInOrder();
    hide DistinctIds, GoodItems, InOrder, Uploaded, Reached, Acceptable;
    var upload, look := Other(Import(STOCK)), Reads(FindSourceOf(UploadBaseline(0, 7, 2, ITEMS)));
    var two := REGISTERING;
    Step1(two, World(ONE_SOURCE, []), Begin(UploadBaseline(0, 7, 2, ITEMS)), World(ONE_SOURCE, [look]));
    assert Answer(ONE_SOURCE, FindSourceOf(UploadBaseline(0, 7, 2, ITEMS))) == Some(upload);
    Step1(two + [Begin(UploadBaseline(0, 7, 2, ITEMS))], World(ONE_SOURCE, [look]), Read(0),
          World(ONE_SOURCE, [upload]));
    assert CarryOut(ONE_SOURCE, upload) == STOCKED;
    assert Without([upload], 0) == [];
    var four := two + [Begin(UploadBaseline(0, 7, 2, ITEMS))] + [Read(0)];
    Step1(four, World(ONE_SOURCE, [upload]), Finish(0), World(STOCKED, []));
    assert STOCKING == four + [Finish(0)];
  }

  lemma StockedIsGood()
    ensures Good(STOCKED) && Kept(STOCKED)
  {
    UploadsAreAcceptable();
    StockIsInOrder();
    assert Good(ONE_SOURCE) by { RegisteredIsGood(); }
    hide DistinctIds, GoodItems, InOrder, Good, Uploaded, Acceptable;
    UploadKeepsGood(ONE_SOURCE, STOCK);
    hide Kept;
    assert Kept(STOCKED) by { GoodIsKept(STOCKED); }
  }

  lemma RegisteredIsGood()
    ensures Good(ONE_SOURCE)
  {
  }

  lemma GoodIsKept(st: State)
    requires Good(st)
    ensures Kept(st) && Tallied(st)
  {
  }

  /** Source 0 with its snapshot 1, two rows, and the events 2 and 3. */
  lemma StockedParts()
    ensures STOCKED.sources == map[0 := Source(7, "t", 2)] && STOCKED.nextId == 4
    ensures FindLatest(STOCKED.snapshots, 7, "t") == Some(1) && 1 in STOCKED.snapshots
    ensures CountRows(STOCKED.rows, 1) == 2 && RowData(STOCKED.rows, 1, "b") == []
    ensures STOCKED.log == [BaselineEvent(2, 1, ITEMS[0]), BaselineEvent(3, 1, ITEMS[1])]
  {
    assert Linked(ONE_SOURCE);
    UploadedCounts(ONE_SOURCE, STOCK, 1);
    UploadedRows(ONE_SOURCE, STOCK, 1, "b");
    NoItemData(ITEMS, "b");
    BaselineEventsAt(2, 1, ITEMS);
    assert STOCKED.snapshots == map[1 := Snapshot(7, "t", 2)];
    assert IsLatest(STOCKED.snapshots, 7, "t", 1);
    assert DistinctTimes(STOCKED.snapshots);
    FoundLatest(STOCKED.snapshots, 7, "t", 1);
  }

  // -------- rollbacks that do not bring a state back --------

  /** A reachable row with a reserved key: rolling back to its event restores another state. */
  lemma KeyedRowIsNotRestored()
    ensures Reached(STOCKING, World(STOCKED, [])) && Kept(STOCKED)
    ensures var ev := BaselineEvent(3, 1, ITEMS[1]);
            && ev in STOCKED.log && LeftState(ev) == Some(Keyed("k"))
            && var plan := PlanRollback(STOCKED, 7, 0, "k", 3);
               !(plan.Ok? && plan.value.writes[0].change.data == LeftState(ev))
  {
    StockingReaches();
    StockedIsGood();
    StockedParts();
    hide Kept, Uploaded, Reached;
    var ev := BaselineEvent(3, 1, ITEMS[1]);
    assert ev == STOCKED.log[1];
    Text.TrimmedIsFixed("k");
    assert InTable(STOCKED.snapshots, 7, "t", 1);
    RawRollbackIff(STOCKED, 7, 0, "k", ev);
    assert HasReservedKey(ev.payload.fields);
    hide PlanRollback;
  }

  // -------- a deletion cannot be rolled back to --------

  const NAMES_A := Env(_ => Some("a"), _ => None)

  const DELETE := Mutation("DELETE", "t", "id", "")

  const DELETING := [Begin(Execute(7, [DELETE], NAMES_A, "s")), Finish(0)]

  const UNDER_WAY := Mutations(7, [DELETE], NAMES_A, "s")

  lemma DeletingReaches()
    ensures Reached(STOCKING + DELETING, World(CarryOut(STOCKED, UNDER_WAY), []))
  {
    StockingReaches();
    hide Reached, Uploaded, CarryOut;
    Step1(STOCKING, World(STOCKED, []), Begin(Execute(7, [DELETE], NAMES_A, "s")), World(STOCKED, [UNDER_WAY]));
    assert Without([UNDER_WAY], 0) == [];
    Step1(STOCKING + [DELETING[0]], World(STOCKED, [UNDER_WAY]), Finish(0), World(CarryOut(STOCKED, UNDER_WAY), []));
    assert STOCKING + DELETING == STOCKING + [DELETING[0]] + [Finish(0)];
  }

  lemma DeleteKind()
    ensures KindOf(DELETE) == "DELETE"
  {
    Text.TrimmedIsFixed("DELETE");
    hide Text.TrimSpace;
  }

  lemma DeleteSlug()
    ensures SlugOf(DELETE) == "t"
  {
    Text.TrimmedIsFixed("t");
    hide Text.TrimSpace;
  }

  lemma DeleteEntity(source: Id, s: Id)
    requires KindOf(DELETE) == "DELETE"
    ensures ResolveEntity(source, s, DELETE, NAMES_A) == Ok(Target(source, s, "a", None))
  {
    hide Text.TrimSpace, KindOf;
    Text.TrimmedIsFixed("a");
    assert NAMES_A.text(DELETE.entityIdExpr) == Some("a");
  }

  lemma DeleteResolves()
    ensures Resolve(STOCKED, 7, DELETE, NAMES_A) == Ok(Target(0, 1, "a", None))
  {
    hide Uploaded, FindLatest, CountRows, KindOf, SlugOf, ResolveEntity, RowData, BaselineEvent;
    StockedParts();
    DeleteKind();
    DeleteSlug();
    DeleteEntity(0, 1);
    assert STOCKED.sources[0] == Source(7, "t", 2);
    assert FindSource(STOCKED.sources, 7, "t") == Some(0);
  }

  lemma DeletionIsWritten(t: Target, kind: string)
    requires t.data == None
    ensures var w := MutationWrite(STOCKED, t, kind, "s");
            && w.Some? && w.value.snapshot == t.snapshot && w.value.change.entityId == t.entityId
            && w.value.change.data == None && w.value.change.action == RuntimeDelete
  {
    hide Uploaded, Kept, Good, CurrentState, Text.TrimSpace;
    StockedIsGood();
    assert ObjectRows(STOCKED.rows) by { KeptHasObjectRows(STOCKED); }
    CurrentIsObject(STOCKED, t.snapshot, t.entityId);
  }

  lemma KeptHasObjectRows(st: State)
    requires Kept(st)
    ensures ObjectRows(st.rows)
  {
    hide ObjectRows, Linked, GoodLog;
  }

  lemma BatchOfDelete() returns (w: Write)
    ensures w.snapshot == 1 && w.change.entityId == "a" && w.change.data == None && w.change.action == RuntimeDelete
    ensures BatchOf(STOCKED, 7, [DELETE], NAMES_A, "s") == Ok(Batch([w], map[0 := 1]))
  {
    hide Uploaded, Resolve, Kept, CurrentState, Good, KindOf, MutationWrite;
    DeleteResolves();
    var t := Target(0, 1, "a", None);
    DeletionIsWritten(t, KindOf(DELETE));
    w := MutationWrite(STOCKED, t, KindOf(DELETE), "s").value;
    assert [DELETE][..0] == [];
    assert BatchOf(STOCKED, 7, [], NAMES_A, "s") == Ok(Batch([], map[]));
    assert [] + [w] == [w];
  }

  lemma DeletedLog() returns (ev: Event)
    ensures ev.id == 4 && ev.entityId == "a" && ev.action == RuntimeDelete
    ensures ev in CarryOut(STOCKED, UNDER_WAY).log
  {
    var w := BatchOfDelete();
    StockedParts();
    hide Uploaded, BatchOf, CountRows, FindLatest, RowData, WriteRow;
    AppliedOne(STOCKED, w);
    assert KnownSnapshots(STOCKED, [w]);
    ev := EventOf(4, w);
    var st := Applied(STOCKED, w);
    assert st.log[|STOCKED.log|] == ev;
  }

  /** A request deletes a row, and its event is in the log: rolling back to it is an error. */
  lemma DeletionIsNotRestored() returns (ev: Event)
    ensures FairRun(START, STOCKING + DELETING)
    ensures var st := AfterMoves(START, STOCKING + DELETING).st;
            && ev in st.log && ev.entityId == "a" && LeftState(ev) == None
            && PlanRollback(st, 7, 0, "a", ev.id).Err?
  {
    DeletingReaches();
    ev := DeletedLog();
    StartIsSane();
    RunKeepsSane(START, STOCKING + DELETING);
    hide FairRun, AfterMoves, CarryOut, Kept, PlanRollback;
    RollbackRefused(CarryOut(STOCKED, UNDER_WAY), 7, 0, "a", 4);
  }

  // -------- an upload that commits late --------

  /** Of two uploads the one with the earlier time is carried out last. */
  const FIRST := UploadBaseline(0, 7, 1, [ITEMS[1]])

  const SECOND := UploadBaseline(0, 7, 2, [ITEMS[0]])

  const EARLY := Upload(0, 7, "t", 1, [ITEMS[1]])

  const TIMED := Uploaded(ONE_SOURCE, Upload(0, 7, "t", 2, [ITEMS[0]]))

  const RACING := REGISTERING + [Begin(FIRST), Read(0), Begin(SECOND), Read(1), Finish(1)]

  lemma RacingReaches()
    ensures Reached(RACING, World(TIMED, [Other(Import(EARLY))]))
  {
    UploadsAreAcceptable();
    RegisteringReaches();
    hide DistinctIds, GoodItems, Uploaded, Reached, Acceptable;
    var first, second := Other(Import(EARLY)), Other(Import(Upload(0, 7, "t", 2, [ITEMS[0]])));
    var q1, q2 := Reads(FindSourceOf(FIRST)), Reads(FindSourceOf(SECOND));
    var one := REGISTERING + [Begin(FIRST)];
    Step1(REGISTERING, World(ONE_SOURCE, []), Begin(FIRST), World(ONE_SOURCE, [q1]));
    assert Answer(ONE_SOURCE, q1.query) == Some(first);
    Step1(one, World(ONE_SOURCE, [q1]), Read(0), World(ONE_SOURCE, [first]));
    Step1(one + [Read(0)], World(ONE_SOURCE, [first]), Begin(SECOND), World(ONE_SOURCE, [first, q2]));
    assert Answer(ONE_SOURCE, q2.query) == Some(second);
    assert [first, q2][1 := second] == [first, second];
    Step1(one + [Read(0)] + [Begin(SECOND)], World(ONE_SOURCE, [first, q2]), Read(1),
          World(ONE_SOURCE, [first, second]));
    assert Without([first, second], 1) == [first];
    assert CarryOut(ONE_SOURCE, second) == TIMED;
    Step1(one + [Read(0)] + [Begin(SECOND)] + [Read(1)], World(ONE_SOURCE, [first, second]), Finish(1),
          World(TIMED, [first]));
    assert RACING == one + [Read(0)] + [Begin(SECOND)] + [Read(1)] + [Finish(1)];
  }

  lemma OneItem(item: Item)
    ensures ItemData([item], item.entityId) == [item.data]
  {
    assert [item][..0] == [];
  }

  lemma TimedIsLinked()
    ensures Linked(ONE_SOURCE) && Linked(TIMED)
  {
    UploadsAreAcceptable();
    RegisteredIsGood();
    GoodIsKept(ONE_SOURCE);
    var up := Upload(0, 7, "t", 2, [ITEMS[0]]);
    assert InOrder(ONE_SOURCE, up);
    hide Kept, Good, Uploaded, InOrder, DistinctIds, GoodItems, Acceptable;
    UploadKeeps(ONE_SOURCE, up);
    KeptIsGoodLog(ONE_SOURCE);
    KeptIsGoodLog(TIMED);
  }

  /** The later of the two snapshots stays the latest, without its row; its event stays. */
  lemma EarlyWipesTimed()
    ensures var st := Uploaded(TIMED, EARLY);
            && IsLatest(st.snapshots, 7, "t", 1) && RowData(st.rows, 1, "a") == []
            && Replay(st.log, 1, "a") == Some(Keyed("a"))
  {
    hide Linked, RowData, Replay, ItemData, BaselineRows, BaselineEvents, RowsWithout, Uploaded, IsLatest, TableOf;
    OneItem(ITEMS[0]);
    TimedIsLinked();
    EarlySnapshots();
    UploadedRows(ONE_SOURCE, Upload(0, 7, "t", 2, [ITEMS[0]]), 1, "a");
    UploadedRows(TIMED, EARLY, 1, "a");
  }

  lemma EarlySnapshots()
    ensures TIMED.nextId == 3 && 0 in TIMED.sources && 1 in TableOf(TIMED.snapshots, 7, "t")
    ensures IsLatest(Uploaded(TIMED, EARLY).snapshots, 7, "t", 1)
  {
    hide BaselineRows, BaselineEvents, RowsWithout;
    assert TIMED.snapshots == map[1 := Snapshot(7, "t", 2)];
    assert Uploaded(TIMED, EARLY).snapshots == map[1 := Snapshot(7, "t", 2), 3 := Snapshot(7, "t", 1)];
  }

  /** So after a run that is fair up to there, the last upload breaks the equality of rows and replay. */
  lemma LateUploadLosesRows()
    ensures FairRun(START, RACING) && !FairRun(START, RACING + [Finish(0)])
    ensures var st := AfterMoves(START, RACING + [Finish(0)]).st;
            && IsLatest(st.snapshots, 7, "t", 1) && RowData(st.rows, 1, "a") == []
            && Replay(st.log, 1, "a") == Some(Keyed("a")) && !TableInSync(st, 7, "t")
  {
    RacingReaches();
    EarlyWipesTimed();
    OneMore(START, RACING, Finish(0));
    hide AfterMoves, FairRun, Uploaded, RowData, Replay, IsLatest;
    assert 1 in TableOf(TIMED.snapshots, 7, "t") && TIMED.snapshots[1].createdAt == 2 by { TimedSnapshot(); }
    assert CarryOut(TIMED, Other(Import(EARLY))) == Uploaded(TIMED, EARLY);
  }

  lemma TimedSnapshot()
    ensures TIMED.sources.Keys == {0} && 1 in TableOf(TIMED.snapshots, 7, "t") && TIMED.snapshots[1].createdAt == 2
  {
  }

  // -------- a sync that is overtaken --------

  const SYNC := Op.Sync(7, 0)

  const CREATE := CreateEntity(7, 0, "b", Some(THING.fields))

  const PUT := Plan([Write(1, Change("b", Some(THING), EntityUpsert, THING))], map[0 := 1])

  ghost const GROWN := Take(STOCKED, Transact(PUT))

  /** The sync has counted two rows. */
  const COUNTING := [Begin(SYNC), Read(0), Read(0), Read(0)]

  /** An entity is created from start to end, and only then is the count stored. */
  const OVERTAKING := [Begin(CREATE), Read(1), Read(1), Finish(1), Finish(0)]

  const COUNTED := Other(Recount(0, 2))

  lemma CountingReaches()
    ensures Reached(STOCKING + COUNTING, World(STOCKED, [COUNTED]))
  {
    StockingReaches();
    StockedParts();
    hide Reached, Uploaded, CountRows, FindLatest, RowData;
    var q1, q2, q3 := Reads(FindSourceOf(SYNC)), Reads(FindSnapshot(SYNC, "t")), Reads(CountNow(SYNC, 1));
    Step1(STOCKING, World(STOCKED, []), Begin(SYNC), World(STOCKED, [q1]));
    assert Answer(STOCKED, q1.query) == Some(q2);
    Step1(STOCKING + [Begin(SYNC)], World(STOCKED, [q1]), Read(0), World(STOCKED, [q2]));
    assert Answer(STOCKED, q2.query) == Some(q3);
    Step1(STOCKING + [Begin(SYNC)] + [Read(0)], World(STOCKED, [q2]), Read(0), World(STOCKED, [q3]));
    assert Answer(STOCKED, q3.query) == Some(COUNTED);
    Step1(STOCKING + [Begin(SYNC)] + [Read(0)] + [Read(0)], World(STOCKED, [q3]), Read(0), World(STOCKED, [COUNTED]));
    assert STOCKING + COUNTING == STOCKING + [Begin(SYNC)] + [Read(0)] + [Read(0)] + [Read(0)];
  }

  lemma CleanB()
    ensures Text.TrimSpace("b") == "b"
  {
    Text.TrimmedIsFixed("b");
  }

  lemma CreationReads()
    ensures Text.TrimSpace("b") == "b"
    ensures Answer(STOCKED, FindSourceOf(CREATE)) == Some(Reads(FindSnapshot(CREATE, "t")))
    ensures Answer(STOCKED, FindSnapshot(CREATE, "t")) == Some(Decided(PUT))
  {
    StockedParts();
    CleanB();
    hide Uploaded, CountRows, FindLatest, RowData, Text.TrimSpace;
  }

  lemma OvertakingReaches()
    ensures Reached(STOCKING + COUNTING + OVERTAKING, World(Take(GROWN, Recount(0, 2)), []))
  {
    CountingReaches();
    CreationReads();
    hide Reached, Uploaded, Answer, Text.TrimSpace, Take;
    var q1, q2 := Reads(FindSourceOf(CREATE)), Reads(FindSnapshot(CREATE, "t"));
    var ms := STOCKING + COUNTING;
    Step1(ms, World(STOCKED, [COUNTED]), Begin(CREATE), World(STOCKED, [COUNTED, q1]));
    assert [COUNTED, q1][1 := q2] == [COUNTED, q2];
    Step1(ms + [Begin(CREATE)], World(STOCKED, [COUNTED, q1]), Read(1), World(STOCKED, [COUNTED, q2]));
    assert [COUNTED, q2][1 := Decided(PUT)] == [COUNTED, Decided(PUT)];
    Step1(ms + [Begin(CREATE)] + [Read(1)], World(STOCKED, [COUNTED, q2]), Read(1),
          World(STOCKED, [COUNTED, Decided(PUT)]));
    OvertakingEnds(ms + [Begin(CREATE)] + [Read(1)] + [Read(1)]);
    assert ms + OVERTAKING == ms + [Begin(CREATE)] + [Read(1)] + [Read(1)] + [Finish(1)] + [Finish(0)];
  }

  lemma OvertakingEnds(ms: seq<Move>)
    requires Reached(ms, World(STOCKED, [COUNTED, Decided(PUT)]))
    ensures Reached(ms + [Finish(1)] + [Finish(0)], World(Take(GROWN, Recount(0, 2)), []))
  {
    hide Reached, Uploaded, Take;
    assert Without([COUNTED, Decided(PUT)], 1) == [COUNTED];
    Step1(ms, World(STOCKED, [COUNTED, Decided(PUT)]), Finish(1), World(GROWN, [COUNTED]));
    assert Without([COUNTED], 0) == [];
    Step1(ms + [Finish(1)], World(GROWN, [COUNTED]), Finish(0), World(Take(GROWN, Recount(0, 2)), []));
  }

  lemma GrownRows()
    ensures GROWN.sources.Keys == {0} && GROWN.sources[0] == Source(7, "t", 3)
    ensures GROWN.snapshots == STOCKED.snapshots && CountRows(GROWN.rows, 1) == 3
  {
    StockedParts();
    var w := PUT.writes[0];
    AppliedOne(STOCKED, w);
    RowDataAppend(STOCKED.rows, [Row(1, "b", THING)], 1, "b");
    OneRow(Row(1, "b", THING), 1, "b");
    hide Uploaded, CountRows, FindLatest, RowData, AppliedAll;
    assert WriteRow(STOCKED.rows, w) == STOCKED.rows + [Row(1, "b", THING)];
    assert KnownSnapshots(STOCKED, PUT.writes);
  }

  /** A sync counts, an entity is created, the sync stores its count: two, where there are three rows. */
  lemma OvertakenSyncStoresStaleCount()
    ensures FairRun(START, STOCKING + COUNTING + OVERTAKING)
    ensures var st := AfterMoves(START, STOCKING + COUNTING + OVERTAKING).st;
            && 0 in st.sources && st.sources[0].recordCount == 2
            && FindLatest(st.snapshots, 7, "t") == Some(1) && CountRows(st.rows, 1) == 3
            && !CountIsRight(st, 0)
  {
    OvertakingReaches();
    GrownRows();
    StockedParts();
    hide FairRun, AfterMoves, CountRows, FindLatest, Uploaded, Commit;
  }

  // -------- a deletion that is overtaken --------

  const REMOVAL := Op.Delete(0, 7)

  const REMOVED := Other(Remove(0, 7, "t"))

  ghost const MOVED := Take(STOCKED, Step.Rename(0, 7, "u"))

  ghost const SHARED := Take(MOVED, Create(7, "t"))

  /** Source 4 has the slug now, and a snapshot with one row. */
  const SUCCESSION := UploadBaseline(4, 7, 3, [ITEMS[0]])

  const LATER := Upload(4, 7, "t", 3, [ITEMS[0]])

  ghost const SUCCEEDED := Take(SHARED, Import(LATER))

  const LOOKING := [Begin(REMOVAL), Read(0)]

  const MOVING := [Begin(Op.Rename(0, 7, "u")), Finish(1), Begin(Register(7, "t")), Finish(1)]

  const SUCCEEDING := [Begin(SUCCESSION), Read(1), Finish(1)]

  lemma LookingReaches()
    ensures Reached(STOCKING + LOOKING, World(STOCKED, [REMOVED]))
  {
    StockingReaches();
    StockedParts();
    hide Reached, Uploaded, CountRows, FindLatest, RowData;
    var q := Reads(FindSourceOf(REMOVAL));
    Step1(STOCKING, World(STOCKED, []), Begin(REMOVAL), World(STOCKED, [q]));
    assert Answer(STOCKED, q.query) == Some(REMOVED);
    Step1(STOCKING + [Begin(REMOVAL)], World(STOCKED, [q]), Read(0), World(STOCKED, [REMOVED]));
    assert STOCKING + LOOKING == STOCKING + [Begin(REMOVAL)] + [Read(0)];
  }

  lemma MovingReaches(ms: seq<Move>)
    requires Reached(ms, World(STOCKED, [REMOVED]))
    ensures Reached(ms + MOVING, World(SHARED, [REMOVED]))
  {
    hide Reached, Uploaded, Take;
    var rename, register := Other(Step.Rename(0, 7, "u")), Other(Create(7, "t"));
    Step1(ms, World(STOCKED, [REMOVED]), MOVING[0], World(STOCKED, [REMOVED, rename]));
    assert Without([REMOVED, rename], 1) == [REMOVED];
    Step1(ms + [MOVING[0]], World(STOCKED, [REMOVED, rename]), Finish(1), World(MOVED, [REMOVED]));
    var two := ms + [MOVING[0]] + [Finish(1)];
    Step1(two, World(MOVED, [REMOVED]), MOVING[2], World(MOVED, [REMOVED, register]));
    assert Without([REMOVED, register], 1) == [REMOVED];
    Step1(two + [MOVING[2]], World(MOVED, [REMOVED, register]), Finish(1), World(SHARED, [REMOVED]));
    assert ms + MOVING == two + [MOVING[2]] + [Finish(1)];
  }

  /** Source 0 is now "u" with its snapshot, source 4 the new "t" without one. */
  lemma SharedParts()
    ensures SHARED.sources == map[0 := Source(7, "u", 2), 4 := Source(7, "t", 0)] && SHARED.nextId == 5
    ensures SHARED.snapshots == map[1 := Snapshot(7, "u", 2)] && Linked(SHARED)
  {
    StockedParts();
    hide FindLatest, CountRows, RowData;
    assert STOCKED.snapshots == map[1 := Snapshot(7, "t", 2)];
    hide BaselineRows, BaselineEvents, RowsWithout;
    assert Linked(SHARED) by { SharedIsLinked(); }
    hide Uploaded, Linked;
    assert !SlugTaken(STOCKED, 7, "u", Some(0));
    assert MOVED.sources == map[0 := Source(7, "u", 2)] && MOVED.snapshots == map[1 := Snapshot(7, "u", 2)];
    assert !SlugTaken(MOVED, 7, "t", None);
  }

  lemma SharedIsLinked()
    ensures Linked(SHARED)
  {
    StockedIsGood();
    hide Kept, Take, Uploaded, Good;
    StepKeeps(STOCKED, Step.Rename(0, 7, "u"));
    StepKeeps(MOVED, Create(7, "t"));
    KeptIsGoodLog(SHARED);
  }

  lemma SuccessionIsFair()
    ensures DistinctIds([ITEMS[0]]) && GoodItems([ITEMS[0]]) && InOrder(SHARED, LATER)
    ensures Answer(SHARED, FindSourceOf(SUCCESSION)) == Some(Other(Import(LATER)))
  {
    SharedParts();
    UploadsAreAcceptable();
    hide Linked, Uploaded, Take, CleanId, Acceptable;
  }

  lemma SucceedingReaches(ms: seq<Move>)
    requires Reached(ms, World(SHARED, [REMOVED]))
    ensures Reached(ms + SUCCEEDING, World(SUCCEEDED, [REMOVED]))
  {
    var q := Reads(FindSourceOf(SUCCESSION));
    SuccessionIsFair();
    hide Reached, Take, Answer, InOrder, DistinctIds, GoodItems;
    Step1(ms, World(SHARED, [REMOVED]), Begin(SUCCESSION), World(SHARED, [REMOVED, q]));
    assert [REMOVED, q][1 := Other(Import(LATER))] == [REMOVED, Other(Import(LATER))];
    Step1(ms + [Begin(SUCCESSION)], World(SHARED, [REMOVED, q]), Read(1),
          World(SHARED, [REMOVED, Other(Import(LATER))]));
    assert Without([REMOVED, Other(Import(LATER))], 1) == [REMOVED];
    Step1(ms + [Begin(SUCCESSION)] + [Read(1)], World(SHARED, [REMOVED, Other(Import(LATER))]), Finish(1),
          World(SUCCEEDED, [REMOVED]));
    assert ms + SUCCEEDING == ms + [Begin(SUCCESSION)] + [Read(1)] + [Finish(1)];
  }

  /** Source 4 has its snapshot 5 with one row. */
  lemma SucceededParts()
    ensures SUCCEEDED.sources == map[0 := Source(7, "u", 2), 4 := Source(7, "t", 1)]
    ensures SUCCEEDED.snapshots == map[1 := Snapshot(7, "u", 2), 5 := Snapshot(7, "t", 3)]
    ensures CountRows(SUCCEEDED.rows, 5) == 1
  {
    SharedParts();
    UploadedCounts(SHARED, LATER, 5);
    hide SlugTaken, CountRows, BaselineRows, BaselineEvents, RowsWithout;
    assert CommitUpload(SHARED, LATER).Ok?;
  }

  const OVERTAKEN := STOCKING + LOOKING + MOVING + SUCCEEDING

  lemma OvertakenReaches()
    ensures Reached(OVERTAKEN, World(SUCCEEDED, [REMOVED]))
    ensures Reached(OVERTAKEN + [Finish(0)], World(Take(SUCCEEDED, Remove(0, 7, "t")), []))
  {
    LookingReaches();
    hide Reached, Take;
    MovingReaches(STOCKING + LOOKING);
    SucceedingReaches(STOCKING + LOOKING + MOVING);
    assert Without([REMOVED], 0) == [];
    Step1(OVERTAKEN, World(SUCCEEDED, [REMOVED]), Finish(0), World(Take(SUCCEEDED, Remove(0, 7, "t")), []));
  }

  /**
    A deletion of source 0 reads its slug; the source is renamed, source 4 takes
    the slug and uploads a row. Then the deletion is carried out: source 4 has
    lost its snapshot and row but still counts it, and the snapshot of source 0
    is left to nobody.
   */
  lemma OvertakenDeleteRun()
    ensures FairRun(START, OVERTAKEN + [Finish(0)])
    ensures var before, after := AfterMoves(START, OVERTAKEN).st, AfterMoves(START, OVERTAKEN + [Finish(0)]).st;
            && InTable(before.snapshots, 7, "t", 5) && CountRows(before.rows, 5) == 1
            && after.sources == map[4 := Source(7, "t", 1)] && TableOf(after.snapshots, 7, "t") == {}
            && !CountIsRight(after, 4)
            && InTable(after.snapshots, 7, "u", 1) && !Owned(after)
  {
    OvertakenReaches();
    SucceededParts();
    hide FairRun, AfterMoves, CountRows, CountIsRight, RowData, Replay, LogWithout, RowsWithout;
    OvertakenDeleteWipesSuccessor(SUCCEEDED, 0, 4);
    var after := DeleteSource(SUCCEEDED, 0, 7, "t").value;
    assert SUCCEEDED.sources[4].slug == "t";
    assert 1 in after.snapshots && after.snapshots[1].table == "u";
    assert forall id :: !Owns(after.sources, id, after.snapshots, 1);
  }

  // -------- a creation that is overtaken by an upload --------

  const RENEWAL := UploadBaseline(0, 7, 3, THREE)

  const RENEWING := Upload(0, 7, "t", 3, THREE)

  /** The creation has found snapshot 1; an upload then runs from start to end. */
  const CREATING := [Begin(CREATE), Read(0), Read(0), Begin(RENEWAL), Read(1), Finish(1)]

  ghost const RENEWED := Uploaded(STOCKED, RENEWING)

  lemma RenewalIsFair()
    ensures InOrder(STOCKED, RENEWING) && Answer(STOCKED, FindSourceOf(RENEWAL)) == Some(Other(Import(RENEWING)))
    ensures CarryOut(STOCKED, Other(Import(RENEWING))) == RENEWED
  {
    StockedParts();
    hide CountRows, RowData, BaselineRows, BaselineEvents, RowsWithout;
  }

  lemma CreatingReaches()
    ensures Reached(STOCKING + CREATING, World(RENEWED, [Decided(PUT)]))
  {
    StockingReaches();
    CreationReads();
    UploadsAreAcceptable();
    RenewalIsFair();
    hide Reached, Uploaded, CarryOut, InOrder, DistinctIds, GoodItems, Acceptable, Answer, Text.TrimSpace;
    var q1, q2, q3 := Reads(FindSourceOf(CREATE)), Reads(FindSnapshot(CREATE, "t")), Reads(FindSourceOf(RENEWAL));
    var upload := Other(Import(RENEWING));
    Step1(STOCKING, World(STOCKED, []), Begin(CREATE), World(STOCKED, [q1]));
    Step1(STOCKING + [Begin(CREATE)], World(STOCKED, [q1]), Read(0), World(STOCKED, [q2]));
    var three := STOCKING + [Begin(CREATE)] + [Read(0)] + [Read(0)];
    Step1(STOCKING + [Begin(CREATE)] + [Read(0)], World(STOCKED, [q2]), Read(0), World(STOCKED, [Decided(PUT)]));
    Step1(three, World(STOCKED, [Decided(PUT)]), Begin(RENEWAL), World(STOCKED, [Decided(PUT), q3]));
    assert [Decided(PUT), q3][1 := upload] == [Decided(PUT), upload];
    Step1(three + [Begin(RENEWAL)], World(STOCKED, [Decided(PUT), q3]), Read(1),
          World(STOCKED, [Decided(PUT), upload]));
    assert Without([Decided(PUT), upload], 1) == [Decided(PUT)];
    Step1(three + [Begin(RENEWAL)] + [Read(1)], World(STOCKED, [Decided(PUT), upload]), Finish(1),
          World(RENEWED, [Decided(PUT)]));
    assert STOCKING + CREATING == three + [Begin(RENEWAL)] + [Read(1)] + [Finish(1)];
  }

  /** Snapshot 4 is the latest, with three rows; snapshot 1 has none. */
  lemma RenewedParts()
    ensures RENEWED.sources == map[0 := Source(7, "t", 3)]
    ensures InTable(RENEWED.snapshots, 7, "t", 1) && FindLatest(RENEWED.snapshots, 7, "t") == Some(4)
    ensures CountRows(RENEWED.rows, 4) == 3 && CountRows(RENEWED.rows, 1) == 0 && RowData(RENEWED.rows, 1, "b") == []
  {
    hide Kept, Good, Linked, RowData, CountRows, FindLatest, BaselineRows, BaselineEvents, RowsWithout, ItemData;
    hide TableOf;
    StockedIsGood();
    StockedParts();
    KeptIsGoodLog(STOCKED);
    RenewedSnapshots();
    UploadedCounts(STOCKED, RENEWING, 4);
    UploadedCounts(STOCKED, RENEWING, 1);
    UploadedRows(STOCKED, RENEWING, 1, "b");
  }

  lemma RenewedSnapshots()
    ensures STOCKED.nextId == 4 && 1 in TableOf(STOCKED.snapshots, 7, "t")
    ensures RENEWED.sources == map[0 := Source(7, "t", 3)] && InTable(RENEWED.snapshots, 7, "t", 1)
    ensures FindLatest(RENEWED.snapshots, 7, "t") == Some(4)
  {
    StockedParts();
    hide RowData, CountRows, FindLatest, BaselineRows, BaselineEvents, RowsWithout, ItemData;
    assert STOCKED.snapshots == map[1 := Snapshot(7, "t", 2)];
    assert RENEWED.snapshots == map[1 := Snapshot(7, "t", 2), 4 := Snapshot(7, "t", 3)];
    assert IsLatest(RENEWED.snapshots, 7, "t", 4);
    assert DistinctTimes(RENEWED.snapshots);
    FoundLatest(RENEWED.snapshots, 7, "t", 4);
  }

  /** The creation then puts its row into the old snapshot and counts that: one, where the latest has three rows. */
  lemma OvertakenCreationStoresStaleCount()
    ensures FairRun(START, STOCKING + CREATING + [Finish(0)])
    ensures var st := AfterMoves(START, STOCKING + CREATING + [Finish(0)]).st;
            && 0 in st.sources && st.sources[0].recordCount == 1
            && FindLatest(st.snapshots, 7, "t") == Some(4) && CountRows(st.rows, 4) == 3
            && !CountIsRight(st, 0)
  {
    CreatingReaches();
    RenewedParts();
    hide Reached, Uploaded, RowData, CountRows, FindLatest;
    assert Without([Decided(PUT)], 0) == [];
    var w, st := PUT.writes[0], Take(RENEWED, Transact(PUT));
    Step1(STOCKING + CREATING, World(RENEWED, [Decided(PUT)]), Finish(0), World(st, []));
    assert Reached(STOCKING + CREATING + [Finish(0)], World(st, []));
    AppliedOne(RENEWED, w);
    PutCount(RENEWED.rows, 1, "b", THING);
    WrittenRow(RENEWED, w, 4, "");
    hide UpsertRow;
    assert KnownSnapshots(RENEWED, PUT.writes);
    assert st.sources[0].recordCount == CountRows(st.rows, 1) == 1;
    assert FairRun(START,
                   STOCKING + CREATING
                   + [Finish(0)]) by { ReachedFairly(STOCKING + CREATING + [Finish(0)], World(st, [])); }
    ReachedFairly(STOCKING + CREATING + [Finish(0)], World(st, []));
    hide FairRun, AfterMoves;
  }

  lemma ReachedFairly(ms: seq<Move>, w: World)
    requires Reached(ms, w)
    ensures FairRun(START, ms) && AfterMoves(START, ms) == w
  {
    hide FairRun, AfterMoves;
  }
}
