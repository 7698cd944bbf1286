/**
  Operations that overlap. Each begins, makes its reads one after the other, and
  finishes with its transaction; between any two of these any others may happen.
  Mutations of a runtime request are read inside their transaction, only their
  environment is built before.
 */
module ConcurrentRuns {
  import opened Wrappers
  import opened Payloads
  import opened EntityStore
  import opened ReplayInvariant
  import opened InterleavedRuns
  import opened Operations
  import opened FullRollback
  import opened RuntimeBatch
  import opened SequentialRuns
  import opened SourceLife
  import opened StaleTransactions
  import Text

  // -------- the reads of an operation --------

  /** The next query of an operation, with the answers of those before it. */
  datatype Query =
    | FindSourceOf(op: Op)
    | FindSnapshot(op: Op, slug: string)
    | FindTarget(op: Op, slug: string, s: Id)
    | FindCurrent(op: Op, s: Id, event: Event)
    | FindFirst(op: Op, slug: string, s: Id)
    | ListBaseline(op: Op, s: Id, initial: Id)
    | ListCurrent(op: Op, s: Id, initial: Id, baseline: map<string, Json>)
    | CountNow(op: Op, s: Id)

  /** An operation under way: it still reads, or it has decided on its transaction. */
  datatype Pending =
    | Reads(query: Query)
    | Decided(plan: Plan)
    | Mutations(integration: Id, mutations: seq<Mutation>, env: Env, scenario: string)
    | Other(step: Step)

  /** Operations that look up their source first, and what they ask of their input. */
  ghost predicate LooksUp(op: Op) {
    match op
    case CreateEntity(_, _, rawId, payload) => Text.TrimSpace(rawId) != "" && payload.Some?
    case RollbackEntity(_, _, rawId, _) => Text.TrimSpace(rawId) != ""
    case RollbackComplete(_, _, _) => true
    case UploadBaseline(_, _, _, _) => true
    case Delete(_, _) => true
    case Sync(_, _) => true
    case _ => false
  }

  /** The checks of an operation before its first read. */
  ghost function Begun(op: Op): Option<Pending> {
    match op
    case Register(integration, slug) => Some(Other(Create(integration, slug)))
    case Rename(source, integration, slug) => Some(Other(Step.Rename(source, integration, slug)))
    case Execute(integration, mutations, env, scenario) => Some(Mutations(integration, mutations, env, scenario))
    case _ => if LooksUp(op) then Some(Reads(FindSourceOf(op))) else None
  }

  function CreationPlan(s: Id, source: Id, rawId: string, payload: map<string, Json>): Plan {
    Plan([Write(s, Change(Text.TrimSpace(rawId), Some(Obj(payload)), EntityUpsert, Obj(payload)))], map[source := s])
  }

  /** The source is read: its slug, for the queries and transactions to come. */
  ghost function WithSource(st: State, op: Op): Option<Pending>
    requires LooksUp(op)
  {
    if !HasSource(st, op.integration, op.source) then None
    else
      var slug := st.sources[op.source].slug;
      match op
      case UploadBaseline(source, integration, now, items) =>
        Some(Other(Import(Upload(source, integration, slug, now, items))))
      case Delete(source, integration) => Some(Other(Remove(source, integration, slug)))
      case _ => Some(Reads(FindSnapshot(op, slug)))
  }

  ghost function WithSnapshot(st: State, op: Op, slug: string): Option<Pending>
    requires LooksUp(op)
  {
    match FindLatest(st.snapshots, op.integration, slug)
    case None => if op.Sync? then Some(Other(Recount(op.source, 0))) else None
    case Some(s) =>
      match op
      case CreateEntity(_, source, rawId, payload) => Some(Decided(CreationPlan(s, source, rawId, payload.value)))
      case RollbackEntity(_, _, _, _) => Some(Reads(FindTarget(op, slug, s)))
      case RollbackComplete(_, _, _) => Some(Reads(FindFirst(op, slug, s)))
      case Sync(_, _) => Some(Reads(CountNow(op, s)))
      case _ => None
  }

  ghost function WithTarget(st: State, op: Op, slug: string, s: Id): Option<Pending>
    requires op.RollbackEntity?
  {
    match FindEvent(st, st.log, op.integration, slug, Text.TrimSpace(op.rawId), op.eventId)
    case None => None
    case Some(ev) => if ResolveTargetState(ev.payload).None? then None else Some(Reads(FindCurrent(op, s, ev)))
  }

  ghost function WithCurrent(st: State, op: Op, s: Id, ev: Event): Option<Pending>
    requires op.RollbackEntity?
  {
    var e := Text.TrimSpace(op.rawId);
    match RollbackWrite(s, e, ev, CurrentState(st, s, e))
    case None => None
    case Some(w) => Some(Decided(Plan([w], map[op.source := s])))
  }

  ghost function WithFirst(st: State, op: Op, slug: string, s: Id): Option<Pending>
    requires op.RollbackComplete?
  {
    match FindInitial(st.snapshots, op.integration, slug)
    case None => None
    case Some(initial) => Some(Reads(ListBaseline(op, s, initial)))
  }

  ghost function WithBaseline(st: State, op: Op, s: Id, initial: Id): Option<Pending>
    requires op.RollbackComplete?
  {
    var baseline := BaselineMap(st.log, initial);
    if baseline == map[] then None else Some(Reads(ListCurrent(op, s, initial, baseline)))
  }

  ghost function WithProjection(st: State, op: Op, s: Id, initial: Id, baseline: map<string, Json>): Option<Pending>
    requires op.RollbackComplete?
  {
    var r := Reading(s, initial, CurrentMap(st.rows, s), baseline);
    if GoodReading(r) && OrdersFor(op.orders, r) then Some(Decided(PlanFull(r, op.orders, op.source))) else None
  }

  /** One query, answered by the store as it is now; None if the operation ends with it. */
  ghost function Answer(st: State, q: Query): Option<Pending> {
    match q
    case FindSourceOf(op) => if LooksUp(op) then WithSource(st, op) else None
    case FindSnapshot(op, slug) => if LooksUp(op) then WithSnapshot(st, op, slug) else None
    case FindTarget(op, slug, s) => if op.RollbackEntity? then WithTarget(st, op, slug, s) else None
    case FindCurrent(op, s, ev) => if op.RollbackEntity? then WithCurrent(st, op, s, ev) else None
    case FindFirst(op, slug, s) => if op.RollbackComplete? then WithFirst(st, op, slug, s) else None
    case ListBaseline(op, s, initial) => if op.RollbackComplete? then WithBaseline(st, op, s, initial) else None
    case ListCurrent(op, s, initial, baseline) =>
      if op.RollbackComplete? then WithProjection(st, op, s, initial, baseline) else None
    case CountNow(op, s) => if op.Sync? then Some(Other(Recount(op.source, CountRows(st.rows, s)))) else None
  }

  function QueriesLeft(q: Query): nat {
    match q
    case FindSourceOf(_) => 5
    case FindSnapshot(_, _) => 4
    case FindTarget(_, _, _) => 2
    case FindCurrent(_, _, _) => 1
    case FindFirst(_, _, _) => 3
    case ListBaseline(_, _, _) => 2
    case ListCurrent(_, _, _, _) => 1
    case CountNow(_, _) => 1
  }

  /** All reads that are left, answered by one store. */
  ghost function Settled(st: State, q: Query): Option<Pending>
    decreases QueriesLeft(q)
  {
    match Answer(st, q)
    case Some(Reads(next)) => if QueriesLeft(next) < QueriesLeft(q) then Settled(st, next) else None
    case other => other
  }

  // -------- runs --------

  /** The transaction, on the store as it is now. */
  ghost function CarryOut(st: State, p: Pending): State {
    match p
    case Reads(_) => st
    case Decided(plan) => Take(st, Transact(plan))
    case Mutations(integration, mutations, env, scenario) =>
      (match BatchOf(st, integration, mutations, env, scenario)
       case Err(_) => st
       case Ok(b) => Take(st, Transact(PlanOf(b))))
    case Other(step) => Take(st, step)
  }

  datatype World = World(st: State, pending: seq<Pending>)

  datatype Move = Begin(op: Op) | Read(i: nat) | Finish(i: nat)

  function Without(pending: seq<Pending>, i: nat): seq<Pending>
    requires i < |pending|
  {
    pending[..i] + pending[i + 1..]
  }

  ghost function MoveTo(w: World, m: Move): World {
    match m
    case Begin(op) =>
      (match Begun(op)
       case None => w
       case Some(p) => w.(pending := w.pending + [p]))
    case Read(i) =>
      if i < |w.pending| && w.pending[i].Reads? then
        match Answer(w.st, w.pending[i].query)
        case None => w.(pending := Without(w.pending, i))
        case Some(p) => w.(pending := w.pending[i := p])
      else w
    case Finish(i) =>
      if i < |w.pending| && !w.pending[i].Reads? then World(CarryOut(w.st, w.pending[i]), Without(w.pending, i)) else w
  }

  /** Uploads bring distinct good items, and finish later than every snapshot then in their table. */
  ghost predicate Fair(w: World, m: Move) {
    match m
    case Begin(op) => op.UploadBaseline? ==> DistinctIds(op.items) && GoodItems(op.items)
    case Read(_) => true
    case Finish(i) =>
      i < |w.pending| && w.pending[i].Other? && w.pending[i].step.Import? ==> InOrder(w.st, w.pending[i].step.upload)
  }

  ghost function AfterMoves(w: World, ms: seq<Move>): World {
    if ms == [] then w else MoveTo(AfterMoves(w, ms[..|ms| - 1]), ms[|ms| - 1])
  }

  ghost predicate FairRun(w: World, ms: seq<Move>) {
    ms == [] || (FairRun(w, ms[..|ms| - 1]) && Fair(AfterMoves(w, ms[..|ms| - 1]), ms[|ms| - 1]))
  }

  const START := World(EMPTY, [])

  // -------- what operations under way carry --------

  /** The answers so far are those of stores that kept the invariant. */
  ghost predicate GoodQuery(q: Query) {
    && LooksUp(q.op)
    && (q.op.UploadBaseline? ==> DistinctIds(q.op.items) && GoodItems(q.op.items))
    && (q.ListCurrent? ==> AllObjects(q.baseline))
  }

  /** What an operation has decided is honest, whenever each of its parts was read. */
  ghost predicate HonestPending(p: Pending) {
    match p
    case Reads(q) => GoodQuery(q)
    case Decided(plan) => AllHonest(plan.writes) && Targeted(plan)
    case Mutations(_, _, _, _) => true
    case Other(step) =>
      !step.Transact? && (step.Import? ==> DistinctIds(step.upload.items) && GoodItems(step.upload.items))
  }

  ghost predicate Sane(w: World) {
    Kept(w.st) && forall i :: 0 <= i < |w.pending| ==> HonestPending(w.pending[i])
  }

  lemma OneWriteIsHonest(w: Write, source: Id)
    requires Honest(w.change)
    ensures HonestPending(Decided(Plan([w], map[source := w.snapshot])))
  {
    hide Honest;
    var plan := Plan([w], map[source := w.snapshot]);
    assert source in plan.counts && plan.counts[source] == w.snapshot;
    assert Counts(plan, w.snapshot);
  }

  lemma CreationIsHonest(s: Id, source: Id, rawId: string, payload: map<string, Json>)
    requires Text.TrimSpace(rawId) != ""
    ensures HonestPending(Decided(CreationPlan(s, source, rawId, payload)))
  {
    CleanIdFacts(rawId);
    hide Text.TrimSpace, CleanId;
    OneWriteIsHonest(CreationPlan(s, source, rawId, payload).writes[0], source);
  }

  lemma CurrentIsHonest(st: State, op: Op, s: Id, ev: Event)
    requires op.RollbackEntity? && LooksUp(op) && WithCurrent(st, op, s, ev).Some?
    ensures HonestPending(WithCurrent(st, op, s, ev).value)
  {
    var e := Text.TrimSpace(op.rawId);
    CleanIdFacts(op.rawId);
    hide Text.TrimSpace, CleanId, CurrentState, RollbackWrite, HonestPending;
    var current := CurrentState(st, s, e);
    RollbackWriteRecords(s, e, ev, current);
    OneWriteIsHonest(RollbackWrite(s, e, ev, current).value, op.source);
  }

  lemma BaselineIsGood(st: State, initial: Id)
    requires Kept(st)
    ensures AllObjects(BaselineMap(st.log, initial))
  {
    hide WellShaped, LeftState, CleanId, BaselineMap, InSync, Superseded, Linked, ObjectRows;
    BaselineMapHasObjects(st.log, initial);
  }

  lemma ProjectionIsHonest(st: State, op: Op, s: Id, initial: Id, baseline: map<string, Json>)
    requires op.RollbackComplete? && WithProjection(st, op, s, initial, baseline).Some?
    ensures HonestPending(WithProjection(st, op, s, initial, baseline).value)
  {
    hide CurrentMap, OrdersFor, GoodReading, FullWrites, AllHonest;
    var r := Reading(s, initial, CurrentMap(st.rows, s), baseline);
    FullWritesAreHonest(r, op.orders);
    var plan := PlanFull(r, op.orders, op.source);
    assert op.source in plan.counts && plan.counts[op.source] == s;
    assert Counts(plan, s);
  }

  /** And the current rows are always fit for a plan: no read between can make the last one fail. */
  lemma ProjectionIsRead(st: State, op: Op, s: Id, initial: Id, baseline: map<string, Json>)
    requires Kept(st) && op.RollbackComplete? && AllObjects(baseline)
    requires OrdersFor(op.orders, Reading(s, initial, CurrentMap(st.rows, s), baseline))
    ensures WithProjection(st, op, s, initial, baseline).Some?
  {
    CurrentMapHasObjects(st.rows, s);
    hide CurrentMap, OrdersFor, FullWrites, AllObjects;
  }

  /** Whatever a query finds, in any store that keeps the invariant, what is decided from it is honest. */
  lemma AnswerIsHonest(st: State, q: Query)
    requires Kept(st) && GoodQuery(q) && Answer(st, q).Some?
    ensures HonestPending(Answer(st, q).value)
  {
    hide Kept, AllHonest, Targeted, DistinctIds, GoodItems, CountRows, FindLatest, FindInitial, Text.TrimSpace;
    match q
    case FindSnapshot(op, slug) =>
      if op.CreateEntity? {
        var s := FindLatest(st.snapshots, op.integration, slug).value;
        CreationIsHonest(s, op.source, op.rawId, op.payload.value);
      }
    case FindCurrent(op, s, ev) => CurrentIsHonest(st, op, s, ev);
    case ListBaseline(op, s, initial) => BaselineIsGood(st, initial);
    case ListCurrent(op, s, initial, baseline) => ProjectionIsHonest(st, op, s, initial, baseline);
    case _ =>
  }

  lemma CarryOutKeeps(st: State, p: Pending)
    requires Kept(st) && HonestPending(p)
    requires p.Other? && p.step.Import? ==> InOrder(st, p.step.upload)
    ensures Kept(CarryOut(st, p))
  {
    hide Kept, AllHonest, BatchOf, Take, DistinctIds, GoodItems, InOrder, GoodQuery;
    match p
    case Reads(_) =>
    case Decided(plan) => StepKeeps(st, Transact(plan));
    case Mutations(integration, mutations, env, scenario) =>
      var r := BatchOf(st, integration, mutations, env, scenario);
      if r.Ok? {
        BatchIsFresh(st, integration, mutations, env, scenario);
        StepKeeps(st, Transact(PlanOf(r.value)));
      }
    case Other(step) => StepKeeps(st, step);
  }

  lemma MoveKeepsSane(w: World, m: Move)
    requires Sane(w) && Fair(w, m)
    ensures Sane(MoveTo(w, m))
  {
    hide Kept, Answer, CarryOut, DistinctIds, GoodItems, InOrder, LooksUp, AllHonest, Targeted, AllObjects;
    match m
    case Begin(op) =>
    case Read(i) =>
      if i < |w.pending| && w.pending[i].Reads? && Answer(w.st, w.pending[i].query).Some? {
        AnswerIsHonest(w.st, w.pending[i].query);
      }
    case Finish(i) =>
      if i < |w.pending| { CarryOutKeeps(w.st, w.pending[i]); }
  }

  lemma {:induction false} RunKeepsSane(w: World, ms: seq<Move>)
    requires Sane(w) && FairRun(w, ms)
    ensures Sane(AfterMoves(w, ms))
  {
    hide Sane, Fair, MoveTo;
    if ms != [] {
      RunKeepsSane(w, ms[..|ms| - 1]);
      MoveKeepsSane(AfterMoves(w, ms[..|ms| - 1]), ms[|ms| - 1]);
    }
  }

  lemma StartIsSane()
    ensures Sane(START)
  {
    EmptyIsKept();
    hide Kept;
  }

  // -------- the theorems --------

  /**
    Under every interleaving of the reads and the transactions of all operations,
    with uploads finishing in time order, the latest snapshot of every table shows
    the replay of its log, one row per entity.
   */
  lemma OverlappingReplayTheorem(ms: seq<Move>, integration: Id, table: string)
    requires FairRun(START, ms)
    ensures TableInSync(AfterMoves(START, ms).st, integration, table)
  {
    StartIsSane();
    RunKeepsSane(START, ms);
    var st := AfterMoves(START, ms).st;
    hide Kept, InSync, IsLatest, AfterMoves, FairRun, HonestPending;
    forall s | s in st.snapshots && IsLatest(st.snapshots, integration, table, s) ensures InSync(st, s) {
      LatestIsInSync(st, integration, table, s);
    }
  }

  /** And every stored row, also of older snapshots, is a JSON object. */
  lemma OverlappingRowsAreObjects(ms: seq<Move>)
    requires FairRun(START, ms)
    ensures forall r :: r in AfterMoves(START, ms).st.rows ==> r.data.Obj?
  {
    StartIsSane();
    RunKeepsSane(START, ms);
    hide AfterMoves, FairRun, HonestPending, Kept;
    RowsOfKeptAreObjects(AfterMoves(START, ms).st);
  }

  lemma CarryOutKeepsSingle(st: State, p: Pending)
    requires Kept(st) && SingleRows(st) && HonestPending(p)
    requires p.Other? && p.step.Import? ==> InOrder(st, p.step.upload)
    ensures SingleRows(CarryOut(st, p))
  {
    hide Kept, AllHonest, BatchOf, Take, DistinctIds, GoodItems, InOrder, GoodQuery, SingleRows;
    match p
    case Reads(_) =>
    case Decided(plan) => StepKeepsSingle(st, Transact(plan));
    case Mutations(integration, mutations, env, scenario) =>
      var r := BatchOf(st, integration, mutations, env, scenario);
      if r.Ok? {
        BatchIsFresh(st, integration, mutations, env, scenario);
        StepKeepsSingle(st, Transact(PlanOf(r.value)));
      }
    case Other(step) => StepKeepsSingle(st, step);
  }

  lemma MoveKeepsSingle(w: World, m: Move)
    requires Sane(w) && Fair(w, m) && SingleRows(w.st)
    ensures SingleRows(MoveTo(w, m).st)
  {
    hide Kept, Answer, CarryOut, InOrder, SingleRows, HonestPending;
    if m.Finish? && m.i < |w.pending| { CarryOutKeepsSingle(w.st, w.pending[m.i]); }
  }

  lemma {:induction false} RunKeepsSingleRows(w: World, ms: seq<Move>)
    requires Sane(w) && FairRun(w, ms) && SingleRows(w.st)
    ensures SingleRows(AfterMoves(w, ms).st)
  {
    hide Sane, Fair, MoveTo, SingleRows;
    if ms != [] {
      RunKeepsSingleRows(w, ms[..|ms| - 1]);
      RunKeepsSane(w, ms[..|ms| - 1]);
      MoveKeepsSingle(AfterMoves(w, ms[..|ms| - 1]), ms[|ms| - 1]);
    }
  }

  /** And no snapshot ever has two rows for one entity. */
  lemma OverlappingRowsAreSingle(ms: seq<Move>)
    requires FairRun(START, ms)
    ensures SingleRows(AfterMoves(START, ms).st)
  {
    StartIsSane();
    RunKeepsSingleRows(START, ms);
  }

  /**
    So at any moment of such a run every state once logged can be restored, by an
    operation that then runs at once.
   */
  lemma OverlappingRollbackRestores(ms: seq<Move>, integration: Id, source: Id, ev: Event)
    requires FairRun(START, ms)
    requires var st := AfterMoves(START, ms).st;
             && HasSource(st, integration, source) && ev in st.log && Restorable(ev)
             && InTable(st.snapshots, integration, st.sources[source].slug, ev.snapshot)
    ensures var st := AfterMoves(START, ms).st;
            var plan := PlanRollback(st, integration, source, ev.entityId, ev.id);
            var s := ActiveSnapshot(st, integration, source);
            && plan.Ok? && Commit(st, plan.value).Ok? && s.Some?
            && OnlyEntityChanged(st, Commit(st, plan.value).value, s.value, ev.entityId, LeftState(ev).value)
  {
    StartIsSane();
    RunKeepsSane(START, ms);
    var st := AfterMoves(START, ms).st;
    LoggedIdIsClean(st, ev);
    hide Kept, AfterMoves, FairRun, Restorable, PlanRollback, Commit, OnlyEntityChanged, HonestPending, GoodLog;
    RollbackRestores(st, integration, source, ev.entityId, ev);
  }

  // -------- reads that nothing interrupts --------

  ghost function FromPlan(plan: Result<Plan, Error>): Option<Pending> {
    match plan
    case Err(_) => None
    case Ok(p) => Some(Decided(p))
  }

  /** The plan of a full rollback whose reads all see one store. */
  ghost function FromReading(r: Result<Reading, Error>, o: Orders, source: Id): Option<Pending> {
    match r
    case Err(_) => None
    case Ok(reading) =>
      if GoodReading(reading) && OrdersFor(o, reading) then Some(Decided(PlanFull(reading, o, source))) else None
  }

  /** If nothing comes between the reads of an operation, they decide what its planner does. */
  lemma UninterruptedReads(st: State, op: Op)
    requires LooksUp(op)
    ensures op.CreateEntity? ==>
              Settled(st, FindSourceOf(op)) == FromPlan(PlanCreate(st, op.integration, op.source, op.rawId, op.payload))
    ensures op.RollbackEntity? ==>
              Settled(st, FindSourceOf(op))
              == FromPlan(PlanRollback(st, op.integration, op.source, op.rawId, op.eventId))
    ensures op.RollbackComplete? ==>
              Settled(st, FindSourceOf(op))
              == FromReading(ReadForRollback(st, op.integration, op.source), op.orders, op.source)
  {
    hide FindLatest, FindInitial, FindEvent, CurrentState, BaselineMap, CurrentMap, OrdersFor, GoodReading, FullWrites;
    hide Text.TrimSpace, RollbackWrite;
    if HasSource(st, op.integration, op.source) {
      var slug := st.sources[op.source].slug;
      var latest := FindLatest(st.snapshots, op.integration, slug);
      if latest.Some? {
        if op.RollbackEntity? {
          SettledTarget(st, op, slug, latest.value);
        } else if op.RollbackComplete? {
          SettledFirst(st, op, slug, latest.value);
        }
      }
    }
  }

  /** What an operation decides if nothing comes between its reads. */
  ghost function DecidedAtOnce(st: State, op: Op): Option<Pending> {
    match Begun(op)
    case Some(Reads(q)) => Settled(st, q)
    case other => other
  }

  /** An operation that nothing interrupts at all does what its specification says. */
  lemma UninterruptedIsServed(st: State, op: Op)
    ensures Next(st, op) == match DecidedAtOnce(st, op)
                            case None => st
                            case Some(p) => CarryOut(st, p)
  {
    hide Commit, BatchOf, CreateSource, RenameSource, DeleteSource, CommitUpload, SetCount, Text.TrimSpace;
    hide PlanCreate, PlanRollback, ReadForRollback, FindLatest, CountRows, PlanFull, OrdersFor, GoodReading;
    match op
    case CreateEntity(integration, source, rawId, payload) => CreationAtOnce(st, op);
    case RollbackEntity(integration, source, rawId, eventId) => RollbackAtOnce(st, op);
    case RollbackComplete(integration, source, orders) => UninterruptedReads(st, op);
    case Delete(source, integration) => RemovalAtOnce(st, op);
    case Sync(integration, source) => SyncAtOnce(st, op);
    case UploadBaseline(source, integration, now, items) => UploadAtOnce(st, op);
    case _ =>
  }

  lemma CreationAtOnce(st: State, op: Op)
    requires op.CreateEntity?
    ensures DecidedAtOnce(st, op) == FromPlan(PlanCreate(st, op.integration, op.source, op.rawId, op.payload))
  {
    if LooksUp(op) { UninterruptedReads(st, op); }
    hide Settled, FindLatest, Text.TrimSpace;
  }

  lemma RollbackAtOnce(st: State, op: Op)
    requires op.RollbackEntity?
    ensures DecidedAtOnce(st, op) == FromPlan(PlanRollback(st, op.integration, op.source, op.rawId, op.eventId))
  {
    if LooksUp(op) { UninterruptedReads(st, op); }
    hide Settled, FindLatest, FindEvent, RollbackWrite, CurrentState, Text.TrimSpace;
  }

  lemma UploadAtOnce(st: State, op: Op)
    requires op.UploadBaseline?
    ensures DecidedAtOnce(st, op)
            == if !HasSource(st, op.integration, op.source) then None
               else Some(Other(Import(Upload(op.source, op.integration, st.sources[op.source].slug, op.now,
                                             op.items))))
  {
  }

  lemma RemovalAtOnce(st: State, op: Op)
    requires op.Delete?
    ensures DecidedAtOnce(st, op)
            == if !HasSource(st, op.integration, op.source) then None
               else Some(Other(Remove(op.source, op.integration, st.sources[op.source].slug)))
  {
  }

  lemma SyncAtOnce(st: State, op: Op)
    requires op.Sync?
    ensures DecidedAtOnce(st, op)
            == if !HasSource(st, op.integration, op.source) then None
               else match FindLatest(st.snapshots, op.integration, st.sources[op.source].slug)
                    case None => Some(Other(Recount(op.source, 0)))
                    case Some(s) => Some(Other(Recount(op.source, CountRows(st.rows, s))))
  {
    hide FindLatest, CountRows;
    if HasSource(st, op.integration, op.source) {
      var slug := st.sources[op.source].slug;
      assert Settled(st, FindSourceOf(op)) == Settled(st, FindSnapshot(op, slug));
    }
  }

  lemma SettledTarget(st: State, op: Op, slug: string, s: Id)
    requires op.RollbackEntity?
    ensures var e := Text.TrimSpace(op.rawId);
            var found := FindEvent(st, st.log, op.integration, slug, e, op.eventId);
            Settled(st, FindTarget(op, slug, s))
            == if found.None? || RollbackWrite(s, e, found.value, CurrentState(st, s, e)).None? then None
               else Some(Decided(Plan([RollbackWrite(s, e, found.value, CurrentState(st, s, e)).value],
                                      map[op.source := s])))
  {
    hide FindEvent, CurrentState, Text.TrimSpace, CompensationPayload, PickTargetState;
  }

  lemma SettledFirst(st: State, op: Op, slug: string, s: Id)
    requires op.RollbackComplete?
    ensures var initial := FindInitial(st.snapshots, op.integration, slug);
            Settled(st, FindFirst(op, slug, s))
            == if initial.None? || BaselineMap(st.log, initial.value) == map[] then None
               else WithProjection(st, op, s, initial.value, BaselineMap(st.log, initial.value))
  {
    hide FindInitial, BaselineMap, CurrentMap, OrdersFor, GoodReading, FullWrites;
    var initial := FindInitial(st.snapshots, op.integration, slug);
    if initial.Some? {
      var baseline := BaselineMap(st.log, initial.value);
      assert Settled(st, FindFirst(op, slug, s)) == Settled(st, ListBaseline(op, s, initial.value));
      if baseline != map[] {
        assert Settled(st, ListBaseline(op, s, initial.value))
               == Settled(st, ListCurrent(op, s, initial.value, baseline));
      }
    }
  }
}
