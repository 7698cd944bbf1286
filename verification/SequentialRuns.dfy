/**
  Operations run one at a time, each plan carried out before the next is made:
  what then holds of every reachable store, beyond replay. Record counts are
  right, every snapshot belongs to one live source, and every event that records
  a state "before" records the replayed one.
 */
module SequentialRuns {
  import opened Wrappers
  import opened Payloads
  import opened EntityStore
  import opened ReplayInvariant
  import opened Operations
  import opened FullRollback
  import opened RuntimeBatch
  import Text

  // -------- the invariant --------

  /** UNIQUE(integration_id, slug). */
  ghost predicate UniqueSlugs(sources: map<Id, Source>) {
    forall i, j :: i in sources && j in sources && sources[i].integration == sources[j].integration
                   && sources[i].slug == sources[j].slug ==>
      i == j
  }

  predicate Owns(sources: map<Id, Source>, id: Id, snapshots: map<Id, Snapshot>, s: Id) {
    id in sources && InTable(snapshots, sources[id].integration, sources[id].slug, s)
  }

  /** Every snapshot is of the table of a live source. */
  ghost predicate Owned(st: State) {
    forall s :: s in st.snapshots ==> exists id :: Owns(st.sources, id, st.snapshots, s)
  }

  ghost predicate DistinctTimes(snapshots: map<Id, Snapshot>) {
    forall s, s' :: s in snapshots && s' in snapshots && s != s'
                    && InTable(snapshots, snapshots[s].integration, snapshots[s].table, s') ==>
      snapshots[s].createdAt != snapshots[s'].createdAt
  }

  /** The count of the source is the number of rows of its latest snapshot. */
  ghost predicate CountIsRight(st: State, id: Id)
    requires id in st.sources
  {
    match FindLatest(st.snapshots, st.sources[id].integration, st.sources[id].slug)
    case None => st.sources[id].recordCount == 0
    case Some(s) => st.sources[id].recordCount == CountRows(st.rows, s)
  }

  ghost predicate CountsAreRight(st: State) {
    forall id :: id in st.sources ==> CountIsRight(st, id)
  }

  predicate BeforeIs(ev: Event, log: seq<Event>) {
    IsRaw(ev.action) || (ev.payload.Obj? && "before" in ev.payload.fields
                         && ev.payload.fields["before"] == AsJson(Replay(log, ev.snapshot, ev.entityId)))
  }

  /** Every event that records the state before it records the replay of the log up to it. */
  ghost predicate BeforesRecorded(log: seq<Event>) {
    forall i :: 0 <= i < |log| ==> BeforeIs(log[i], log[..i])
  }

  /** What does not depend on the order of reads and writes within an operation. */
  ghost predicate Tallied(st: State) {
    && Kept(st) && UniqueSlugs(st.sources) && Owned(st) && DistinctTimes(st.snapshots) && CountsAreRight(st)
  }

  ghost predicate Good(st: State) {
    Tallied(st) && BeforesRecorded(st.log)
  }

  lemma FoundLatest(snapshots: map<Id, Snapshot>, integration: Id, table: string, s: Id)
    requires DistinctTimes(snapshots) && IsLatest(snapshots, integration, table, s)
    ensures FindLatest(snapshots, integration, table) == Some(s)
  {
  }

  lemma FoundInitial(snapshots: map<Id, Snapshot>, integration: Id, table: string, s: Id)
    requires DistinctTimes(snapshots) && IsInitial(snapshots, integration, table, s)
    ensures FindInitial(snapshots, integration, table) == Some(s)
  {
  }

  /** Partition: one and only one live source owns a snapshot. */
  lemma ExactlyOneOwner(st: State, s: Id)
    requires Good(st) && s in st.snapshots
    ensures exists id :: Owns(st.sources, id, st.snapshots, s)
    ensures forall i, j :: Owns(st.sources, i, st.snapshots, s) && Owns(st.sources, j, st.snapshots, s) ==> i == j
  {
    hide Kept, CountsAreRight, BeforesRecorded;
  }

  // -------- plans carried out at once --------

  /** The write records the state its row has now. */
  predicate TrueBefore(st: State, w: Write) {
    IsRaw(w.change.action)
    || (w.change.payload.Obj? && "before" in w.change.payload.fields
        && w.change.payload.fields["before"] == CurrentState(st, w.snapshot, w.change.entityId))
  }

  ghost predicate TrueBefores(st: State, writes: seq<Write>) {
    forall i :: 0 <= i < |writes| ==> TrueBefore(AppliedAll(st, writes[..i]), writes[i])
  }

  ghost predicate LatestOf(st: State, id: Id, s: Id) {
    id in st.sources && FindLatest(st.snapshots, st.sources[id].integration, st.sources[id].slug) == Some(s)
  }

  ghost predicate CountsFit(st: State, plan: Plan) {
    && (forall id :: id in plan.counts ==> LatestOf(st, id, plan.counts[id]))
    && (forall w :: w in plan.writes ==> exists id :: id in plan.counts && plan.counts[id] == w.snapshot)
  }

  /** A plan made from the present state. */
  ghost predicate FreshPlan(st: State, plan: Plan) {
    && AllHonest(plan.writes) && KnownSnapshots(st, plan.writes) && TrueBefores(st, plan.writes) && CountsFit(st, plan)
  }

  lemma BeforesGrow(st: State, w: Write)
    requires BeforesRecorded(st.log) && TrueBefore(st, w) && InSync(st, w.snapshot) && GoodLog(st)
    ensures BeforesRecorded(Applied(st, w).log)
  {
    CurrentIsReplay(st, w.snapshot, w.change.entityId);
    var log' := st.log + [EventOf(st.nextId, w)];
    assert Applied(st, w).log == log';
    assert BeforeIs(EventOf(st.nextId, w), st.log);
    hide GoodLog, InSync, BeforeIs, TrueBefore, Replay, CurrentState, EventOf;
    forall i | 0 <= i < |log'| ensures BeforeIs(log'[i], log'[..i]) {
      if i < |st.log| {
        assert log'[..i] == st.log[..i];
        assert BeforeIs(st.log[i], st.log[..i]);
      } else {
        assert log'[..i] == st.log;
      }
    }
  }

  lemma {:induction false} WritesRecordBefores(st: State, writes: seq<Write>)
    requires Kept(st) && BeforesRecorded(st.log) && AllHonest(writes) && KnownSnapshots(st, writes)
    requires TrueBefores(st, writes)
    requires forall w :: w in writes ==> IsSomeLatest(st, w.snapshot)
    ensures BeforesRecorded(AppliedAll(st, writes).log)
  {
    hide Kept, BeforesRecorded, Honest, TrueBefore, IsSomeLatest, Applied;
    if writes != [] {
      var front, w := writes[..|writes| - 1], writes[|writes| - 1];
      assert w in writes && forall x :: x in front ==> x in writes;
      FrontBefores(st, writes);
      hide TrueBefores;
      WritesRecordBefores(st, front);
      WritesKeep(st, front);
      NextBefore(st, AppliedAll(st, front), w);
    }
  }

  lemma FrontBefores(st: State, writes: seq<Write>)
    requires TrueBefores(st, writes) && writes != []
    ensures TrueBefores(st, writes[..|writes| - 1])
    ensures TrueBefore(AppliedAll(st, writes[..|writes| - 1]), writes[|writes| - 1])
  {
    hide TrueBefore, AppliedAll;
    var front := writes[..|writes| - 1];
    assert forall i :: 0 <= i < |front| ==> front[..i] == writes[..i] && front[i] == writes[i];
  }

  ghost predicate IsSomeLatest(st: State, s: Id) {
    exists i: Id, t: string :: IsLatest(st.snapshots, i, t, s)
  }

  lemma NextBefore(st: State, now: State, w: Write)
    requires Kept(now) && BeforesRecorded(now.log) && TrueBefore(now, w) && now.snapshots == st.snapshots
    requires IsSomeLatest(st, w.snapshot)
    ensures BeforesRecorded(Applied(now, w).log)
  {
    hide Kept, BeforesRecorded, TrueBefore, IsLatest, Applied;
    var i: Id, t: string :| IsLatest(st.snapshots, i, t, w.snapshot);
    LatestIsInSync(now, i, t, w.snapshot);
    KeptIsGoodLog(now);
    BeforesGrow(now, w);
  }

  lemma KeptIsGoodLog(st: State)
    requires Kept(st)
    ensures GoodLog(st) && Linked(st)
  {
    hide GoodLog, Linked;
  }

  lemma CommitCountsRight(st: State, plan: Plan, id: Id)
    requires UniqueSlugs(st.sources) && CountsAreRight(st) && CountsFit(st, plan) && id in st.sources
    requires Commit(st, plan).Ok?
    ensures CountIsRight(Commit(st, plan).value, id)
  {
    var st' := Commit(st, plan).value;
    var latest := FindLatest(st.snapshots, st.sources[id].integration, st.sources[id].slug);
    hide AppliedAll, CountRows, FindLatest;
    assert st'.snapshots == st.snapshots && st'.rows == AppliedAll(st, plan.writes).rows;
    assert st'.sources[id].integration == st.sources[id].integration && st'.sources[id].slug == st.sources[id].slug;
    assert CountIsRight(st, id);
    if id !in plan.counts && latest.Some? {
      NotWritten(st, plan, id, latest.value);
      UnwrittenSnapshot(st, plan.writes, latest.value, "");
    }
  }

  /** A source that is not recounted has its latest snapshot left alone. */
  lemma NotWritten(st: State, plan: Plan, id: Id, s: Id)
    requires UniqueSlugs(st.sources) && CountsFit(st, plan) && id in st.sources && id !in plan.counts
    requires FindLatest(st.snapshots, st.sources[id].integration, st.sources[id].slug) == Some(s)
    ensures forall w :: w in plan.writes ==> w.snapshot != s
  {
    forall w | w in plan.writes ensures w.snapshot != s {
      var other :| other in plan.counts && plan.counts[other] == w.snapshot;
    }
  }

  /** Carrying out a plan made from the present state. */
  lemma FreshPlanKeepsGood(st: State, plan: Plan)
    requires Good(st) && FreshPlan(st, plan)
    ensures Commit(st, plan).Ok? && Good(Commit(st, plan).value)
  {
    hide Kept, AllHonest, KnownSnapshots, TrueBefores, BeforesRecorded, CountsAreRight, AppliedAll;
    var r := Commit(st, plan);
    assert r.Ok?;
    CommitKeeps(st, plan);
    forall w | w in plan.writes ensures IsSomeLatest(st, w.snapshot) {
      var id :| id in plan.counts && plan.counts[id] == w.snapshot;
      assert IsLatest(st.snapshots, st.sources[id].integration, st.sources[id].slug, w.snapshot);
    }
    WritesRecordBefores(st, plan.writes);
    CountsAfterCommit(st, plan);
    TablesAfterCommit(st, r.value, plan);
  }

  lemma CountsAfterCommit(st: State, plan: Plan)
    requires UniqueSlugs(st.sources) && CountsAreRight(st) && CountsFit(st, plan) && Commit(st, plan).Ok?
    ensures CountsAreRight(Commit(st, plan).value)
  {
    hide UniqueSlugs, CountsFit, CountIsRight, AppliedAll;
    var st' := Commit(st, plan).value;
    forall id | id in st'.sources ensures CountIsRight(st', id) {
      CommitCountsRight(st, plan, id);
    }
  }

  lemma TablesAfterCommit(st: State, st': State, plan: Plan)
    requires UniqueSlugs(st.sources) && Owned(st)
    requires st'.snapshots == st.snapshots && st'.sources.Keys == st.sources.Keys
    requires forall id :: id in st.sources ==>
               st'.sources[id].integration == st.sources[id].integration && st'.sources[id].slug == st.sources[id].slug
    ensures UniqueSlugs(st'.sources) && Owned(st')
  {
    forall s | s in st'.snapshots ensures exists id :: Owns(st'.sources, id, st'.snapshots, s) {
      var id :| Owns(st.sources, id, st.snapshots, s);
      assert Owns(st'.sources, id, st'.snapshots, s);
    }
  }

  // -------- the planners make fresh plans --------

  lemma OneWriteIsFresh(st: State, w: Write, source: Id)
    requires Honest(w.change) && LatestOf(st, source, w.snapshot) && TrueBefore(st, w)
    ensures FreshPlan(st, Plan([w], map[source := w.snapshot]))
  {
    assert [w][..0] == [];
    hide Honest, TrueBefore;
    var plan := Plan([w], map[source := w.snapshot]);
    assert forall x :: x in plan.writes ==> x == w && source in plan.counts && plan.counts[source] == x.snapshot;
  }

  lemma CreateIsFresh(st: State, integration: Id, source: Id, rawId: string, payload: Option<map<string, Json>>)
    requires PlanCreate(st, integration, source, rawId, payload).Ok?
    ensures FreshPlan(st, PlanCreate(st, integration, source, rawId, payload).value)
  {
    var plan := PlanCreate(st, integration, source, rawId, payload).value;
    CleanIdFacts(rawId);
    hide CleanId, Text.TrimSpace;
    OneWriteIsFresh(st, plan.writes[0], source);
  }

  lemma RollbackIsFresh(st: State, integration: Id, source: Id, rawId: string, eventId: Id)
    requires Kept(st) && PlanRollback(st, integration, source, rawId, eventId).Ok?
    ensures FreshPlan(st, PlanRollback(st, integration, source, rawId, eventId).value)
  {
    hide Kept, FindEvent, CurrentState, PickTargetState, CleanId;
    var plan := PlanRollback(st, integration, source, rawId, eventId).value;
    var w := plan.writes[0];
    CleanIdFacts(rawId);
    var ev := FindEvent(st, st.log, integration, st.sources[source].slug, w.change.entityId, eventId).value;
    RollbackWriteRecords(w.snapshot, w.change.entityId, ev, CurrentState(st, w.snapshot, w.change.entityId));
    OneWriteIsFresh(st, w, source);
  }

  /** Whenever its parts were read, the write of a rollback is honest and records the state that was read. */
  lemma RollbackWriteRecords(s: Id, e: string, ev: Event, current: Json)
    requires RollbackWrite(s, e, ev, current).Some? && CleanId(e)
    ensures var w := RollbackWrite(s, e, ev, current).value;
            && Honest(w.change) && w.snapshot == s && w.change.entityId == e
            && w.change.payload.fields["before"] == current
  {
    hide CleanId;
    var target := ResolveTargetState(ev.payload).value;
    BuildersRecord(current, target, ev.id, "", "");
  }

  lemma WrittenIsTrue(st: State, integration: Id, m: Mutation, env: Env, now: State, w: Write)
    requires WrittenFor(st, integration, m, env, now, w)
    ensures TrueBefore(now, w)
  {
    hide Resolve, CurrentState, Records;
  }

  lemma BatchIsFresh(st: State, integration: Id, ms: seq<Mutation>, env: Env, scenario: string)
    requires Kept(st) && BatchOf(st, integration, ms, env, scenario).Ok?
    ensures FreshPlan(st, PlanOf(BatchOf(st, integration, ms, env, scenario).value))
  {
    hide Kept, BatchOf, AllHonest, KnownSnapshots, TrueBefores, CountsFit, WrittenFor, Touches, TouchedBy;
    BatchIsFold(st, integration, ms, env, scenario);
    var b := BatchOf(st, integration, ms, env, scenario).value;
    BatchBefores(st, integration, ms, env, b);
    BatchCounts(st, integration, ms, env, b);
  }

  lemma BatchBefores(st: State, integration: Id, ms: seq<Mutation>, env: Env, b: Batch)
    requires GoodBatch(st, integration, ms, env, b)
    ensures TrueBefores(st, b.writes)
  {
    hide AllHonest, KnownSnapshots, AppliedAll, TrueBefore, WrittenFor, Touches, TouchedBy;
    forall i | 0 <= i < |b.writes| ensures TrueBefore(AppliedAll(st, b.writes[..i]), b.writes[i]) {
      WrittenIsTrue(st, integration, ms[i], env, AppliedAll(st, b.writes[..i]), b.writes[i]);
    }
  }

  lemma BatchCounts(st: State, integration: Id, ms: seq<Mutation>, env: Env, b: Batch)
    requires GoodBatch(st, integration, ms, env, b)
    ensures CountsFit(st, PlanOf(b))
  {
    hide AllHonest, KnownSnapshots, AppliedAll, WrittenFor, Touches;
    forall id | id in b.touched ensures LatestOf(st, id, b.touched[id]) {
      assert TouchedBy(st, integration, id, b.touched[id]);
    }
    hide TouchedBy, LatestOf;
    forall w | w in b.writes ensures exists id :: id in b.touched && b.touched[id] == w.snapshot {
      var i :| 0 <= i < |b.writes| && b.writes[i] == w;
      BatchTouches(st, integration, ms, env, b, i);
    }
  }

  lemma BatchTouches(st: State, integration: Id, ms: seq<Mutation>, env: Env, b: Batch, i: nat)
    requires GoodBatch(st, integration, ms, env, b) && i < |ms|
    ensures exists id :: id in b.touched && b.touched[id] == b.writes[i].snapshot
  {
    assert WrittenFor(st, integration, ms[i], env, AppliedAll(st, b.writes[..i]), b.writes[i]);
    assert Touches(st, integration, ms[i], env, b.touched);
    ResolvedTarget(st, integration, ms[i], env);
    var t := Resolve(st, integration, ms[i], env).value;
    hide Resolve, AppliedAll, CurrentState, RecordsAfter;
    assert TouchedBy(st, integration, t.source, b.touched[t.source]);
  }

  /** Writes to other entities leave the current state of this one. */
  lemma {:induction false} CurrentBehindOthers(st: State, writes: seq<Write>, s: Id, e: string)
    requires forall i :: 0 <= i < |writes| ==> writes[i].change.entityId != e
    ensures CurrentState(AppliedAll(st, writes), s, e) == CurrentState(st, s, e)
  {
    hide RowData, Applied;
    if writes != [] {
      CurrentBehindOthers(st, writes[..|writes| - 1], s, e);
      WrittenRow(AppliedAll(st, writes[..|writes| - 1]), writes[|writes| - 1], s, e);
    }
  }

  lemma FullRollbackIsFresh(st: State, integration: Id, source: Id, o: Orders)
    requires Kept(st) && ReadForRollback(st, integration, source).Ok?
    requires GoodReading(ReadForRollback(st, integration, source).value)
    requires OrdersFor(o, ReadForRollback(st, integration, source).value)
    ensures FreshPlan(st, PlanFull(ReadForRollback(st, integration, source).value, o, source))
  {
    var r := ReadForRollback(st, integration, source).value;
    FullWritesAreHonest(r, o);
    assert LatestOf(st, source, r.snapshot) && r.snapshot in st.snapshots;
    ReadingIsGood(st, integration, source);
    assert r.current == CurrentMap(st.rows, r.snapshot);
    KeptIsGoodLog(st);
    hide Kept, ReadForRollback, AllHonest, OrdersFor, GoodReading, FullWrites, CurrentMap, LatestOf, InSync, GoodLog;
    hide Linked, TrueBefores;
    FullBefores(st, r, o);
    FullCounts(st, r, o, source);
  }

  lemma FullBefores(st: State, r: Reading, o: Orders)
    requires GoodReading(r) && OrdersFor(o, r)
    requires GoodLog(st) && InSync(st, r.snapshot) && r.current == CurrentMap(st.rows, r.snapshot)
    ensures TrueBefores(st, FullWrites(r, o))
  {
    hide GoodLog, InSync, TrueBefore, FullWrites, GoodReading, OrdersFor, CurrentMap, AppliedAll;
    forall i | 0 <= i < |FullWrites(r, o)|
      ensures TrueBefore(AppliedAll(st, FullWrites(r, o)[..i]), FullWrites(r, o)[i])
    {
      FullWriteIsTrue(st, r, o, i);
    }
  }

  lemma FullCounts(st: State, r: Reading, o: Orders, source: Id)
    requires GoodReading(r) && OrdersFor(o, r) && LatestOf(st, source, r.snapshot)
    requires forall w :: w in FullWrites(r, o) ==> w.snapshot == r.snapshot
    ensures CountsFit(st, PlanFull(r, o, source))
  {
    hide GoodReading, OrdersFor, FullWrites, LatestOf;
    var plan := PlanFull(r, o, source);
    forall w | w in plan.writes ensures exists id :: id in plan.counts && plan.counts[id] == w.snapshot {
      assert source in plan.counts;
    }
  }

  lemma FullWriteIsTrue(st: State, r: Reading, o: Orders, i: nat)
    requires GoodReading(r) && OrdersFor(o, r) && i < |FullWrites(r, o)|
    requires GoodLog(st) && InSync(st, r.snapshot) && r.current == CurrentMap(st.rows, r.snapshot)
    ensures TrueBefore(AppliedAll(st, FullWrites(r, o)[..i]), FullWrites(r, o)[i])
  {
    hide GoodLog, InSync, FullWrites, GoodReading, OrdersFor, CurrentMap, AppliedAll;
    var writes := FullWrites(r, o);
    var e := writes[i].change.entityId;
    FullWriteRecords(r, o, i);
    CurrentBehindOthers(st, writes[..i], r.snapshot, e);
    CurrentMapIsRows(st.rows, r.snapshot, e);
    CurrentIsReplay(st, r.snapshot, e);
    hide RowData, Replay;
  }

  /** No two writes of a full rollback touch the same entity, and each records what was read for its entity. */
  lemma FullWriteRecords(r: Reading, o: Orders, i: nat)
    requires GoodReading(r) && OrdersFor(o, r) && i < |FullWrites(r, o)|
    ensures var writes := FullWrites(r, o);
            && writes[i].change.payload.Obj? && "before" in writes[i].change.payload.fields
            && writes[i].snapshot == r.snapshot
            && writes[i].change.payload.fields["before"] == BeforeOf(r.current, writes[i].change.entityId)
            && forall j :: 0 <= j < i ==> writes[j].change.entityId != writes[i].change.entityId
  {
    hide FullRollbackPayload, UpsertWrite, RemoveWrite;
    var writes := FullWrites(r, o);
    var n := |o.upserts|;
    assert forall j :: 0 <= j < n ==> o.upserts[j] in Differing(r.current, r.baseline);
    assert forall j :: 0 <= j < |o.removes| ==> o.removes[j] in Surplus(r.current, r.baseline);
    FullWriteAt(r, o, i);
    forall j | 0 <= j < i ensures writes[j].change.entityId != writes[i].change.entityId {
      FullWriteAt(r, o, j);
    }
  }

  lemma FullWriteAt(r: Reading, o: Orders, i: nat)
    requires GoodReading(r) && OrdersFor(o, r) && i < |FullWrites(r, o)|
    ensures var w := FullWrites(r, o)[i];
            && w.change.payload.Obj? && "before" in w.change.payload.fields && w.snapshot == r.snapshot
            && w.change.payload.fields["before"] == BeforeOf(r.current, w.change.entityId)
            && |FullWrites(r, o)| == |o.upserts| + |o.removes|
            && w.change.entityId == if i < |o.upserts| then o.upserts[i] else o.removes[i - |o.upserts|]
  {
    var n := |o.upserts|;
    assert forall j :: 0 <= j < n ==> o.upserts[j] in Differing(r.current, r.baseline);
    assert forall j :: 0 <= j < |o.removes| ==> o.removes[j] in Surplus(r.current, r.baseline);
    hide FullRollbackPayload, Enumerates, CleanId;
    if i < n {
      UpsertWriteIsHonest(r.snapshot, r.initial, r.current, r.baseline, o.upserts[i]);
    } else {
      RemoveWriteIsHonest(r.snapshot, r.initial, r.current, o.removes[i - n]);
    }
  }
}
