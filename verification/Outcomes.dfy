/**
  What the operations of the entity store do when each runs at once, in terms of
  their inputs and of the tables before and after: exactly when each succeeds, and
  what it leaves. Serve says how they come to it; this file does not.
 */
module Outcomes {
  import opened Wrappers
  import opened Payloads
  import opened EntityStore
  import opened ReplayInvariant
  import opened Operations
  import opened FullRollback
  import opened RuntimeBatch
  import opened SequentialRuns
  import opened SourceLife
  import Text

  // -------- sources --------

  /** The integration has no other source with this slug. */
  ghost predicate SlugIsFree(sources: map<Id, Source>, integration: Id, slug: string, except: Option<Id>) {
    forall id :: id in sources && sources[id].integration == integration && sources[id].slug == slug ==>
             Some(id) == except
  }

  ghost predicate IsSourceOf(sources: map<Id, Source>, integration: Id, source: Id) {
    source in sources && sources[source].integration == integration
  }

  /** A source is registered exactly if its slug is free, with that slug and no rows; nothing else changes. */
  lemma RegisterOutcome(st: State, integration: Id, slug: string)
    ensures var r := Serve(st, Register(integration, slug));
            && (r.Ok? <==> SlugIsFree(st.sources, integration, slug, None))
            && (r.Err? ==> r.error == AlreadyExists)
            && (r.Ok? ==> r.value == State(st.sources[st.nextId := Source(integration, slug, 0)], st.snapshots, st.log,
                                           st.rows, st.nextId + 1))
  {
  }

  /** The snapshot as it was, or under the new name if it was under the old one. */
  ghost predicate MovedSnapshot(was: Snapshot, now: Snapshot, integration: Id, from: string, to: string) {
    && now.integration == was.integration && now.createdAt == was.createdAt
    && now.table == if was.integration == integration && was.table == from then to else was.table
  }

  /** A source is renamed exactly if it exists and the slug is free for it; its snapshots follow. */
  lemma RenameOutcome(st: State, source: Id, integration: Id, slug: string)
    ensures var r := Serve(st, Op.Rename(source, integration, slug));
            && (r == Err(NotFound) <==> !IsSourceOf(st.sources, integration, source))
            && (r.Ok? <==> IsSourceOf(st.sources, integration, source)
                           && SlugIsFree(st.sources, integration, slug, Some(source)))
            && (r.Ok? ==>
                  && r.value.sources == st.sources[source := Source(integration, slug, st.sources[source].recordCount)]
                  && r.value.rows == st.rows && r.value.log == st.log && r.value.nextId == st.nextId
                  && r.value.snapshots.Keys == st.snapshots.Keys
                  && forall s :: s in st.snapshots ==>
                       MovedSnapshot(st.snapshots[s], r.value.snapshots[s], integration, st.sources[source].slug, slug))
  {
  }

  /** A deletion takes the source, the snapshots under its slug, and their rows and events, and nothing else. */
  lemma DeleteOutcome(st: State, source: Id, integration: Id)
    ensures var r := Serve(st, Op.Delete(source, integration));
            && (r.Ok? <==> IsSourceOf(st.sources, integration, source)) && (r.Err? ==> r.error == NotFound)
            && (r.Ok? ==>
                  && r.value.sources == (map id | id in st.sources && id != source :: st.sources[id])
                  && (forall s :: s in r.value.snapshots <==>
                        s in st.snapshots && !(st.snapshots[s].integration == integration
                                               && st.snapshots[s].table == st.sources[source].slug))
                  && (forall s :: s in r.value.snapshots ==> r.value.snapshots[s] == st.snapshots[s])
                  && (forall s, e :: s in r.value.snapshots ==>
                        RowData(r.value.rows, s, e) == RowData(st.rows, s, e)
                        && Replay(r.value.log, s, e) == Replay(st.log, s, e))
                  && (forall s, e :: s in st.snapshots && s !in r.value.snapshots ==>
                        RowData(r.value.rows, s, e) == [] && Replay(r.value.log, s, e) == None))
  {
    hide RowData, Replay, RowsWithout, LogWithout;
    if IsSourceOf(st.sources, integration, source) {
      var ids := TableOf(st.snapshots, integration, st.sources[source].slug);
      forall s, e
        ensures RowData(RowsWithout(st.rows, ids), s, e) == if s in ids then [] else RowData(st.rows, s, e)
        ensures Replay(LogWithout(st.log, ids), s, e) == if s in ids then None else Replay(st.log, s, e)
      {
        RowDataWithout(st.rows, ids, s, e);
        ReplayWithout(st.log, ids, s, e);
      }
    }
  }

  /**
    A sync succeeds exactly if the source exists. It stores the number of rows of the latest snapshot, or zero
    without one, and changes nothing else.
   */
  lemma SyncOutcome(st: State, integration: Id, source: Id, s: Id)
    ensures var r := Serve(st, Op.Sync(integration, source));
            && (r.Ok? <==> IsSourceOf(st.sources, integration, source)) && (r.Err? ==> r.error == NotFound)
            && (r.Ok? ==> r.value == st.(sources := r.value.sources))
            && (r.Ok? ==>
                  var was := st.sources[source];
                  var now := r.value.sources[source];
                  && r.value.sources == st.sources[source := Source(integration, was.slug, now.recordCount)]
                  && ((forall t :: !IsIn(st.snapshots, integration, was.slug, t)) ==> now.recordCount == 0)
                  && (IsLatest(st.snapshots, integration, was.slug, s)
                      && (forall t :: IsLatest(st.snapshots, integration, was.slug, t) ==> t == s) ==>
                        now.recordCount == CountRows(st.rows, s)))
  {
    hide CountRows;
    if IsSourceOf(st.sources, integration, source) {
      FindLatestIff(st.snapshots, integration, st.sources[source].slug);
      SomeSnapshotIff(st.snapshots, integration, st.sources[source].slug);
    }
  }

  // -------- uploads --------

  /** The snapshot is one of this table. */
  ghost predicate IsIn(snapshots: map<Id, Snapshot>, integration: Id, table: string, s: Id) {
    s in snapshots && snapshots[s].integration == integration && snapshots[s].table == table
  }

  /**
    An upload succeeds exactly if the source exists. It adds one snapshot with one
    row and one event for each item, counts them, and takes the rows of the older
    snapshots of the table.
   */
  lemma UploadOutcome(st: State, source: Id, integration: Id, now: int, items: seq<Item>)
    requires Kept(st) && DistinctIds(items)
    ensures var r := Serve(st, UploadBaseline(source, integration, now, items));
            var s := st.nextId;
            && (r.Ok? <==> IsSourceOf(st.sources, integration, source)) && (r.Err? ==> r.error == NotFound)
            && (r.Ok? ==>
                  && var slug := st.sources[source].slug;
                  && r.value.sources == st.sources[source := Source(integration, slug, |items|)]
                  && r.value.snapshots == st.snapshots[s := Snapshot(integration, slug, now)]
                  && |r.value.log| == |st.log| + |items| && st.log <= r.value.log
                  && (forall i :: 0 <= i < |items| ==>
                        && RowData(r.value.rows, s, items[i].entityId) == [items[i].data]
                        && r.value.log[|st.log| + i]
                           == Event(s + 1 + i, s, items[i].entityId, BaselineImport, items[i].data))
                  && CountRows(r.value.rows, s) == |items|
                  && (forall s', e :: s' != s ==>
                        RowData(r.value.rows, s', e)
                        == if IsIn(st.snapshots, integration, slug, s') then [] else RowData(st.rows, s', e)))
  {
    if IsSourceOf(st.sources, integration, source) {
      var up := Upload(source, integration, st.sources[source].slug, now, items);
      UploadedEvents(st, up);
      KeptIsGoodLog(st);
      hide Kept, RowData, CountRows, BaselineRows, BaselineEvents, RowsWithout, DistinctIds, GoodLog, Linked;
      UploadedCounts(st, up, st.nextId);
      forall i | 0 <= i < |items|
        ensures RowData(Uploaded(st, up).rows, st.nextId, items[i].entityId) == [items[i].data]
      {
        UploadedRows(st, up, st.nextId, items[i].entityId);
        OwnItemData(items, i);
      }
      forall s', e | s' != st.nextId
        ensures RowData(Uploaded(st, up).rows, s', e)
                == if IsIn(st.snapshots, integration, st.sources[source].slug, s') then [] else RowData(st.rows, s', e)
      {
        UploadedRows(st, up, s', e);
      }
    }
  }

  lemma UploadedEvents(st: State, up: Upload)
    requires up.source in st.sources
    ensures var log := Uploaded(st, up).log;
            && |log| == |st.log| + |up.items| && st.log <= log
            && forall i :: 0 <= i < |up.items| ==>
                 log[|st.log| + i]
                 == Event(st.nextId + 1 + i, st.nextId, up.items[i].entityId, BaselineImport, up.items[i].data)
  {
    BaselineEventsAt(st.nextId + 1, st.nextId, up.items);
    hide BaselineEvents, BaselineRows, RowsWithout, TableOf;
  }

  lemma {:induction false} OwnItemData(items: seq<Item>, i: nat)
    requires DistinctIds(items) && i < |items|
    ensures ItemData(items, items[i].entityId) == [items[i].data]
  {
    var front, last := items[..|items| - 1], items[|items| - 1];
    if i < |front| {
      OwnItemData(front, i);
    } else {
      NoItemData(front, last.entityId);
    }
  }

  // -------- one entity --------

  /** An entity is created exactly if its id is not blank, there is a payload, and the source has a snapshot. */
  lemma CreateOutcome(st: State, integration: Id, source: Id, rawId: string, payload: Option<map<string, Json>>)
    requires Kept(st)
    ensures var r := Serve(st, Op.CreateEntity(integration, source, rawId, payload));
            var e := Text.TrimSpace(rawId);
            && (r == Err(InvalidInput) <==> e == "" || payload.None?)
            && (r.Ok? <==> e != "" && payload.Some? && IsSourceOf(st.sources, integration, source)
                           && exists s :: IsIn(st.snapshots, integration, st.sources[source].slug, s))
            && (r.Ok? ==>
                  && FindLatest(st.snapshots, integration, st.sources[source].slug).Some?
                  && var s := FindLatest(st.snapshots, integration, st.sources[source].slug).value;
                  && OnlyEntityChanged(st, r.value, s, e, Obj(payload.value))
                  && r.value.log[|st.log|] == Event(st.nextId, s, e, EntityUpsert, Obj(payload.value))
                  && r.value.sources[source].recordCount == CountRows(r.value.rows, s))
  {
    var e := Text.TrimSpace(rawId);
    if IsSourceOf(st.sources, integration, source) {
      SomeSnapshotIff(st.snapshots, integration, st.sources[source].slug);
    }
    hide Kept, FindLatest, Commit, OnlyEntityChanged, CountRows, Text.TrimSpace;
    var plan := PlanCreate(st, integration, source, rawId, payload);
    if plan.Ok? {
      CreatePutsPayload(st, integration, source, rawId, payload.value);
      CommittedEvent(st, plan.value.writes[0], plan.value.counts);
    }
  }

  lemma SomeSnapshotIff(snapshots: map<Id, Snapshot>, integration: Id, table: string)
    ensures FindLatest(snapshots, integration, table).Some? <==> exists s :: IsIn(snapshots, integration, table, s)
  {
    FindLatestIff(snapshots, integration, table);
    hide FindLatest;
    if s :| IsIn(snapshots, integration, table, s) { assert s in TableOf(snapshots, integration, table); }
    if s :| s in TableOf(snapshots, integration, table) { assert IsIn(snapshots, integration, table, s); }
  }

  lemma CommittedEvent(st: State, w: Write, counts: map<Id, Id>)
    requires Commit(st, Plan([w], counts)).Ok?
    ensures |Commit(st, Plan([w], counts)).value.log| == |st.log| + 1
    ensures Commit(st, Plan([w], counts)).value.log[|st.log|]
            == Event(st.nextId, w.snapshot, w.change.entityId, w.change.action, w.change.payload)
  {
    AppliedOne(st, w);
    hide WriteRow, CountRows;
  }

  /** The target is an event of this entity in a snapshot of the table, and resolves to an object. */
  ghost predicate IsTarget(st: State, integration: Id, table: string, e: string, id: Id, ev: Event) {
    && ev in st.log && ev.id == id && ev.entityId == e && IsIn(st.snapshots, integration, table, ev.snapshot)
    && ResolveTargetState(ev.payload).Some? && ResolveTargetState(ev.payload).value.Obj?
  }

  /**
    A rollback succeeds exactly if the trimmed id is not blank and the source's
    timeline of the entity has the event, and this resolves to an object. It puts
    that object into the latest snapshot and logs which event it restored.
   */
  lemma RollbackOutcome(st: State, integration: Id, source: Id, rawId: string, id: Id)
    requires Kept(st)
    ensures var r := Serve(st, Op.RollbackEntity(integration, source, rawId, id));
            var e := Text.TrimSpace(rawId);
            && (r == Err(InvalidInput) <==> e == "")
            && (r.Ok? <==> e != "" && IsSourceOf(st.sources, integration, source)
                           && exists ev :: IsTarget(st, integration, st.sources[source].slug, e, id, ev))
            && forall ev :: r.Ok? && IsTarget(st, integration, st.sources[source].slug, e, id, ev) ==>
                 RolledBackTo(st, r.value, integration, st.sources[source].slug, e, ev)
  {
    var e := Text.TrimSpace(rawId);
    if e != "" && IsSourceOf(st.sources, integration, source) {
      RollbackTargets(st, integration, source, e, id);
    }
    hide Kept, FindLatest, FindEvent, Commit, IsTarget, RolledBackTo, RollbackWrite, Text.TrimSpace;
    var plan := PlanRollback(st, integration, source, rawId, id);
    if plan.Ok? {
      var ev := FindEvent(st, st.log, integration, st.sources[source].slug, e, id).value;
      CleanIdFacts(rawId);
      RollbackPuts(st, integration, source, e, ev, plan.value);
    }
  }

  ghost predicate RolledBackTo(st: State, st': State, integration: Id, table: string, e: string, ev: Event) {
    && ResolveTargetState(ev.payload).Some? && FindLatest(st.snapshots, integration, table).Some?
    && var target, s := ResolveTargetState(ev.payload).value, FindLatest(st.snapshots, integration, table).value;
    && OnlyEntityChanged(st, st', s, e, target)
    && st'.log[|st.log|].action == RollbackCompensation
    && st'.log[|st.log|].payload
       == Obj(map["targetEventId" := Num(ev.id), "before" := CurrentState(st, s, e), "after" := target,
                  "restoredState" := target])
  }

  lemma RollbackTargets(st: State, integration: Id, source: Id, e: string, id: Id)
    requires Kept(st) && e != "" && IsSourceOf(st.sources, integration, source)
    ensures var table := st.sources[source].slug;
            var found := FindEvent(st, st.log, integration, table, e, id);
            && (exists ev :: IsTarget(st, integration, table, e, id, ev))
               == (found.Some? && FindLatest(st.snapshots, integration, table).Some?
                   && RollbackWrite(FindLatest(st.snapshots, integration, table).value, e, found.value,
                                    CurrentState(st, FindLatest(st.snapshots, integration, table).value, e)).Some?)
            && (forall ev :: IsTarget(st, integration, table, e, id, ev) ==> found == Some(ev))
  {
    var table := st.sources[source].slug;
    FindEventFinds(st, st.log, integration, table, e, id);
    SomeSnapshotIff(st.snapshots, integration, table);
    var found, latest := FindEvent(st, st.log, integration, table, e, id), FindLatest(st.snapshots, integration, table);
    assert GoodLog(st) && ObjectRows(st.rows);
    forall ev | IsTarget(st, integration, table, e, id, ev) ensures found == Some(ev) {
      assert Timeline(st, integration, table, e, ev);
      FindEventById(st, integration, table, e, ev);
    }
    if found.Some? && latest.Some? {
      CurrentIsObject(st, latest.value, e);
      assert IsTarget(st, integration, table, e, id, found.value)
             <==> RollbackWrite(latest.value, e, found.value, CurrentState(st, latest.value, e)).Some? by {
        hide Kept, GoodLog, FindEvent, FindLatest, CurrentState, PickTargetState;
      }
    }
    if found.Some? { assert IsIn(st.snapshots, integration, table, found.value.snapshot); }
  }

  lemma RollbackPuts(st: State, integration: Id, source: Id, e: string, ev: Event, plan: Plan)
    requires Kept(st) && CleanId(e) && IsSourceOf(st.sources, integration, source)
    requires FindLatest(st.snapshots, integration, st.sources[source].slug).Some?
    requires var s := FindLatest(st.snapshots, integration, st.sources[source].slug).value;
             var w := RollbackWrite(s, e, ev, CurrentState(st, s, e));
             w.Some? && plan == Plan([w.value], map[source := s])
    ensures Commit(st, plan).Ok?
    ensures RolledBackTo(st, Commit(st, plan).value, integration, st.sources[source].slug, e, ev)
  {
    var s := FindLatest(st.snapshots, integration, st.sources[source].slug).value;
    var w := plan.writes[0];
    LatestIsInSync(st, integration, st.sources[source].slug, s);
    KeptIsGoodLog(st);
    CurrentIsReplay(st, s, e);
    RollbackWriteRecords(s, e, ev, CurrentState(st, s, e));
    hide Kept, InSync, RowData, IsLatest, FindLatest, CleanId, CurrentState, GoodLog, Linked, Commit, OnlyEntityChanged;
    hide Honest, PickTargetState;
    CommitOnePut(st, w, source);
    CommittedEvent(st, w, plan.counts);
  }

  // -------- mutations of a request --------

  ghost function KindIn(m: Mutation): string {
    Text.ToUpper(Text.TrimSpace(m.kind))
  }

  ghost function SlugIn(m: Mutation): string {
    Text.ToLower(Text.TrimSpace(m.sourceSlug))
  }

  /**
    The mutation upserts or deletes, names a source of the integration that has a
    snapshot, and its expressions give an id that is not blank and, to upsert, an
    object.
   */
  ghost predicate Applicable(st: State, integration: Id, m: Mutation, env: Env) {
    && SlugIn(m) != "" && (KindIn(m) == "UPSERT" || KindIn(m) == "DELETE")
    && (exists id :: IsSourceOf(st.sources, integration, id) && st.sources[id].slug == SlugIn(m))
    && (exists s :: IsIn(st.snapshots, integration, SlugIn(m), s))
    && env.text(m.entityIdExpr).Some? && Text.TrimSpace(env.text(m.entityIdExpr).value) != ""
    && (KindIn(m) == "UPSERT" ==> env.value(m.payloadExpr).Some? && env.value(m.payloadExpr).value.Obj?)
  }

  /** What an applicable mutation puts: its payload, or nothing. */
  ghost function Puts(m: Mutation, env: Env): Option<Json> {
    if KindIn(m) == "UPSERT" then env.value(m.payloadExpr) else None
  }

  lemma ResolvesIff(st: State, integration: Id, m: Mutation, env: Env)
    ensures Resolve(st, integration, m, env).Ok? <==> Applicable(st, integration, m, env)
    ensures Resolve(st, integration, m, env).Ok? ==>
              var t := Resolve(st, integration, m, env).value;
              && FindLatest(st.snapshots, integration, SlugIn(m)) == Some(t.snapshot)
              && t.entityId == Text.TrimSpace(env.text(m.entityIdExpr).value) && t.data == Puts(m, env)
  {
    hide Text.TrimSpace, Text.ToUpper, Text.ToLower, FindLatest;
    SomeSnapshotIff(st.snapshots, integration, SlugIn(m));
    var found := FindSource(st.sources, integration, SlugIn(m));
    if found.Some? { assert IsSourceOf(st.sources, integration, found.value); }
    assert KindIn(m) == KindOf(m) && SlugIn(m) == SlugOf(m);
  }

  /** A request is carried out exactly if every mutation is applicable to the store before it; else nothing changes. */
  lemma ExecuteSucceedsIff(st: State, integration: Id, ms: seq<Mutation>, env: Env, scenario: string)
    requires Kept(st)
    ensures Serve(st, Op.Execute(integration, ms, env, scenario)).Ok?
            <==> forall k :: 0 <= k < |ms| ==> Applicable(st, integration, ms[k], env)
  {
    hide Kept, Resolve, Applicable, Commit, GoodBatch, BatchOf;
    BatchIsFold(st, integration, ms, env, scenario);
    forall k | 0 <= k < |ms|
      ensures Resolve(st, integration, ms[k], env).Ok? <==> Applicable(st, integration, ms[k], env)
    {
      ResolvesIff(st, integration, ms[k], env);
    }
    var r := BatchOf(st, integration, ms, env, scenario);
    if r.Ok? { BatchCommits(st, integration, ms, env, scenario, r.value); }
  }

  /** The labels that the events of a request carry. */
  lemma {:induction false} BatchLabels(st: State, integration: Id, ms: seq<Mutation>, env: Env, scenario: string)
    requires BatchOf(st, integration, ms, env, scenario).Ok?
    ensures var writes := BatchOf(st, integration, ms, env, scenario).value.writes;
            && |writes| == |ms|
            && forall k :: 0 <= k < |ms| ==> Labelled(writes[k].change.payload, KindIn(ms[k]), scenario)
  {
    hide Resolve, AppliedAll, CurrentState, Text.TrimSpace, Text.ToUpper;
    if ms != [] {
      var front, m := ms[..|ms| - 1], ms[|ms| - 1];
      BatchLabels(st, integration, front, env, scenario);
      var b := BatchOf(st, integration, front, env, scenario).value;
      var now := AppliedAll(st, b.writes);
      hide BatchOf;
      var t := Resolve(now, integration, m, env).value;
      assert Labelled(MutationWrite(now, t, KindOf(m), scenario).value.change.payload, KindIn(m), scenario);
    }
  }

  ghost predicate Labelled(payload: Json, kind: string, scenario: string) {
    && payload.Obj? && "mutationType" in payload.fields && payload.fields["mutationType"] == Str(kind)
    && "scenario" in payload.fields && payload.fields["scenario"] == Str(Text.TrimSpace(scenario))
  }

  ghost predicate IdIs(m: Mutation, env: Env, e: string) {
    env.text(m.entityIdExpr).Some? && Text.TrimSpace(env.text(m.entityIdExpr).value) == e
  }

  /** The event of the mutation: its snapshot, entity, action, labels, and the state it left. */
  ghost predicate EventOfMutation(ev: Event, s: Id, e: string, m: Mutation, env: Env, scenario: string) {
    && ev.snapshot == s && ev.entityId == e && Labelled(ev.payload, KindIn(m), scenario)
    && "after" in ev.payload.fields
    && (KindIn(m) == "UPSERT" ==>
          ev.action == RuntimeUpsert && Some(ev.payload.fields["after"]) == env.value(m.payloadExpr))
    && (KindIn(m) == "DELETE" ==> ev.action == RuntimeDelete && ev.payload.fields["after"] == Null)
  }

  /** No later mutation is about the same entity of the same source. */
  ghost predicate LastAbout(ms: seq<Mutation>, env: Env, k: nat, e: string) {
    k < |ms| && IdIs(ms[k], env, e)
    && forall j :: k < j < |ms| && SlugIn(ms[j]) == SlugIn(ms[k]) ==> !IdIs(ms[j], env, e)
  }

  /**
    What a request leaves: an event for each mutation, in order, in the latest
    snapshot of its source, and for each entity what the last mutation about it
    says: the payload of an upsert as its only row, no row after a deletion.
   */
  lemma ExecuteOutcome(st: State, integration: Id, ms: seq<Mutation>, env: Env, scenario: string, k: nat, s: Id,
                       e: string)
    requires Kept(st) && forall j :: 0 <= j < |ms| ==> Applicable(st, integration, ms[j], env)
    requires k < |ms| && FindLatest(st.snapshots, integration, SlugIn(ms[k])) == Some(s) && IdIs(ms[k], env, e)
    ensures var r := Serve(st, Op.Execute(integration, ms, env, scenario));
            && r.Ok? && |r.value.log| == |st.log| + |ms| && st.log <= r.value.log
            && EventOfMutation(r.value.log[|st.log| + k], s, e, ms[k], env, scenario)
            && (LastAbout(ms, env, k, e) && KindIn(ms[k]) == "UPSERT" ==>
                  env.value(ms[k].payloadExpr).Some?
                  && RowData(r.value.rows, s, e) == [env.value(ms[k].payloadExpr).value])
            && (LastAbout(ms, env, k, e) && KindIn(ms[k]) == "DELETE" ==> RowData(r.value.rows, s, e) == [])
  {
    hide Kept, BatchOf, Commit, Applicable, Resolve, GoodBatch, Labelled, LastAbout, EventOfMutation, IdIs, Puts;
    ExecuteSucceedsIff(st, integration, ms, env, scenario);
    BatchIsFold(st, integration, ms, env, scenario);
    BatchLabels(st, integration, ms, env, scenario);
    var b := BatchOf(st, integration, ms, env, scenario).value;
    BatchCommits(st, integration, ms, env, scenario, b);
    MutationIsLogged(st, integration, ms, env, scenario, k, b, s, e);
    ResolvesIff(st, integration, ms[k], env);
    if LastAbout(ms, env, k, e) {
      MutationIsLast(st, integration, ms, env, k, b, s, e);
      LatestHasSingleRow(st, integration, ms[k], env, s, e);
      PutsMeans(st, integration, ms[k], env);
    }
  }

  lemma PutsMeans(st: State, integration: Id, m: Mutation, env: Env)
    requires Applicable(st, integration, m, env)
    ensures KindIn(m) == "UPSERT" ==> env.value(m.payloadExpr).Some? && Puts(m, env) == env.value(m.payloadExpr)
    ensures KindIn(m) == "DELETE" ==> Puts(m, env) == None
  {
    hide Text.TrimSpace, Text.ToUpper, Text.ToLower;
  }

  lemma LatestHasSingleRow(st: State, integration: Id, m: Mutation, env: Env, s: Id, e: string)
    requires Kept(st) && Applicable(st, integration, m, env) && IdIs(m, env, e)
    requires FindLatest(st.snapshots, integration, SlugIn(m)) == Some(s)
    ensures |RowData(st.rows, s, e)| <= 1
  {
    hide Kept, Resolve, RowData, IsLatest, Applicable, FindLatest;
    ResolvesIff(st, integration, m, env);
    ResolvedTarget(st, integration, m, env);
    var t := Resolve(st, integration, m, env).value;
    TargetIsInSync(st, integration, t.source, t.snapshot, t.entityId);
  }

  /** The target of a mutation, and its write. */
  lemma WrittenTarget(st: State, integration: Id, ms: seq<Mutation>, env: Env, b: Batch, k: nat, s: Id, e: string)
    requires GoodBatch(st, integration, ms, env, b) && k < |ms| && Applicable(st, integration, ms[k], env)
    requires FindLatest(st.snapshots, integration, SlugIn(ms[k])) == Some(s) && IdIs(ms[k], env, e)
    ensures |b.writes| == |ms|
    ensures var w := b.writes[k];
            && w.snapshot == s && w.change.entityId == e && w.change.data == Puts(ms[k], env)
            && w.change.action == (if w.change.data.Some? then RuntimeUpsert else RuntimeDelete)
            && RecordsAfter(w.change.payload, AsJson(w.change.data))
  {
    hide Resolve, FindLatest, AppliedAll, Text.TrimSpace, Text.ToUpper, Text.ToLower, Applicable, Puts;
    assert WrittenFor(st, integration, ms[k], env, AppliedAll(st, b.writes[..k]), b.writes[k]);
    ResolvesIff(st, integration, ms[k], env);
  }

  lemma MutationIsLogged(st: State, integration: Id, ms: seq<Mutation>, env: Env, scenario: string, k: nat, b: Batch,
                         s: Id, e: string)
    requires GoodBatch(st, integration, ms, env, b) && k < |ms| && Applicable(st, integration, ms[k], env)
    requires FindLatest(st.snapshots, integration, SlugIn(ms[k])) == Some(s) && IdIs(ms[k], env, e)
    requires |b.writes| == |ms| && Labelled(b.writes[k].change.payload, KindIn(ms[k]), scenario)
    requires Commit(st, PlanOf(b)).Ok?
    ensures st.log <= Commit(st, PlanOf(b)).value.log && |Commit(st, PlanOf(b)).value.log| == |st.log| + |ms|
    ensures EventOfMutation(Commit(st, PlanOf(b)).value.log[|st.log| + k], s, e, ms[k], env, scenario)
  {
    hide GoodBatch, Commit, AppliedAll, Applicable, FindLatest, Labelled, IdIs, Puts;
    WrittenTarget(st, integration, ms, env, b, k, s, e);
    PutsMeans(st, integration, ms[k], env);
    Committed(st, PlanOf(b));
    AppliedAllLog(st, b.writes);
    assert Commit(st, PlanOf(b)).value.log[|st.log| + k] == EventOf(st.nextId + k, b.writes[k]);
  }

  /** The last mutation about an entity is the last write to it. */
  lemma MutationIsLast(st: State, integration: Id, ms: seq<Mutation>, env: Env, k: nat, b: Batch, s: Id, e: string)
    requires GoodBatch(st, integration, ms, env, b) && LastAbout(ms, env, k, e)
    requires forall j :: 0 <= j < |ms| ==> Applicable(st, integration, ms[j], env)
    requires FindLatest(st.snapshots, integration, SlugIn(ms[k])) == Some(s)
    ensures LastWrite(b.writes, s, e).Some? && LastWrite(b.writes, s, e).value.data == Puts(ms[k], env)
  {
    hide GoodBatch, Applicable, Puts, RecordsAfter, FindLatest, IdIs;
    WrittenTarget(st, integration, ms, env, b, k, s, e);
    forall j | k < j < |b.writes| ensures !(b.writes[j].snapshot == s && b.writes[j].change.entityId == e) {
      OtherTarget(st, integration, ms, env, b, j);
      if b.writes[j].snapshot == s { SameLatestSameSlug(st.snapshots, integration, SlugIn(ms[j]), SlugIn(ms[k])); }
    }
    LastAt(b.writes, s, e, k);
  }

  lemma OtherTarget(st: State, integration: Id, ms: seq<Mutation>, env: Env, b: Batch, j: nat)
    requires GoodBatch(st, integration, ms, env, b) && j < |ms| && Applicable(st, integration, ms[j], env)
    ensures |b.writes| == |ms| && FindLatest(st.snapshots, integration, SlugIn(ms[j])) == Some(b.writes[j].snapshot)
    ensures IdIs(ms[j], env, b.writes[j].change.entityId)
  {
    hide GoodBatch, FindLatest, Text.TrimSpace, Text.ToUpper, Text.ToLower;
    SomeSnapshotIff(st.snapshots, integration, SlugIn(ms[j]));
    var s, e := FindLatest(st.snapshots, integration, SlugIn(ms[j])).value,
                Text.TrimSpace(env.text(ms[j].entityIdExpr).value);
    WrittenTarget(st, integration, ms, env, b, j, s, e);
  }

  lemma SameLatestSameSlug(snapshots: map<Id, Snapshot>, integration: Id, a: string, b: string)
    requires FindLatest(snapshots, integration, a).Some?
    requires FindLatest(snapshots, integration, a) == FindLatest(snapshots, integration, b)
    ensures a == b
  {
  }

  lemma {:induction false} LastAt(writes: seq<Write>, s: Id, e: string, k: nat)
    requires k < |writes| && writes[k].snapshot == s && writes[k].change.entityId == e
    requires forall j :: k < j < |writes| ==> !(writes[j].snapshot == s && writes[j].change.entityId == e)
    ensures LastWrite(writes, s, e) == Some(writes[k].change)
  {
    if k < |writes| - 1 { LastAt(writes[..|writes| - 1], s, e, k); }
  }

  // -------- full rollbacks --------

  /** The event of a full rollback: its labels, the state before it and the one it left, in full. */
  ghost predicate FullEvent(ev: Event, r: Reading, e: string) {
    && ev.snapshot == r.snapshot && ev.entityId == e
    && var before := if e in r.current then r.current[e] else Null;
    && if e in r.baseline then
         && ev.action == RollbackCompensation
         && ev.payload == Obj(map["rollbackType" := Str("FULL"), "rollbackAction" := Str("UPSERT"),
                                  "targetSnapshotId" := Num(r.initial), "before" := before,
                                  "after" := r.baseline[e], "restoredState" := r.baseline[e]])
       else
         && ev.action == RollbackDeleteCompensation
         && ev.payload == Obj(map["rollbackType" := Str("FULL"), "rollbackAction" := Str("DELETE"),
                                  "targetSnapshotId" := Num(r.initial), "before" := before, "after" := Null])
  }

  ghost function EntityAt(o: Orders, k: nat): string
    requires k < |o.upserts| + |o.removes|
  {
    if k < |o.upserts| then o.upserts[k] else o.removes[k - |o.upserts|]
  }

  /** A full rollback logs the entities that are absent or differ, and then those that the baseline lacks. */
  lemma FullRollbackEvents(st: State, integration: Id, source: Id, o: Orders, k: nat)
    requires Kept(st) && ReadForRollback(st, integration, source).Ok?
    requires OrdersFor(o, ReadForRollback(st, integration, source).value) && k < |o.upserts| + |o.removes|
    ensures var r := ReadForRollback(st, integration, source).value;
            var result := ServeFull(st, integration, source, o);
            && result.Ok? && |result.value.log| == |st.log| + |o.upserts| + |o.removes|
            && FullEvent(result.value.log[|st.log| + k], r, EntityAt(o, k))
  {
    hide Kept, ReadForRollback, Commit, InSync, RowData, FullWrites, OrdersFor, GoodReading, FullEvent, Differing;
    hide Surplus;
    ReadingIsGood(st, integration, source);
    FullRollbackRestores(st, integration, source, o);
    var r := ReadForRollback(st, integration, source).value;
    FullWriteEvent(r, o, k, st.nextId + k);
    assert EventsOf(st.nextId, FullWrites(r, o))[k] == EventOf(st.nextId + k, FullWrites(r, o)[k]);
  }

  lemma FullWriteEvent(r: Reading, o: Orders, k: nat, id: Id)
    requires GoodReading(r) && OrdersFor(o, r) && k < |o.upserts| + |o.removes|
    ensures |FullWrites(r, o)| == |o.upserts| + |o.removes|
    ensures FullEvent(EventOf(id, FullWrites(r, o)[k]), r, EntityAt(o, k))
  {
    hide Enumerates, CleanId;
    if k < |o.upserts| {
      assert o.upserts[k] in o.upserts;
      ListedKey(o.upserts, Differing(r.current, r.baseline), k);
    } else {
      ListedKey(o.removes, Surplus(r.current, r.baseline), k - |o.upserts|);
    }
  }

  lemma ListedKey(order: seq<string>, keys: set<string>, k: nat)
    requires Enumerates(order, keys) && k < |order|
    ensures order[k] in keys
  {
    assert order[k] in order;
  }
}
