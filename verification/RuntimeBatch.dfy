/**
  The mutations of one runtime request, applied in one transaction:
  applyRuntimeMutations
  (apps/api/internal/core/usecase/runtime_gateway_service.go). Expressions are
  evaluated in the environment built before the transaction.
 */
module RuntimeBatch {
  import opened Wrappers
  import opened Payloads
  import opened EntityStore
  import opened ReplayInvariant
  import opened Operations
  import opened FullRollback
  import Text

  datatype Mutation = Mutation(kind: string, sourceSlug: string, entityIdExpr: string, payloadExpr: string)

  /** Compiling and running an expression in the fixed environment: a value, or None for an error. */
  datatype Env = Env(text: string -> Option<string>, value: string -> Option<Json>)

  /** FindByIntegrationAndSlug. */
  ghost function FindSource(sources: map<Id, Source>, integration: Id, slug: string): (r: Option<Id>)
    ensures r.Some? ==>
              r.value in sources && sources[r.value].integration == integration && sources[r.value].slug == slug
    ensures r.None? ==>
              forall id :: id in sources ==> !(sources[id].integration == integration && sources[id].slug == slug)
  {
    if id :| id in sources && sources[id].integration == integration && sources[id].slug == slug then Some(id) else None
  }

  /** Where a mutation writes, and what; None deletes. */
  datatype Target = Target(source: Id, snapshot: Id, entityId: string, data: Option<Json>)

  function KindOf(m: Mutation): string {
    Text.ToUpper(Text.TrimSpace(m.kind))
  }

  function SlugOf(m: Mutation): string {
    Text.ToLower(Text.TrimSpace(m.sourceSlug))
  }

  /** The checks of one turn of the loop, in the order of the code. */
  ghost function Resolve(st: State, integration: Id, m: Mutation, env: Env): Result<Target, Error> {
    if KindOf(m) == "" || SlugOf(m) == "" then Err(Semantic)
    else match FindSource(st.sources, integration, SlugOf(m))
      case None => Err(NotFound)
      case Some(source) =>
        match FindLatest(st.snapshots, integration, SlugOf(m))
        case None => Err(NotFound)
        case Some(s) => ResolveEntity(source, s, m, env)
  }

  function ResolveEntity(source: Id, s: Id, m: Mutation, env: Env): Result<Target, Error> {
    match env.text(m.entityIdExpr)
    case None => Err(Semantic)
    case Some(text) =>
      var e := Text.TrimSpace(text);
      if e == "" then Err(Semantic)
      else if KindOf(m) == "UPSERT" then ResolvePayload(Target(source, s, e, None), m, env)
      else if KindOf(m) == "DELETE" then Ok(Target(source, s, e, None))
      else Err(Semantic)
  }

  function ResolvePayload(t: Target, m: Mutation, env: Env): Result<Target, Error> {
    match env.value(m.payloadExpr)
    case None => Err(Semantic)
    case Some(data) => if data.Obj? then Ok(t.(data := Some(data))) else Err(Semantic)
  }

  function AsJson(data: Option<Json>): Json {
    match data
    case None => Null
    case Some(d) => d
  }

  function ActionOf(t: Target): Action {
    if t.data.Some? then RuntimeUpsert else RuntimeDelete
  }

  /** The row and event of a resolved mutation, on the state it meets. */
  function MutationWrite(st: State, t: Target, kind: string, scenario: string): Option<Write> {
    match RuntimePayload(CurrentState(st, t.snapshot, t.entityId), AsJson(t.data), kind, Text.TrimSpace(scenario))
    case None => None
    case Some(payload) => Some(Write(t.snapshot, Change(t.entityId, t.data, ActionOf(t), payload)))
  }

  /** What the loop has written so far, and the touched sources with their snapshots. */
  datatype Batch = Batch(writes: seq<Write>, touched: map<Id, Id>)

  ghost function Turn(st: State, integration: Id, b: Batch, m: Mutation, env: Env,
                      scenario: string): Result<Batch, Error> {
    var now := AppliedAll(st, b.writes);
    match Resolve(now, integration, m, env)
    case Err(error) => Err(error)
    case Ok(t) =>
      match MutationWrite(now, t, KindOf(m), scenario)
      case None => Err(Semantic)
      case Some(w) => Ok(Batch(b.writes + [w], b.touched[t.source := t.snapshot]))
  }

  /** The left fold of the mutations. */
  ghost function BatchOf(st: State, integration: Id, ms: seq<Mutation>, env: Env,
                         scenario: string): Result<Batch, Error> {
    if ms == [] then Ok(Batch([], map[]))
    else match BatchOf(st, integration, ms[..|ms| - 1], env, scenario)
      case Err(error) => Err(error)
      case Ok(b) => Turn(st, integration, b, ms[|ms| - 1], env, scenario)
  }

  function PlanOf(b: Batch): Plan {
    Plan(b.writes, b.touched)
  }

  // -------- what a batch is --------

  /**
    A write is what its mutation resolves to on the state before the batch; only "before" depends on
    the writes in between.
   */
  ghost predicate WrittenFor(st: State, integration: Id, m: Mutation, env: Env, now: State, w: Write) {
    var r := Resolve(st, integration, m, env);
    && r.Ok? && w.snapshot == r.value.snapshot && w.change.entityId == r.value.entityId
    && w.change.data == r.value.data && w.change.action == ActionOf(r.value)
    && RecordsAfter(w.change.payload, AsJson(r.value.data))
    && w.change.payload.fields["before"] == CurrentState(now, w.snapshot, w.change.entityId)
  }

  ghost predicate GoodBatch(st: State, integration: Id, ms: seq<Mutation>, env: Env, b: Batch) {
    && |b.writes| == |ms|
    && (forall i :: 0 <= i < |ms| ==>
          WrittenFor(st, integration, ms[i], env, AppliedAll(st, b.writes[..i]), b.writes[i]))
    && AllHonest(b.writes) && KnownSnapshots(st, b.writes)
    && (forall i :: 0 <= i < |ms| ==> Touches(st, integration, ms[i], env, b.touched))
    && (forall id :: id in b.touched ==> TouchedBy(st, integration, id, b.touched[id]))
  }

  ghost predicate Touches(st: State, integration: Id, m: Mutation, env: Env, touched: map<Id, Id>) {
    var r := Resolve(st, integration, m, env);
    r.Ok? && r.value.source in touched
  }

  /** The source is one of the integration's, and the snapshot is the latest of its table. */
  ghost predicate TouchedBy(st: State, integration: Id, id: Id, s: Id) {
    HasSource(st, integration, id) && FindLatest(st.snapshots, integration, st.sources[id].slug) == Some(s)
  }

  lemma ResolveIsFixed(st: State, writes: seq<Write>, integration: Id, m: Mutation, env: Env)
    ensures Resolve(AppliedAll(st, writes), integration, m, env) == Resolve(st, integration, m, env)
  {
    hide ResolveEntity;
  }

  lemma ResolvedTarget(st: State, integration: Id, m: Mutation, env: Env)
    requires Resolve(st, integration, m, env).Ok?
    ensures var t := Resolve(st, integration, m, env).value;
            && HasSource(st, integration, t.source)
            && FindLatest(st.snapshots, integration, st.sources[t.source].slug) == Some(t.snapshot)
            && IsLatest(st.snapshots, integration, st.sources[t.source].slug, t.snapshot)
            && CleanId(t.entityId) && (t.data.Some? ==> t.data.value.Obj?)
  {
    var text := env.text(m.entityIdExpr);
    if text.Some? { CleanIdFacts(text.value); }
    hide IsLatest, KindOf, SlugOf, Text.TrimSpace, CleanId;
  }

  /** On stored states the payload of a mutation is always built, and its write is honest. */
  lemma MutationWriteIsHonest(st: State, t: Target, kind: string, scenario: string)
    requires ObjectOrNull(CurrentState(st, t.snapshot, t.entityId)) && (t.data.Some? ==> t.data.value.Obj?)
    requires CleanId(t.entityId)
    ensures var w := MutationWrite(st, t, kind, scenario);
            && w.Some? && Honest(w.value.change) && RecordsAfter(w.value.change.payload, AsJson(t.data))
            && w.value.change.payload.fields["before"] == CurrentState(st, t.snapshot, t.entityId)
            && w.value.snapshot == t.snapshot && w.value.change.entityId == t.entityId
            && w.value.change.data == t.data && w.value.change.action == ActionOf(t)
  {
    hide CurrentState, CleanId;
    BuildersRecord(CurrentState(st, t.snapshot, t.entityId), AsJson(t.data), 0, kind, Text.TrimSpace(scenario));
    hide Text.TrimSpace;
  }

  /** One more turn: it fails exactly if its mutation does not resolve, whatever the batch wrote before. */
  lemma TurnKeeps(st: State, integration: Id, ms: seq<Mutation>, env: Env, scenario: string, b: Batch, m: Mutation)
    requires Kept(st) && GoodBatch(st, integration, ms, env, b)
    ensures var r := Turn(st, integration, b, m, env, scenario);
            && (r.Ok? <==> Resolve(st, integration, m, env).Ok?)
            && (r.Ok? ==> GoodBatch(st, integration, ms + [m], env, r.value))
  {
    var now := AppliedAll(st, b.writes);
    ResolveIsFixed(st, b.writes, integration, m, env);
    hide Kept, Resolve, AppliedAll;
    if Resolve(st, integration, m, env).Ok? {
      var t := Resolve(st, integration, m, env).value;
      ResolvedTarget(st, integration, m, env);
      WritesKeep(st, b.writes);
      TargetIsInSync(now, integration, t.source, t.snapshot, t.entityId);
      MutationWriteIsHonest(now, t, KindOf(m), scenario);
      var w := MutationWrite(now, t, KindOf(m), scenario).value;
      hide MutationWrite, CurrentState, KindOf, IsLatest, Honest, RecordsAfter;
      TurnGrows(st, integration, ms, env, b, m, w);
    }
  }

  lemma TargetIsInSync(st: State, integration: Id, source: Id, s: Id, e: string)
    requires Kept(st) && HasSource(st, integration, source)
    requires IsLatest(st.snapshots, integration, st.sources[source].slug, s)
    ensures InSync(st, s) && ObjectOrNull(CurrentState(st, s, e))
  {
    LatestIsInSync(st, integration, st.sources[source].slug, s);
    CurrentIsReplay(st, s, e);
  }

  lemma TurnGrows(st: State, integration: Id, ms: seq<Mutation>, env: Env, b: Batch, m: Mutation, w: Write)
    requires GoodBatch(st, integration, ms, env, b)
    requires WrittenFor(st, integration, m, env, AppliedAll(st, b.writes), w) && Honest(w.change)
    requires w.snapshot in st.snapshots
    requires Resolve(st, integration, m, env).Ok?
    requires var t := Resolve(st, integration, m, env).value;
             HasSource(st, integration, t.source)
             && FindLatest(st.snapshots, integration, st.sources[t.source].slug) == Some(t.snapshot)
    ensures var t := Resolve(st, integration, m, env).value;
            GoodBatch(st, integration, ms + [m], env, Batch(b.writes + [w], b.touched[t.source := t.snapshot]))
  {
    hide Resolve, WrittenFor, Honest, AppliedAll, FindLatest;
    var t := Resolve(st, integration, m, env).value;
    var ms', ws' := ms + [m], b.writes + [w];
    forall i | 0 <= i < |ms'| ensures WrittenFor(st, integration, ms'[i], env, AppliedAll(st, ws'[..i]), ws'[i]) {
      if i < |ms| {
        assert ws'[..i] == b.writes[..i];
      } else {
        assert ws'[..i] == b.writes;
      }
    }
    forall i | 0 <= i < |ms'| ensures Touches(st, integration, ms'[i], env, b.touched[t.source := t.snapshot]) {
      if i < |ms| { assert Touches(st, integration, ms[i], env, b.touched); }
    }
  }

  /**
    A batch succeeds exactly if every mutation resolves on the state before it,
    and then it is the plan those mutations describe: one write per mutation,
    in order, each with the entity and data of the fixed environment.
   */
  lemma {:induction false} BatchIsFold(st: State, integration: Id, ms: seq<Mutation>, env: Env, scenario: string)
    requires Kept(st)
    ensures var r := BatchOf(st, integration, ms, env, scenario);
            && (r.Ok? <==> forall i :: 0 <= i < |ms| ==> Resolve(st, integration, ms[i], env).Ok?)
            && (r.Ok? ==> GoodBatch(st, integration, ms, env, r.value))
  {
    hide Kept, Resolve, GoodBatch, Turn;
    if ms == [] {
      EmptyBatch(st, integration, env);
    } else {
      var front, m := ms[..|ms| - 1], ms[|ms| - 1];
      BatchIsFold(st, integration, front, env, scenario);
      assert ms == front + [m];
      var r := BatchOf(st, integration, front, env, scenario);
      if r.Ok? {
        TurnKeeps(st, integration, front, env, scenario, r.value, m);
      }
    }
  }

  lemma EmptyBatch(st: State, integration: Id, env: Env)
    ensures GoodBatch(st, integration, [], env, Batch([], map[]))
  {
  }

  /** A batch that succeeds commits, keeps the invariant, and leaves for every entity what its last mutation says. */
  lemma BatchCommits(st: State, integration: Id, ms: seq<Mutation>, env: Env, scenario: string, b: Batch)
    requires Kept(st) && BatchOf(st, integration, ms, env, scenario) == Ok(b)
    ensures var r := Commit(st, PlanOf(b));
            && r.Ok? && Kept(r.value) && |r.value.log| == |st.log| + |ms|
            && (forall s, e :: |RowData(st.rows, s, e)| <= 1 ==>
                  RowData(r.value.rows, s, e)
                  == match LastWrite(b.writes, s, e)
                     case None => RowData(st.rows, s, e)
                     case Some(c) => Listed(c.data))
  {
    BatchIsFold(st, integration, ms, env, scenario);
    assert b.touched.Keys <= st.sources.Keys by {
      hide Kept, AllHonest, KnownSnapshots, BatchOf;
      forall id | id in b.touched ensures id in st.sources {
        assert TouchedBy(st, integration, id, b.touched[id]);
      }
    }
    assert AllHonest(b.writes) && KnownSnapshots(st, b.writes) && |b.writes| == |ms|;
    AppliedAllLog(st, b.writes);
    hide Kept, BatchOf, GoodBatch, AllHonest, KnownSnapshots, RowData, AppliedAll, LastWrite;
    CommitKeeps(st, PlanOf(b));
    forall s, e | |RowData(st.rows, s, e)| <= 1
      ensures RowData(AppliedAll(st, b.writes).rows, s, e)
           == match LastWrite(b.writes, s, e) { case None => RowData(st.rows, s, e) case Some(c) => Listed(c.data) }
    {
      LastWriteWins(st, b.writes, s, e);
    }
  }
}
