/**
  All runs of committed transactions, in any order and however stale the plans:
  each step is one transaction (the driver runs them one at a time), and what it
  writes was decided by reads that any other step may have overtaken.
 */
module InterleavedRuns {
  import opened Wrappers
  import opened EntityStore
  import opened ReplayInvariant

  datatype Step =
    | Create(integration: Id, slug: string)
    | Rename(source: Id, integration: Id, slug: string)
    | Remove(source: Id, integration: Id, slug: string)
    | Transact(plan: Plan)
    | Import(upload: Upload)
    | Recount(source: Id, n: nat)

  ghost function Outcome(st: State, step: Step): Result<State, Error> {
    match step
    case Create(integration, slug) => CreateSource(st, integration, slug)
    case Rename(source, integration, slug) => RenameSource(st, source, integration, slug)
    case Remove(source, integration, slug) => DeleteSource(st, source, integration, slug)
    case Transact(plan) => Commit(st, plan)
    case Import(upload) => CommitUpload(st, upload)
    case Recount(source, n) => SetCount(st, source, n)
  }

  /** WithTx: a step that fails changes nothing. */
  ghost function Take(st: State, step: Step): State {
    match Outcome(st, step)
    case Ok(st') => st'
    case Err(_) => st
  }

  ghost function After(st: State, steps: seq<Step>): State {
    if steps == [] then st else Take(After(st, steps[..|steps| - 1]), steps[|steps| - 1])
  }

  /** A run goes on where the run before it ended. */
  lemma {:induction false} RunsCompose(st: State, a: seq<Step>, b: seq<Step>)
    ensures After(st, a + b) == After(After(st, a), b)
    ensures |b| == 1 ==> After(st, a + b) == Take(After(st, a), b[0])
  {
    hide Take;
    if b == [] {
      assert a + b == a;
    } else {
      assert (a + b)[..|a + b| - 1] == a + b[..|b| - 1];
      RunsCompose(st, a, b[..|b| - 1]);
      assert |b| == 1 ==> After(After(st, a), b[..|b| - 1]) == After(st, a);
    }
  }

  /**
    What a run must respect: plans are honest, uploaded ids are distinct, and an
    upload commits with a time later than every snapshot then in its table.
    Nothing is asked of renames, deletions, recounts or of the age of a plan.
   */
  ghost predicate Admissible(st: State, step: Step) {
    match step
    case Transact(plan) => AllHonest(plan.writes)
    case Import(up) => DistinctIds(up.items) && GoodItems(up.items) && InOrder(st, up)
    case _ => true
  }

  ghost predicate AdmissibleRun(st: State, steps: seq<Step>) {
    steps == []
    || (AdmissibleRun(st, steps[..|steps| - 1]) && Admissible(After(st, steps[..|steps| - 1]), steps[|steps| - 1]))
  }

  const EMPTY := State(map[], map[], [], [], 0)

  lemma EmptyIsKept()
    ensures Kept(EMPTY)
  {
  }

  // -------- renaming --------

  lemma RenameKeeps(st: State, source: Id, integration: Id, slug: string)
    requires Kept(st) && RenameSource(st, source, integration, slug).Ok?
    ensures Kept(RenameSource(st, source, integration, slug).value)
  {
    var st' := RenameSource(st, source, integration, slug).value;
    assert Linked(st') && GoodLog(st') by { hide WellShaped, SlugTaken, LeftState; }
    hide SlugTaken, RowData, Replay, Linked, GoodLog;
    var from := st.sources[source].slug;
    forall s | s in st'.snapshots ensures InSync(st', s) || Superseded(st', s) {
      if !InSync(st, s) {
        var s' :| s' in st.snapshots && Later(st, s', s);
        assert InTable(st.snapshots, integration, from, s) == InTable(st.snapshots, integration, from, s');
        assert Later(st', s', s);
      }
    }
  }

  // -------- deleting --------

  lemma {:induction false} LogWithoutFacts(log: seq<Event>, ids: set<Id>, bound: Id)
    requires forall i :: 0 <= i < |log| ==> log[i].id < bound
    requires forall i, j :: 0 <= i < j < |log| ==> log[i].id < log[j].id
    ensures var r := LogWithout(log, ids);
            && (forall ev :: ev in r ==> ev in log && ev.snapshot !in ids)
            && (forall i :: 0 <= i < |r| ==> r[i].id < bound)
            && (forall i, j :: 0 <= i < j < |r| ==> r[i].id < r[j].id)
  {
    if log != [] {
      LogWithoutFacts(log[..|log| - 1], ids, log[|log| - 1].id);
    }
  }

  lemma DeleteKeepsLinks(st: State, source: Id, integration: Id, slug: string)
    requires Linked(st) && GoodLog(st) && DeleteSource(st, source, integration, slug).Ok?
    ensures var st' := DeleteSource(st, source, integration, slug).value; Linked(st') && GoodLog(st')
  {
    var st' := DeleteSource(st, source, integration, slug).value;
    var ids := TableOf(st.snapshots, integration, slug);
    LogWithoutFacts(st.log, ids, st.nextId);
    RowsWithoutMembers(st.rows, ids);
    hide WellShaped, LeftState, RowsWithout, LogWithout, TableOf, CleanId;
    forall i | 0 <= i < |st'.log|
      ensures st'.log[i].snapshot in st'.snapshots && CleanId(st'.log[i].entityId)
      ensures WellShaped(st'.log[i].action, st'.log[i].payload, LeftState(st'.log[i]))
    {
      assert st'.log[i] in st.log;
    }
  }

  lemma DeleteKeeps(st: State, source: Id, integration: Id, slug: string)
    requires Kept(st) && DeleteSource(st, source, integration, slug).Ok?
    ensures Kept(DeleteSource(st, source, integration, slug).value)
  {
    hide RowData, Replay, Linked, GoodLog, RowsWithout, LogWithout, CleanId;
    DeleteKeepsLinks(st, source, integration, slug);
    var st' := DeleteSource(st, source, integration, slug).value;
    var ids := TableOf(st.snapshots, integration, slug);
    RowsWithoutMembers(st.rows, ids);
    forall s | s in st'.snapshots ensures InSync(st', s) || Superseded(st', s) {
      forall e
        ensures RowData(st'.rows, s, e) == RowData(st.rows, s, e)
        ensures Replay(st'.log, s, e) == Replay(st.log, s, e)
      {
        RowDataWithout(st.rows, ids, s, e);
        ReplayWithout(st.log, ids, s, e);
      }
      if !InSync(st, s) {
        var s' :| s' in st.snapshots && Later(st, s', s);
        assert s' !in ids;
        assert Later(st', s', s);
      }
    }
  }

  // -------- every run --------

  lemma StepKeeps(st: State, step: Step)
    requires Kept(st) && Admissible(st, step)
    ensures Kept(Take(st, step))
  {
    hide Kept, AllHonest, DistinctIds, GoodItems, InOrder;
    if Outcome(st, step).Ok? {
      match step
      case Create(integration, slug) => CreateKeeps(st, integration, slug);
      case Rename(source, integration, slug) => RenameKeeps(st, source, integration, slug);
      case Remove(source, integration, slug) => DeleteKeeps(st, source, integration, slug);
      case Transact(plan) => CommitKeeps(st, plan);
      case Import(up) => UploadKeeps(st, up);
      case Recount(source, n) => RecountKeeps(st, source, n);
    }
  }

  lemma CreateKeeps(st: State, integration: Id, slug: string)
    requires Kept(st) && CreateSource(st, integration, slug).Ok?
    ensures Kept(CreateSource(st, integration, slug).value)
  {
    hide InSync, Superseded, GoodLog, SlugTaken;
    var st' := CreateSource(st, integration, slug).value;
    assert forall i :: i in st'.sources ==> i < st'.nextId;
    hide Kept;
    SourcesDoNotMatter(st, st');
  }

  lemma RecountKeeps(st: State, source: Id, n: nat)
    requires Kept(st) && SetCount(st, source, n).Ok?
    ensures Kept(SetCount(st, source, n).value)
  {
    hide InSync, Superseded, GoodLog;
    var st' := SetCount(st, source, n).value;
    assert forall i :: i in st'.sources ==> i < st'.nextId;
    hide Kept;
    SourcesDoNotMatter(st, st');
  }

  /** The invariant along every run. */
  lemma {:induction false} RunKeeps(st: State, steps: seq<Step>)
    requires Kept(st) && AdmissibleRun(st, steps)
    ensures Kept(After(st, steps))
  {
    hide Kept, Take, Admissible;
    if steps != [] {
      RunKeeps(st, steps[..|steps| - 1]);
      StepKeeps(After(st, steps[..|steps| - 1]), steps[|steps| - 1]);
    }
  }

  /** After every run from the empty store, the latest snapshot of every table shows the replay of its log. */
  lemma ReplayTheorem(steps: seq<Step>, integration: Id, table: string)
    requires AdmissibleRun(EMPTY, steps)
    ensures TableInSync(After(EMPTY, steps), integration, table)
  {
    EmptyIsKept();
    RunKeeps(EMPTY, steps);
    var st := After(EMPTY, steps);
    hide Kept, InSync, IsLatest;
    forall s | s in st.snapshots && IsLatest(st.snapshots, integration, table, s) ensures InSync(st, s) {
      LatestIsInSync(st, integration, table, s);
    }
  }

  // -------- rows are objects --------

  lemma RowsOfKeptAreObjects(st: State)
    requires Kept(st)
    ensures forall r :: r in st.rows ==> r.data.Obj?
  {
    hide Linked, GoodLog, CleanId;
  }

  /** No row of any snapshot, latest or not, is ever anything but a JSON object. */
  lemma StoredRowsAreObjects(steps: seq<Step>)
    requires AdmissibleRun(EMPTY, steps)
    ensures forall r :: r in After(EMPTY, steps).rows ==> r.data.Obj?
  {
    EmptyIsKept();
    RunKeeps(EMPTY, steps);
    hide Kept, After, AdmissibleRun;
    RowsOfKeptAreObjects(After(EMPTY, steps));
  }

  // -------- one row per entity --------

  /** No table constraint says so, but no snapshot, latest or not, ever has two rows for one entity. */
  ghost predicate SingleRows(st: State) {
    forall s, e :: |RowData(st.rows, s, e)| <= 1
  }

  lemma {:induction false} WritesKeepSingle(st: State, writes: seq<Write>)
    requires SingleRows(st)
    ensures SingleRows(AppliedAll(st, writes))
  {
    if writes != [] {
      var front, w := writes[..|writes| - 1], writes[|writes| - 1];
      WritesKeepSingle(st, front);
      var now := AppliedAll(st, front);
      forall s, e ensures |RowData(Applied(now, w).rows, s, e)| <= 1 {
        if w.change.data.Some? {
          RowDataUpsert(now.rows, w.snapshot, w.change.entityId, w.change.data.value, s, e);
        } else {
          RowDataDelete(now.rows, w.snapshot, w.change.entityId, s, e);
        }
        hide RowData, UpsertRow, DeleteRow;
        assert |RowData(now.rows, s, e)| <= 1;
      }
    }
  }

  lemma StepKeepsSingle(st: State, step: Step)
    requires Kept(st) && SingleRows(st) && Admissible(st, step)
    ensures SingleRows(Take(st, step))
  {
    hide Kept, RowData, AppliedAll, AllHonest, KnownSnapshots, InOrder, GoodItems, SlugTaken;
    if Outcome(st, step).Ok? {
      match step
      case Transact(plan) => WritesKeepSingle(st, plan.writes);
      case Import(up) =>
        KeptIsLinked(st);
        DistinctIdsIff(up.items);
        hide DistinctIds, Uploaded, ItemData;
        forall s, e ensures |RowData(Uploaded(st, up).rows, s, e)| <= 1 {
          UploadedRows(st, up, s, e);
          assert |RowData(st.rows, s, e)| <= 1 && |ItemData(up.items, e)| <= 1;
        }
      case Remove(source, integration, slug) =>
        forall s, e ensures |RowData(RowsWithout(st.rows, TableOf(st.snapshots, integration, slug)), s, e)| <= 1 {
          RowDataWithout(st.rows, TableOf(st.snapshots, integration, slug), s, e);
        }
      case _ =>
    }
  }

  lemma KeptIsLinked(st: State)
    requires Kept(st)
    ensures Linked(st)
  {
  }

  lemma {:induction false} RunKeepsSingle(st: State, steps: seq<Step>)
    requires Kept(st) && SingleRows(st) && AdmissibleRun(st, steps)
    ensures SingleRows(After(st, steps))
  {
    hide Kept, SingleRows, Take, Admissible;
    if steps != [] {
      var front := steps[..|steps| - 1];
      RunKeepsSingle(st, front);
      RunKeeps(st, front);
      StepKeepsSingle(After(st, front), steps[|steps| - 1]);
    }
  }

  // -------- why uploads must have distinct ids --------

  /** Two uploaded rows with one id: two working rows, of which a replay knows one. */
  lemma DuplicateIdsLoseSync(st: State, up: EntityStore.Upload)
    requires Kept(st) && up.source in st.sources && InOrder(st, up) && !DistinctIds(up.items)
    ensures !TableInSync(Uploaded(st, up), up.integration, up.table)
  {
    hide Kept, DistinctIds, EmptyReplay;
    UploadSafeIff(st, up);
  }
}
