/**
  Transactions that were decided before others committed: what a stale plan, a
  stale deletion or a stale count does to the rest of the store
  (apps/api/internal/core/usecase/data_source_service.go and
  data_debugger_service.go).
 */
module StaleTransactions {
  import opened Wrappers
  import opened Payloads
  import opened EntityStore
  import opened ReplayInvariant
  import opened InterleavedRuns
  import opened Operations
  import opened FullRollback
  import opened SequentialRuns
  import opened SourceLife

  // -------- counts when plans are stale --------

  /** Every write goes to a snapshot that the plan counts. */
  ghost predicate Targeted(plan: Plan) {
    forall w :: w in plan.writes ==> Counts(plan, w.snapshot)
  }

  ghost predicate Counts(plan: Plan, s: Id) {
    exists id :: id in plan.counts && plan.counts[id] == s
  }

  /** Fresh or stale, the plan counts only snapshots of the tables its sources have now. */
  ghost predicate CountsOwn(st: State, plan: Plan) {
    forall id :: id in plan.counts ==> Owns(st.sources, id, st.snapshots, plan.counts[id])
  }

  /** The entities that have a row in the snapshot. */
  function Entities(rows: seq<Row>, s: Id): set<string> {
    set row | row in rows && row.snapshot == s :: row.entityId
  }

  /** What the writes mean to leave in the snapshot: the entities there, less the touched ones, and those put last. */
  function EntitiesAfter(there: set<string>, writes: seq<Write>, s: Id): set<string> {
    (set e | e in there && LastWrite(writes, s, e) == None) + PutLast(writes, s)
  }

  function PutLast(writes: seq<Write>, s: Id): set<string> {
    set w | w in writes && w.snapshot == s && PutsLast(writes, s, w.change.entityId) :: w.change.entityId
  }

  predicate PutsLast(writes: seq<Write>, s: Id, e: string) {
    LastWrite(writes, s, e).Some? && LastWrite(writes, s, e).value.data.Some?
  }

  /**
    Read off the store before the plan: the entities there, less the touched ones,
    and those it puts are as many as the source counts.
   */
  ghost predicate Unmoved(st: State, plan: Plan, id: Id)
    requires id in plan.counts && id in st.sources
  {
    var s := plan.counts[id];
    |EntitiesAfter(Entities(st.rows, s), plan.writes, s)| == st.sources[id].recordCount
  }

  /** The plan does not count the source, or its latest snapshot, or one that will have as many rows as it says. */
  ghost predicate CountStays(st: State, plan: Plan, id: Id)
    requires id in st.sources
  {
    id in plan.counts ==> LatestOf(st, id, plan.counts[id]) || Unmoved(st, plan, id)
  }

  lemma {:induction false} EntityHasRow(rows: seq<Row>, s: Id, e: string)
    ensures e in Entities(rows, s) <==> RowData(rows, s, e) != []
  {
    if rows != [] {
      var front, last := rows[..|rows| - 1], rows[|rows| - 1];
      EntityHasRow(front, s, e);
      assert forall row :: row in rows <==> row in front || row == last;
    }
  }

  /** Where no entity has two rows, the rows are as many as the entities. */
  lemma {:induction false} CountIsEntities(rows: seq<Row>, s: Id)
    requires forall e :: |RowData(rows, s, e)| <= 1
    ensures CountRows(rows, s) == |Entities(rows, s)|
  {
    if rows != [] {
      var front, last := rows[..|rows| - 1], rows[|rows| - 1];
      assert forall row :: row in rows <==> row in front || row == last;
      forall e ensures |RowData(front, s, e)| <= 1 {
        assert RowData(rows, s, e) == RowData(front, s, e) + IfRow(last, s, e);
      }
      CountIsEntities(front, s);
      if last.snapshot == s {
        assert |RowData(rows, s, last.entityId)| <= 1;
        EntityHasRow(front, s, last.entityId);
        assert Entities(rows, s) == Entities(front, s) + {last.entityId};
      } else {
        assert Entities(rows, s) == Entities(front, s);
      }
    }
  }

  lemma {:induction false} LastWriteIsWritten(writes: seq<Write>, s: Id, e: string)
    ensures LastWrite(writes, s, e).Some? ==> exists w :: w in writes && w.snapshot == s && w.change.entityId == e
  {
    if writes != [] && LastWrite(writes, s, e).Some? {
      var front, w := writes[..|writes| - 1], writes[|writes| - 1];
      if w.snapshot == s && w.change.entityId == e {
        assert w in writes;
      } else {
        LastWriteIsWritten(front, s, e);
        assert forall x :: x in front ==> x in writes;
      }
    }
  }

  /** The plan leaves as many rows in a snapshot as its writes leave entities there. */
  lemma RowsAfterPlan(st: State, writes: seq<Write>, s: Id)
    requires SingleRows(st)
    ensures CountRows(AppliedAll(st, writes).rows, s) == |EntitiesAfter(Entities(st.rows, s), writes, s)|
  {
    WritesKeepSingle(st, writes);
    var rows := AppliedAll(st, writes).rows;
    CountIsEntities(rows, s);
    hide SingleRows, RowData, CountRows, AppliedAll, LastWrite, Entities;
    forall e ensures e in Entities(rows, s) <==> e in EntitiesAfter(Entities(st.rows, s), writes, s) {
      EntityAfterPlan(st, writes, s, e);
    }
    assert Entities(rows, s) == EntitiesAfter(Entities(st.rows, s), writes, s);
  }

  lemma EntityAfterPlan(st: State, writes: seq<Write>, s: Id, e: string)
    requires SingleRows(st)
    ensures e in Entities(AppliedAll(st, writes).rows, s) <==> e in EntitiesAfter(Entities(st.rows, s), writes, s)
  {
    assert |RowData(st.rows, s, e)| <= 1;
    hide RowData, AppliedAll, LastWrite, Entities, SingleRows;
    EntityHasRow(AppliedAll(st, writes).rows, s, e);
    EntityHasRow(st.rows, s, e);
    LastWriteWins(st, writes, s, e);
    LastWriteIsWritten(writes, s, e);
  }

  /** A snapshot that no source of the plan counts is not written. */
  lemma OthersNotWritten(st: State, plan: Plan, id: Id, s: Id)
    requires UniqueSlugs(st.sources) && Targeted(plan) && CountsOwn(st, plan) && Owns(st.sources, id, st.snapshots, s)
    requires id in plan.counts ==> plan.counts[id] != s
    ensures forall w :: w in plan.writes ==> w.snapshot != s
  {
    forall w | w in plan.writes ensures w.snapshot != s {
      assert Counts(plan, w.snapshot);
      var other :| other in plan.counts && plan.counts[other] == w.snapshot;
      assert Owns(st.sources, other, st.snapshots, w.snapshot);
    }
  }

  lemma CommittedCount(st: State, plan: Plan, id: Id)
    requires UniqueSlugs(st.sources) && CountsAreRight(st) && Targeted(plan) && CountsOwn(st, plan) && id in st.sources
    requires SingleRows(st) && Commit(st, plan).Ok?
    ensures var st' := Commit(st, plan).value;
            && id in st'.sources
            && (CountIsRight(st', id) <==> CountStays(st, plan, id))
  {
    if id in plan.counts { RowsAfterPlan(st, plan.writes, plan.counts[id]); }
    hide AppliedAll, CountRows, FindLatest, UniqueSlugs, Targeted, KnownSnapshots, CountsOwn, SingleRows;
    hide Entities, EntitiesAfter;
    var st' := Commit(st, plan).value;
    var latest := FindLatest(st.snapshots, st.sources[id].integration, st.sources[id].slug);
    assert CountIsRight(st, id);
    assert id in plan.counts ==> st'.sources[id].recordCount == CountRows(st'.rows, plan.counts[id]);
    assert id !in plan.counts ==> st'.sources[id].recordCount == st.sources[id].recordCount;
    Committed(st, plan);
    hide Commit, AppliedAll, CountRows, FindLatest, CountsAreRight, UniqueSlugs, Targeted;
    if id in plan.counts { SomeLatest(st, plan, id); }
    if latest.Some? && (id in plan.counts ==> plan.counts[id] != latest.value) {
      OthersNotWritten(st, plan, id, latest.value);
      UnwrittenSnapshot(st, plan.writes, latest.value, "");
    }
  }

  lemma SomeLatest(st: State, plan: Plan, id: Id)
    requires CountsOwn(st, plan) && id in plan.counts
    ensures id in st.sources && FindLatest(st.snapshots, st.sources[id].integration, st.sources[id].slug).Some?
  {
    assert Owns(st.sources, id, st.snapshots, plan.counts[id]);
    FindLatestIff(st.snapshots, st.sources[id].integration, st.sources[id].slug);
    assert plan.counts[id] in TableOf(st.snapshots, st.sources[id].integration, st.sources[id].slug);
  }

  /**
    In a store whose counts are right, carrying out a plan of any age keeps all
    of them right exactly if every snapshot it counted is still the latest of its
    source, or the entities it holds now and those the plan puts into it happen to
    be as many as the count says. No store of a run has two rows for one entity.
   */
  lemma CommittedCountsAreRightIff(st: State, plan: Plan)
    requires UniqueSlugs(st.sources) && CountsAreRight(st) && Targeted(plan) && CountsOwn(st, plan)
    requires SingleRows(st) && Commit(st, plan).Ok?
    ensures CountsAreRight(Commit(st, plan).value) <==> forall id :: id in st.sources ==> CountStays(st, plan, id)
  {
    var st' := Commit(st, plan).value;
    Committed(st, plan);
    hide Commit, UniqueSlugs, Targeted, CountIsRight, CountStays, AppliedAll, CountsOwn, SingleRows;
    forall id | id in st.sources ensures CountIsRight(st', id) <==> CountStays(st, plan, id) {
      CommittedCount(st, plan, id);
    }
  }

  /**
    For the creation or the rollback of one entity, overtaken by an upload: right
    exactly if the old snapshot, with the new row if the entity had none, has as
    many rows as the new one.
   */
  lemma OvertakenPutCountIff(st: State, w: Write, id: Id)
    requires id in st.sources && CountIsRight(st, id) && w.snapshot in st.snapshots && w.change.data.Some?
    requires !LatestOf(st, id, w.snapshot) && Owns(st.sources, id, st.snapshots, w.snapshot)
    ensures var r := Commit(st, Plan([w], map[id := w.snapshot]));
            var added := if RowData(st.rows, w.snapshot, w.change.entityId) == [] then 1 else 0;
            && r.Ok?
            && (CountIsRight(r.value, id) <==> CountRows(st.rows, w.snapshot) + added == st.sources[id].recordCount)
  {
    AppliedOne(st, w);
    PutCount(st.rows, w.snapshot, w.change.entityId, w.change.data.value);
    FindLatestIff(st.snapshots, st.sources[id].integration, st.sources[id].slug);
    assert w.snapshot in TableOf(st.snapshots, st.sources[id].integration, st.sources[id].slug);
    var latest := FindLatest(st.snapshots, st.sources[id].integration, st.sources[id].slug).value;
    WrittenRow(st, w, latest, "");
    hide RowData, CountRows, FindLatest, UpsertRow, TableOf;
  }

  lemma PutCount(rows: seq<Row>, s: Id, e: string, data: Json)
    ensures CountRows(UpsertRow(rows, s, e, data), s) == CountRows(rows, s) + if RowData(rows, s, e) == [] then 1 else 0
  {
    RowDataReplace(rows, s, e, data, s, e);
    RowDataAppend(rows, [Row(s, e, data)], s, e);
    OneRow(Row(s, e, data), s, e);
    hide RowData, CountRows, ReplaceRows;
  }

  // -------- a deletion overtaken by a rename --------

  /** The source is gone, everything of the others is as it was, and owners and counts are right. */
  ghost predicate OnlyGone(st: State, st': State, source: Id) {
    && Tallied(st')
    && st'.sources == (map id | id in st.sources && id != source :: st.sources[id])
    && forall id, s :: id != source && Owns(st.sources, id, st.snapshots, s) ==> Untouched(st, st', id, s)
  }

  ghost predicate Untouched(st: State, st': State, id: Id, s: Id) {
    && Owns(st'.sources, id, st'.snapshots, s)
    && CountRows(st'.rows, s) == CountRows(st.rows, s)
    && forall e :: RowData(st'.rows, s, e) == RowData(st.rows, s, e) && Replay(st'.log, s, e) == Replay(st.log, s, e)
  }

  lemma OwnDeletion(st: State, source: Id)
    requires Tallied(st) && source in st.sources
    ensures var st' := DeleteSource(st, source, st.sources[source].integration, st.sources[source].slug).value;
            OnlyGone(st, st', source) && (Good(st) ==> Good(st'))
  {
    DeleteKeepsGood(st, source);
    SourcesAfterDeletion(st, source);
    assert UniqueSlugs(st.sources);
    hide Good, Tallied, DeleteSource, Untouched, Owns, UniqueSlugs;
    var st' := DeleteSource(st, source, st.sources[source].integration, st.sources[source].slug).value;
    forall id, s | id != source && Owns(st.sources, id, st.snapshots, s) ensures Untouched(st, st', id, s) {
      OwnDeletionSpares(st, source, id, s);
    }
  }

  lemma SourcesAfterDeletion(st: State, source: Id)
    requires source in st.sources
    ensures var st' := DeleteSource(st, source, st.sources[source].integration, st.sources[source].slug).value;
            st'.sources == map id | id in st.sources && id != source :: st.sources[id]
  {
  }

  lemma OwnDeletionSpares(st: State, source: Id, id: Id, s: Id)
    requires UniqueSlugs(st.sources) && source in st.sources && id != source && Owns(st.sources, id, st.snapshots, s)
    ensures Untouched(st, DeleteSource(st, source, st.sources[source].integration, st.sources[source].slug).value, id,
                      s)
  {
    var ids := TableOf(st.snapshots, st.sources[source].integration, st.sources[source].slug);
    var st' := DeleteSource(st, source, st.sources[source].integration, st.sources[source].slug).value;
    assert s !in ids;
    assert Owns(st'.sources, id, st'.snapshots, s) && st'.rows == RowsWithout(st.rows, ids)
           && st'.log == LogWithout(st.log, ids);
    hide DeleteSource, RowData, CountRows, Replay, RowsWithout, LogWithout, TableOf;
    RowDataWithout(st.rows, ids, s, "");
    forall e
      ensures RowData(st'.rows, s, e) == RowData(st.rows, s, e) && Replay(st'.log, s, e) == Replay(st.log, s, e)
    {
      RowDataWithout(st.rows, ids, s, e);
      ReplayWithout(st.log, ids, s, e);
    }
  }

  /** A deletion only looks at the set of snapshots its slug names. */
  lemma SameTableSameDeletion(st: State, source: Id, integration: Id, a: string, b: string)
    requires TableOf(st.snapshots, integration, a) == TableOf(st.snapshots, integration, b)
    ensures DeleteSource(st, source, integration, a) == DeleteSource(st, source, integration, b)
  {
  }

  /** With another slug the snapshots of the source stay, without an owner. */
  lemma ForeignSlugOrphans(st: State, source: Id, slug: string)
    requires UniqueSlugs(st.sources) && source in st.sources && slug != st.sources[source].slug
    requires TableOf(st.snapshots, st.sources[source].integration, st.sources[source].slug) != {}
    ensures !Owned(DeleteSource(st, source, st.sources[source].integration, slug).value)
  {
    var integration, own := st.sources[source].integration, st.sources[source].slug;
    var s :| s in TableOf(st.snapshots, integration, own);
    var st' := DeleteSource(st, source, integration, slug).value;
    hide RowsWithout, LogWithout;
    assert s in st'.snapshots;
    assert forall id :: !Owns(st'.sources, id, st'.snapshots, s);
  }

  /** And everything of the table with that slug goes, whoever owns it. */
  lemma ForeignSlugWipes(st: State, source: Id, slug: string)
    requires Owned(st) && source in st.sources && slug != st.sources[source].slug
    requires TableOf(st.snapshots, st.sources[source].integration, slug) != {}
    ensures !OnlyGone(st, DeleteSource(st, source, st.sources[source].integration, slug).value, source)
  {
    var integration := st.sources[source].integration;
    var s :| s in TableOf(st.snapshots, integration, slug);
    var st' := DeleteSource(st, source, integration, slug).value;
    var id :| Owns(st.sources, id, st.snapshots, s);
    hide RowsWithout, LogWithout, Tallied;
    assert s !in st'.snapshots;
    assert !Untouched(st, st', id, s);
  }

  /**
    Delete uses the slug it read before its transaction. Exactly when that is
    harmless, at any moment of a run whose counts are right: if the slug is still
    the source's, or neither slug names a snapshot. Then recorded states, where
    they were right, stay right as well.
   */
  lemma DeleteIsHarmlessIff(st: State, source: Id, slug: string)
    requires Tallied(st) && source in st.sources
    ensures var integration, own := st.sources[source].integration, st.sources[source].slug;
            var st' := DeleteSource(st, source, integration, slug).value;
            && (OnlyGone(st, st', source)
                <==> || slug == own
                     || (TableOf(st.snapshots, integration, own) == {}
                         && TableOf(st.snapshots, integration, slug) == {}))
            && (OnlyGone(st, st', source) && Good(st) ==> Good(st'))
  {
    var integration, own := st.sources[source].integration, st.sources[source].slug;
    assert Owned(st) && UniqueSlugs(st.sources);
    hide Kept, Owned, UniqueSlugs, DistinctTimes, CountsAreRight, BeforesRecorded, Untouched, DeleteSource, TableOf;
    assert DeleteSource(st, source, integration, slug).Ok? by { DeleteSucceeds(st, source, slug); }
    if slug == own {
      OwnDeletion(st, source);
    } else if TableOf(st.snapshots, integration, own) != {} {
      ForeignSlugOrphans(st, source, slug);
    } else if TableOf(st.snapshots, integration, slug) != {} {
      ForeignSlugWipes(st, source, slug);
    } else {
      SameTableSameDeletion(st, source, integration, slug, own);
      OwnDeletion(st, source);
    }
  }

  lemma DeleteSucceeds(st: State, source: Id, slug: string)
    requires source in st.sources
    ensures DeleteSource(st, source, st.sources[source].integration, slug).Ok?
  {
  }

  /**
    The worst of it: if another source has taken the slug meanwhile, it loses all
    its snapshots, rows and events, and keeps its record count, which is then
    wrong unless it was zero.
   */
  lemma OvertakenDeleteWipesSuccessor(st: State, source: Id, other: Id)
    requires source in st.sources && other in st.sources && other != source
    requires st.sources[other].integration == st.sources[source].integration
    ensures var slug := st.sources[other].slug;
            var result := DeleteSource(st, source, st.sources[source].integration, slug);
            && result.Ok? && other in result.value.sources && result.value.sources[other] == st.sources[other]
            && TableOf(result.value.snapshots, st.sources[other].integration, slug) == {}
            && (forall s, e :: Owns(st.sources, other, st.snapshots, s) ==>
                  RowData(result.value.rows, s, e) == [] && Replay(result.value.log, s, e) == None)
            && (CountIsRight(result.value, other) <==> st.sources[other].recordCount == 0)
  {
    var integration, slug := st.sources[other].integration, st.sources[other].slug;
    var st' := DeleteSource(st, source, integration, slug).value;
    var ids := TableOf(st.snapshots, integration, slug);
    hide RowData, Replay, RowsWithout, LogWithout, CountRows, FindLatest;
    assert st'.rows == RowsWithout(st.rows, ids) && st'.log == LogWithout(st.log, ids);
    assert TableOf(st'.snapshots, integration, slug) == {};
    FindLatestIff(st'.snapshots, integration, slug);
    forall s, e | Owns(st.sources, other, st.snapshots, s)
      ensures RowData(st'.rows, s, e) == [] && Replay(st'.log, s, e) == None
    {
      assert s in ids;
      RowDataWithout(st.rows, ids, s, e);
      ReplayWithout(st.log, ids, s, e);
    }
  }

  /**
    Delete uses the slug it read before its transaction. If a rename commits in
    between, the snapshots stay without a source, and the next source that takes
    the slug does not start empty.
   */
  lemma OvertakenDeleteLeavesOrphans(st: State, source: Id, integration: Id, slug: string)
    requires Owned(st) && RenameSource(st, source, integration, slug).Ok? && slug != st.sources[source].slug
    requires TableOf(st.snapshots, integration, st.sources[source].slug) != {}
    ensures var renamed := RenameSource(st, source, integration, slug).value;
            var deleted := DeleteSource(renamed, source, integration, st.sources[source].slug);
            && deleted.Ok? && !Owned(deleted.value)
            && TableOf(deleted.value.snapshots, integration, slug)
               == TableOf(st.snapshots, integration, st.sources[source].slug)
            && CreateSource(deleted.value, integration, slug).Ok?
  {
    assert source in st.sources;
    hide SlugTaken, RenameSource, DeleteSource, TableOf, Owned;
    RenamedSlugIsFree(st, source, integration, slug);
    OvertakenTables(st, source, integration, slug);
    OvertakenSlugIsFree(st, source, integration, slug);
    var renamed := RenameSource(st, source, integration, slug).value;
    Unowned(DeleteSource(renamed, source, integration, st.sources[source].slug).value, integration, slug);
  }

  lemma OvertakenSlugIsFree(st: State, source: Id, integration: Id, slug: string)
    requires RenameSource(st, source, integration, slug).Ok?
    ensures var deleted := DeleteSource(RenameSource(st, source, integration, slug).value, source, integration,
                                        st.sources[source].slug);
            deleted.Ok? && !SlugTaken(deleted.value, integration, slug, None)
  {
    hide RowsWithout, LogWithout, Retabled, TableOf;
    var deleted := DeleteSource(RenameSource(st, source, integration, slug).value, source, integration,
                                st.sources[source].slug).value;
    assert forall id :: id in deleted.sources ==>
             id != source && id in st.sources && deleted.sources[id] == st.sources[id];
  }

  lemma Unowned(st: State, integration: Id, slug: string)
    requires !SlugTaken(st, integration, slug, None) && TableOf(st.snapshots, integration, slug) != {}
    ensures !Owned(st) && CreateSource(st, integration, slug).Ok?
  {
    if Owned(st) { FreeSlugIsEmpty(st, integration, slug); }
  }

  lemma OvertakenTables(st: State, source: Id, integration: Id, slug: string)
    requires RenameSource(st, source, integration, slug).Ok? && slug != st.sources[source].slug
    requires TableOf(st.snapshots, integration, slug) == {}
    ensures var renamed := RenameSource(st, source, integration, slug).value;
            var deleted := DeleteSource(renamed, source, integration, st.sources[source].slug);
            deleted.Ok?
            && TableOf(deleted.value.snapshots, integration, slug)
               == TableOf(st.snapshots, integration, st.sources[source].slug)
  {
    hide RowsWithout, LogWithout, SlugTaken;
    var from := st.sources[source].slug;
    var renamed := RenameSource(st, source, integration, slug).value;
    var deleted := DeleteSource(renamed, source, integration, from).value;
    RetabledSame(st, integration, from, slug);
    assert renamed.snapshots == Retabled(st, integration, from, slug);
    assert forall s :: s in renamed.snapshots ==> !InTable(renamed.snapshots, integration, from, s);
    assert TableOf(renamed.snapshots, integration, from) == {};
    assert deleted.snapshots == renamed.snapshots;
    forall s
      ensures s in TableOf(deleted.snapshots, integration, slug) <==> s in TableOf(st.snapshots, integration, from)
    {
      assert InTable(st.snapshots, integration, from, s) <==> InTable(deleted.snapshots, integration, slug, s);
    }
  }
}
