/**
  The life of data sources and their tables, operations run one at a time:
  registering, uploading, renaming, deleting
  (apps/api/internal/core/usecase/data_source_service.go), and all runs of all
  operations.
 */
module SourceLife {
  import opened Wrappers
  import opened Payloads
  import opened EntityStore
  import opened ReplayInvariant
  import opened InterleavedRuns
  import opened Operations
  import opened FullRollback
  import opened RuntimeBatch
  import opened SequentialRuns
  import Seqs

  // -------- registering --------

  /** No live source has the slug, so no snapshot has it as its table. */
  lemma FreeSlugIsEmpty(st: State, integration: Id, slug: string)
    requires Owned(st) && !SlugTaken(st, integration, slug, None)
    ensures TableOf(st.snapshots, integration, slug) == {}
  {
    assert forall s :: s in TableOf(st.snapshots, integration, slug) ==> s in st.snapshots;
  }

  /** A new source starts empty, also on a slug that a deleted source had. */
  lemma NewSourceStartsEmpty(st: State, integration: Id, slug: string)
    requires Tallied(st) && CreateSource(st, integration, slug).Ok?
    ensures var st' := CreateSource(st, integration, slug).value;
            && Tallied(st') && (Good(st) ==> Good(st'))
            && TableOf(st'.snapshots, integration, slug) == {} && ActiveSnapshot(st', integration, st.nextId) == None
  {
    var st' := CreateSource(st, integration, slug).value;
    CreateKeeps(st, integration, slug);
    FreeSlugIsEmpty(st, integration, slug);
    FindLatestIff(st.snapshots, integration, slug);
    KeptIsGoodLog(st);
    assert st.nextId !in st.sources;
    hide Kept, BeforesRecorded, SlugTaken, FindLatest, TableOf, CountRows, Owned, CountsAreRight, UniqueSlugs;
    FreeSlugStaysUnique(st, integration, slug);
    AddedSource(st, st', st.nextId);
  }

  lemma AddedSource(st: State, st': State, id: Id)
    requires id !in st.sources && id in st'.sources
    requires st' == st.(sources := st.sources[id := st'.sources[id]], nextId := st'.nextId)
    requires st'.sources[id].recordCount == 0
    requires FindLatest(st.snapshots, st'.sources[id].integration, st'.sources[id].slug) == None
    requires Owned(st) && CountsAreRight(st)
    ensures Owned(st') && CountsAreRight(st')
  {
    hide CountsAreRight, CountIsRight, FindLatest;
    MoreSourcesOwn(st, st');
    hide Owned;
    forall x | x in st'.sources ensures CountIsRight(st', x) {
      SourceCount(st, st', id, x);
    }
    assert CountsAreRight(st') by { CountsByEach(st'); }
  }

  lemma CountsByEach(st: State)
    requires forall x :: x in st.sources ==> CountIsRight(st, x)
    ensures CountsAreRight(st)
  {
    hide CountIsRight;
  }

  lemma SourceCount(st: State, st': State, id: Id, x: Id)
    requires st'.snapshots == st.snapshots && st'.rows == st.rows && CountsAreRight(st) && x in st'.sources
    requires x != id ==> x in st.sources && st'.sources[x] == st.sources[x]
    requires x == id ==>
               st'.sources[id].recordCount == 0
               && FindLatest(st.snapshots, st'.sources[id].integration, st'.sources[id].slug) == None
    ensures CountIsRight(st', x)
  {
    hide FindLatest, CountRows;
    assert x != id ==> CountIsRight(st, x);
  }

  lemma MoreSourcesOwn(st: State, st': State)
    requires Owned(st) && st'.snapshots == st.snapshots
    requires forall id :: id in st.sources ==> id in st'.sources && st'.sources[id] == st.sources[id]
    ensures Owned(st')
  {
    forall s | s in st'.snapshots ensures exists id :: Owns(st'.sources, id, st'.snapshots, s) {
      var id :| Owns(st.sources, id, st.snapshots, s);
      assert Owns(st'.sources, id, st'.snapshots, s);
    }
  }

  lemma FreeSlugStaysUnique(st: State, integration: Id, slug: string)
    requires UniqueSlugs(st.sources) && CreateSource(st, integration, slug).Ok?
    ensures UniqueSlugs(CreateSource(st, integration, slug).value.sources)
  {
  }

  // -------- uploading --------

  lemma UploadedTables(st: State, up: Upload, id: Id)
    requires Linked(st) && up.source in st.sources && id in st.sources && UniqueSlugs(st.sources)
    requires DistinctTimes(st.snapshots)
    requires up.integration == st.sources[up.source].integration && up.table == st.sources[up.source].slug
    requires InOrder(st, up)
    ensures DistinctTimes(Uploaded(st, up).snapshots)
    ensures FindLatest(Uploaded(st, up).snapshots, st.sources[id].integration, st.sources[id].slug)
         == if id == up.source then Some(st.nextId)
            else FindLatest(st.snapshots, st.sources[id].integration, st.sources[id].slug)
  {
    var snaps := Uploaded(st, up).snapshots;
    var i, t := st.sources[id].integration, st.sources[id].slug;
    assert st.nextId !in st.snapshots;
    assert snaps == st.snapshots[st.nextId := Snapshot(up.integration, up.table, up.now)];
    hide Uploaded;
    assert forall s :: s in st.snapshots && InTable(st.snapshots, up.integration, up.table, s) ==>
             s in TableOf(st.snapshots, up.integration, up.table);
    hide Linked, InOrder, TableOf;
    UploadedTimes(st.snapshots, snaps, st.nextId, up);
    if id == up.source {
      assert IsLatest(snaps, i, t, st.nextId);
      FoundLatest(snaps, i, t, st.nextId);
    } else {
      assert forall s :: s in snaps ==> InTable(snaps, i, t, s) == InTable(st.snapshots, i, t, s);
      SameLatest(st.snapshots, snaps, i, t, i, t);
    }
  }

  lemma UploadedTimes(snapshots: map<Id, Snapshot>, snaps: map<Id, Snapshot>, s: Id, up: Upload)
    requires s !in snapshots && snaps == snapshots[s := Snapshot(up.integration, up.table, up.now)]
    requires forall x :: x in snapshots && InTable(snapshots, up.integration, up.table, x) ==>
               snapshots[x].createdAt < up.now
    requires DistinctTimes(snapshots)
    ensures DistinctTimes(snaps)
  {
  }

  /** Two tables with the same snapshots of the same ages have the same latest one. */
  lemma SameLatest(a: map<Id, Snapshot>, b: map<Id, Snapshot>, i: Id, t: string, i': Id, t': string)
    requires DistinctTimes(a) && DistinctTimes(b)
    requires forall s :: InTable(a, i, t, s) <==> InTable(b, i', t', s)
    requires forall s :: InTable(a, i, t, s) && InTable(b, i', t', s) ==> a[s].createdAt == b[s].createdAt
    ensures FindLatest(a, i, t) == FindLatest(b, i', t')
    ensures FindInitial(a, i, t) == FindInitial(b, i', t')
  {
    hide DistinctTimes, InTable;
    var x, y := FindLatest(a, i, t), FindInitial(a, i, t);
    if x.Some? {
      assert IsLatest(b, i', t', x.value) by { assert InTable(b, i', t', x.value); InTableIsIn(a, b, i, t, i', t'); }
      FoundLatest(b, i', t', x.value);
    } else {
      NoneLatest(a, b, i, t, i', t');
    }
    if y.Some? {
      assert IsInitial(b, i', t', y.value) by { assert InTable(b, i', t', y.value); InTableIsIn(a, b, i, t, i', t'); }
      FoundInitial(b, i', t', y.value);
    } else {
      NoneLatest(a, b, i, t, i', t');
    }
  }

  lemma InTableIsIn(a: map<Id, Snapshot>, b: map<Id, Snapshot>, i: Id, t: string, i': Id, t': string)
    ensures forall s :: InTable(a, i, t, s) ==> s in a
    ensures forall s :: InTable(b, i', t', s) ==> s in b
  {
  }

  lemma NoneLatest(a: map<Id, Snapshot>, b: map<Id, Snapshot>, i: Id, t: string, i': Id, t': string)
    requires forall s :: InTable(a, i, t, s) <==> InTable(b, i', t', s)
    requires FindLatest(a, i, t) == None || FindInitial(a, i, t) == None
    ensures FindLatest(b, i', t') == None && FindInitial(b, i', t') == None
  {
    FindLatestIff(a, i, t);
    FindInitialIff(a, i, t);
    FindLatestIff(b, i', t');
    FindInitialIff(b, i', t');
    hide FindLatest, FindInitial;
    assert TableOf(a, i, t) == {};
    assert forall s :: s in TableOf(b, i', t') ==> s in TableOf(a, i, t);
    assert TableOf(b, i', t') == {};
  }

  lemma UploadedCounts(st: State, up: Upload, s: Id)
    requires Linked(st) && up.source in st.sources
    ensures CountRows(Uploaded(st, up).rows, s)
         == if s == st.nextId then |up.items|
            else if s in TableOf(st.snapshots, up.integration, up.table) then 0
            else CountRows(st.rows, s)
  {
    hide RowData, RowsWithout, BaselineRows, BaselineEvents, ItemData, TableOf, CountRows;
    var ids := TableOf(st.snapshots, up.integration, up.table);
    RowDataAppend(RowsWithout(st.rows, ids), BaselineRows(st.nextId, up.items), s, "");
    RowDataWithout(st.rows, ids, s, "");
    BaselineRowData(st.nextId, up.items, s, "");
    TableIsKnown(st, up);
    if s == st.nextId { FreshSnapshotIsEmpty(st.rows, st.log, s, ""); }
  }

  /** An upload of the source's own table, in order, with distinct ids. */
  ghost predicate GoodUpload(st: State, up: Upload) {
    && up.source in st.sources && up.integration == st.sources[up.source].integration
    && up.table == st.sources[up.source].slug
    && DistinctIds(up.items) && GoodItems(up.items) && InOrder(st, up)
  }

  lemma UploadKeepsGood(st: State, up: Upload)
    requires Tallied(st) && GoodUpload(st, up)
    ensures Tallied(Uploaded(st, up)) && (Good(st) ==> Good(Uploaded(st, up)))
  {
    hide DistinctIds, GoodItems, InOrder, BeforesRecorded, CountsAreRight, Owned;
    var st' := Uploaded(st, up);
    UploadKeeps(st, up);
    KeptIsGoodLog(st);
    hide Kept;
    UploadedTables(st, up, up.source);
    UploadCountsRight(st, up);
    UploadOwned(st, up);
    if BeforesRecorded(st.log) { UploadBefores(st, up); }
    assert UniqueSlugs(st'.sources);
  }

  lemma UploadCountsRight(st: State, up: Upload)
    requires Linked(st) && GoodUpload(st, up) && UniqueSlugs(st.sources) && DistinctTimes(st.snapshots)
    requires CountsAreRight(st)
    ensures CountsAreRight(Uploaded(st, up))
  {
    var st' := Uploaded(st, up);
    assert st'.sources.Keys == st.sources.Keys;
    assert forall id :: id in st.sources ==>
             st'.sources[id] == if id == up.source then st.sources[id].(recordCount := |up.items|) else st.sources[id];
    hide Uploaded, DistinctIds, GoodItems, InOrder, Linked, DistinctTimes, CountRows, TableOf;
    forall id | id in st'.sources ensures CountIsRight(st', id) {
      UploadedTables(st, up, id);
      assert CountIsRight(st, id);
      var latest := FindLatest(st'.snapshots, st.sources[id].integration, st.sources[id].slug);
      if latest.Some? {
        UploadedCounts(st, up, latest.value);
        if id != up.source { OtherTable(st, up, id, latest.value); }
      }
    }
  }

  lemma OtherTable(st: State, up: Upload, id: Id, s: Id)
    requires Linked(st) && GoodUpload(st, up) && UniqueSlugs(st.sources) && id in st.sources && id != up.source
    requires IsLatest(st.snapshots, st.sources[id].integration, st.sources[id].slug, s)
    ensures s != st.nextId && s !in TableOf(st.snapshots, up.integration, up.table)
  {
    hide DistinctIds, GoodItems, InOrder;
  }

  lemma UploadOwned(st: State, up: Upload)
    requires Owned(st) && GoodUpload(st, up)
    ensures Owned(Uploaded(st, up))
  {
    hide DistinctIds, GoodItems, InOrder, TableOf, RowsWithout, BaselineRows, BaselineEvents;
    var st' := Uploaded(st, up);
    forall s | s in st'.snapshots ensures exists id :: Owns(st'.sources, id, st'.snapshots, s) {
      if s == st.nextId {
        assert Owns(st'.sources, up.source, st'.snapshots, s);
      } else {
        var id :| Owns(st.sources, id, st.snapshots, s);
        assert Owns(st'.sources, id, st'.snapshots, s);
      }
    }
  }

  lemma UploadBefores(st: State, up: Upload)
    requires BeforesRecorded(st.log) && up.source in st.sources
    ensures BeforesRecorded(Uploaded(st, up).log)
  {
    var n := |st.log|;
    var events := BaselineEvents(st.nextId + 1, st.nextId, up.items);
    BaselineEventsAt(st.nextId + 1, st.nextId, up.items);
    var log' := st.log + events;
    assert Uploaded(st, up).log == log';
    hide BaselineEvents, Replay, Uploaded;
    forall i | 0 <= i < |log'| ensures BeforeIs(log'[i], log'[..i]) {
      if i < n {
        assert log'[..i] == st.log[..i] && BeforeIs(st.log[i], st.log[..i]);
      } else {
        assert log'[i] == events[i - n];
      }
    }
  }

  // -------- renaming --------

  lemma RetabledSame(st: State, integration: Id, from: string, to: string)
    requires to != from ==> TableOf(st.snapshots, integration, to) == {}
    ensures var snaps := Retabled(st, integration, from, to);
            && (forall s :: InTable(st.snapshots, integration, from, s) <==> InTable(snaps, integration, to, s))
            && (forall i, t, s :: !(i == integration && (t == from || t == to)) ==>
                  (InTable(st.snapshots, i, t, s) <==> InTable(snaps, i, t, s)))
            && snaps.Keys == st.snapshots.Keys
            && (forall s :: s in snaps ==> snaps[s].createdAt == st.snapshots[s].createdAt)
  {
    var snaps := Retabled(st, integration, from, to);
    forall s ensures InTable(st.snapshots, integration, from, s) <==> InTable(snaps, integration, to, s) {
      if to != from { assert s !in TableOf(st.snapshots, integration, to); }
    }
  }

  lemma RetabledTimes(st: State, integration: Id, from: string, to: string)
    requires DistinctTimes(st.snapshots) && (to != from ==> TableOf(st.snapshots, integration, to) == {})
    ensures DistinctTimes(Retabled(st, integration, from, to))
  {
    RetabledSame(st, integration, from, to);
    var snaps := Retabled(st, integration, from, to);
    forall s, s' | s in snaps && s' in snaps && s != s' && InTable(snaps, snaps[s].integration, snaps[s].table, s')
      ensures snaps[s].createdAt != snaps[s'].createdAt
    {
      assert InTable(st.snapshots, st.snapshots[s].integration, st.snapshots[s].table, s');
    }
  }

  /** The slug a source gets by a rename had no snapshots, unless it is the slug it had. */
  lemma RenamedSlugIsFree(st: State, source: Id, integration: Id, slug: string)
    requires Owned(st) && RenameSource(st, source, integration, slug).Ok? && slug != st.sources[source].slug
    ensures TableOf(st.snapshots, integration, slug) == {}
  {
    assert forall s :: s in TableOf(st.snapshots, integration, slug) ==> s in st.snapshots;
  }

  /** What a rename leaves alone. */
  ghost predicate SameTable(st: State, i: Id, t: string, st': State, i': Id, t': string) {
    && TableOf(st'.snapshots, i', t') == TableOf(st.snapshots, i, t)
    && FindLatest(st'.snapshots, i', t') == FindLatest(st.snapshots, i, t)
    && FindInitial(st'.snapshots, i', t') == FindInitial(st.snapshots, i, t)
  }

  lemma RenamedMembers(st: State, source: Id, integration: Id, slug: string, id: Id)
    requires Owned(st) && UniqueSlugs(st.sources) && RenameSource(st, source, integration, slug).Ok? && id in st.sources
    ensures var st' := RenameSource(st, source, integration, slug).value;
            && id in st'.sources && st'.snapshots == Retabled(st, integration, st.sources[source].slug, slug)
            && forall s :: InTable(st.snapshots, st.sources[id].integration, st.sources[id].slug, s)
                      <==> InTable(st'.snapshots, st'.sources[id].integration, st'.sources[id].slug, s)
  {
    var from := st.sources[source].slug;
    if slug != from { RenamedSlugIsFree(st, source, integration, slug); }
    RetabledSame(st, integration, from, slug);
    hide Retabled, Owned, InTable, TableOf;
    var st' := RenameSource(st, source, integration, slug).value;
    assert st'.snapshots == Retabled(st, integration, from, slug);
  }

  lemma RenamedTable(st: State, source: Id, integration: Id, slug: string, id: Id)
    requires Owned(st) && UniqueSlugs(st.sources) && DistinctTimes(st.snapshots)
    requires RenameSource(st, source, integration, slug).Ok?
    requires id in st.sources
    ensures var st' := RenameSource(st, source, integration, slug).value;
            && id in st'.sources
            && SameTable(st, st.sources[id].integration, st.sources[id].slug, st', st'.sources[id].integration,
                         st'.sources[id].slug)
  {
    var from := st.sources[source].slug;
    if slug != from { RenamedSlugIsFree(st, source, integration, slug); }
    hide SlugTaken, Owned, UniqueSlugs, DistinctTimes, InTable, FindLatest, FindInitial, TableOf, Retabled;
    hide RenameSource;
    RenamedMembers(st, source, integration, slug, id);
    RetabledTimes(st, integration, from, slug);
    var st' := RenameSource(st, source, integration, slug).value;
    RetabledAges(st, integration, from, slug);
    SameMembers(st.snapshots, st'.snapshots, st.sources[id].integration, st.sources[id].slug,
                st'.sources[id].integration, st'.sources[id].slug);
  }

  lemma RetabledAges(st: State, integration: Id, from: string, to: string)
    ensures var snaps := Retabled(st, integration, from, to);
            && snaps.Keys == st.snapshots.Keys
            && forall s :: s in snaps ==> snaps[s].createdAt == st.snapshots[s].createdAt
  {
  }

  lemma SameMembers(a: map<Id, Snapshot>, b: map<Id, Snapshot>, i: Id, t: string, i': Id, t': string)
    requires DistinctTimes(a) && DistinctTimes(b) && a.Keys == b.Keys
    requires forall s :: s in a ==> a[s].createdAt == b[s].createdAt
    requires forall s :: InTable(a, i, t, s) <==> InTable(b, i', t', s)
    ensures TableOf(a, i, t) == TableOf(b, i', t') && FindLatest(a, i, t) == FindLatest(b, i', t')
    ensures FindInitial(a, i, t) == FindInitial(b, i', t')
  {
    InTableIsIn(a, b, i, t, i', t');
    hide InTable, DistinctTimes, FindLatest, FindInitial, TableOf;
    SameTableOf(a, b, i, t, i', t');
    SameLatest(a, b, i, t, i', t');
  }

  lemma SameTableOf(a: map<Id, Snapshot>, b: map<Id, Snapshot>, i: Id, t: string, i': Id, t': string)
    requires a.Keys == b.Keys && forall s :: InTable(a, i, t, s) <==> InTable(b, i', t', s)
    ensures TableOf(a, i, t) == TableOf(b, i', t')
  {
    InTableIsIn(a, b, i, t, i', t');
    hide InTable;
  }

  lemma RenameKeepsGood(st: State, source: Id, integration: Id, slug: string)
    requires Tallied(st) && RenameSource(st, source, integration, slug).Ok?
    ensures var st' := RenameSource(st, source, integration, slug).value; Tallied(st') && (Good(st) ==> Good(st'))
  {
    hide Kept, CountsAreRight, BeforesRecorded, DistinctTimes, InTable, FindLatest, FindInitial, TableOf;
    RenameKeeps(st, source, integration, slug);
    RenameCounts(st, source, integration, slug);
    RenameOwned(st, source, integration, slug);
    var st' := RenameSource(st, source, integration, slug).value;
    var from := st.sources[source].slug;
    if slug != from { RenamedSlugIsFree(st, source, integration, slug); }
    RetabledTimes(st, integration, from, slug);
    hide Owned, Retabled;
    assert UniqueSlugs(st'.sources);
  }

  /**
    A rename keeps the source's snapshots, which of them is first and which is
    latest, all rows and the whole log, so its timeline and projection.
   */
  lemma RenamePreserves(st: State, source: Id, integration: Id, slug: string)
    requires Good(st) && RenameSource(st, source, integration, slug).Ok?
    ensures var st' := RenameSource(st, source, integration, slug).value;
            && st'.rows == st.rows && st'.log == st.log && st'.sources[source].slug == slug
            && SameTable(st, integration, st.sources[source].slug, st', integration, slug)
            && forall e, ev :: Timeline(st, integration, st.sources[source].slug, e, ev)
                               <==> Timeline(st', integration, slug, e, ev)
  {
    var st' := RenameSource(st, source, integration, slug).value;
    RenamedTable(st, source, integration, slug, source);
    var from := st.sources[source].slug;
    if slug != from { RenamedSlugIsFree(st, source, integration, slug); }
    RetabledSame(st, integration, from, slug);
    hide Good, Retabled, InTable, FindLatest, FindInitial, TableOf, SlugTaken;
  }

  lemma RenameCounts(st: State, source: Id, integration: Id, slug: string)
    requires Owned(st) && UniqueSlugs(st.sources) && DistinctTimes(st.snapshots) && CountsAreRight(st)
    requires RenameSource(st, source, integration, slug).Ok?
    ensures CountsAreRight(RenameSource(st, source, integration, slug).value)
  {
    var st' := RenameSource(st, source, integration, slug).value;
    assert st'.rows == st.rows;
    assert forall id :: id in st'.sources ==>
             id in st.sources && st'.sources[id].recordCount == st.sources[id].recordCount;
    hide Owned, UniqueSlugs, DistinctTimes, FindLatest, FindInitial, TableOf, CountRows, RenameSource;
    forall id | id in st'.sources ensures CountIsRight(st', id) {
      RenamedTable(st, source, integration, slug, id);
      assert CountIsRight(st, id);
    }
  }

  lemma RenameOwned(st: State, source: Id, integration: Id, slug: string)
    requires Owned(st) && UniqueSlugs(st.sources) && RenameSource(st, source, integration, slug).Ok?
    ensures Owned(RenameSource(st, source, integration, slug).value)
  {
    var st' := RenameSource(st, source, integration, slug).value;
    hide SlugTaken;
    forall s | s in st'.snapshots ensures exists id :: Owns(st'.sources, id, st'.snapshots, s) {
      var id :| Owns(st.sources, id, st.snapshots, s);
      assert Owns(st'.sources, id, st'.snapshots, s);
    }
  }

  // -------- deleting --------

  lemma {:induction false} BeforesWithout(log: seq<Event>, ids: set<Id>)
    requires BeforesRecorded(log)
    ensures BeforesRecorded(LogWithout(log, ids))
  {
    if log != [] {
      var front, last := log[..|log| - 1], log[|log| - 1];
      assert forall i :: 0 <= i < |front| ==> front[..i] == log[..i] && front[i] == log[i];
      BeforesWithout(front, ids);
      var kept := LogWithout(front, ids);
      if last.snapshot in ids {
        Seqs.EmptyRight(kept);
      } else {
        ReplayWithout(front, ids, last.snapshot, last.entityId);
        assert BeforeIs(last, front);
        AppendBefore(kept, last);
      }
    }
  }

  lemma AppendBefore(log: seq<Event>, ev: Event)
    requires BeforesRecorded(log) && BeforeIs(ev, log)
    ensures BeforesRecorded(log + [ev])
  {
    hide BeforeIs;
    var log' := log + [ev];
    forall i | 0 <= i < |log'| ensures BeforeIs(log'[i], log'[..i]) {
      if i < |log| {
        assert log'[..i] == log[..i];
      } else {
        assert log'[..i] == log;
      }
    }
  }

  lemma DeletedTable(st: State, source: Id, id: Id)
    requires UniqueSlugs(st.sources) && DistinctTimes(st.snapshots) && source in st.sources && id in st.sources
    requires id != source
    ensures var st' := DeleteSource(st, source, st.sources[source].integration, st.sources[source].slug).value;
            && SameTable(st, st.sources[id].integration, st.sources[id].slug, st', st.sources[id].integration,
                         st.sources[id].slug)
            && (forall s :: InTable(st.snapshots, st.sources[id].integration, st.sources[id].slug, s) ==>
                  CountRows(st'.rows, s) == CountRows(st.rows, s) && BaselineMap(st'.log, s) == BaselineMap(st.log, s))
  {
    var st' := DeleteSource(st, source, st.sources[source].integration, st.sources[source].slug).value;
    var ids := TableOf(st.snapshots, st.sources[source].integration, st.sources[source].slug);
    var i, t := st.sources[id].integration, st.sources[id].slug;
    assert st'.snapshots == map s | s in st.snapshots && s !in ids :: st.snapshots[s];
    assert st'.rows == RowsWithout(st.rows, ids) && st'.log == LogWithout(st.log, ids);
    hide DeleteSource, RowsWithout, LogWithout, FindLatest, FindInitial, CountRows, BaselineMap, RowData;
    assert forall s :: InTable(st.snapshots, i, t, s) ==> s !in ids;
    hide UniqueSlugs;
    RemainingTable(st.snapshots, st'.snapshots, ids, i, t);
    hide DistinctTimes;
    forall s | InTable(st.snapshots, i, t, s)
      ensures CountRows(st'.rows, s) == CountRows(st.rows, s) && BaselineMap(st'.log, s) == BaselineMap(st.log, s)
    {
      RowDataWithout(st.rows, ids, s, "");
      BaselineMapWithout(st.log, ids, s);
    }
  }

  lemma RemainingTable(a: map<Id, Snapshot>, b: map<Id, Snapshot>, ids: set<Id>, i: Id, t: string)
    requires DistinctTimes(a) && b == map s | s in a && s !in ids :: a[s]
    requires forall s :: InTable(a, i, t, s) ==> s !in ids
    ensures TableOf(b, i, t) == TableOf(a, i, t) && FindLatest(b, i, t) == FindLatest(a, i, t)
            && FindInitial(b, i, t) == FindInitial(a, i, t)
  {
    assert DistinctTimes(b);
    hide DistinctTimes, FindLatest, FindInitial;
    SameLatest(a, b, i, t, i, t);
  }

  /** The service's Delete: the source and everything of its table go, nothing else. */
  lemma DeleteKeepsGood(st: State, source: Id)
    requires Tallied(st) && source in st.sources
    ensures var st' := DeleteSource(st, source, st.sources[source].integration, st.sources[source].slug).value;
            Tallied(st') && (Good(st) ==> Good(st'))
  {
    DeleteKeeps(st, source, st.sources[source].integration, st.sources[source].slug);
    var ids := TableOf(st.snapshots, st.sources[source].integration, st.sources[source].slug);
    if BeforesRecorded(st.log) { BeforesWithout(st.log, ids); }
    DeleteOwned(st, source);
    DeleteCounts(st, source);
    hide Kept, BeforesRecorded, CountsAreRight, Owned, RowsWithout, LogWithout;
  }

  lemma DeleteOwned(st: State, source: Id)
    requires Owned(st) && UniqueSlugs(st.sources) && DistinctTimes(st.snapshots) && source in st.sources
    ensures var st' := DeleteSource(st, source, st.sources[source].integration, st.sources[source].slug).value;
            Owned(st') && UniqueSlugs(st'.sources) && DistinctTimes(st'.snapshots)
  {
    hide RowsWithout, LogWithout;
    var st' := DeleteSource(st, source, st.sources[source].integration, st.sources[source].slug).value;
    forall s | s in st'.snapshots ensures exists id :: Owns(st'.sources, id, st'.snapshots, s) {
      var id :| Owns(st.sources, id, st.snapshots, s);
      assert Owns(st'.sources, id, st'.snapshots, s);
    }
  }

  lemma DeleteCounts(st: State, source: Id)
    requires UniqueSlugs(st.sources) && DistinctTimes(st.snapshots) && CountsAreRight(st) && source in st.sources
    ensures CountsAreRight(DeleteSource(st, source, st.sources[source].integration, st.sources[source].slug).value)
  {
    var st' := DeleteSource(st, source, st.sources[source].integration, st.sources[source].slug).value;
    assert st'.sources == map id | id in st.sources && id != source :: st.sources[id];
    hide UniqueSlugs, DistinctTimes, FindLatest, FindInitial, TableOf, CountRows, DeleteSource, BaselineMap;
    forall id | id in st'.sources ensures CountIsRight(st', id) {
      DeletedTable(st, source, id);
      assert CountIsRight(st, id);
    }
  }

  // -------- recounting --------

  /**
    SyncNow counts before it writes. In a store whose counts are right, what it
    writes keeps them right exactly if the stored count is still the one it
    counted: if nothing else changed the count since.
   */
  lemma RecountIsRightIff(st: State, source: Id, n: nat)
    requires CountsAreRight(st) && source in st.sources
    ensures CountsAreRight(SetCount(st, source, n).value) <==> n == st.sources[source].recordCount
  {
    var st' := SetCount(st, source, n).value;
    assert st'.sources == st.sources[source := st.sources[source].(recordCount := n)];
    hide SetCount, CountRows, FindLatest;
    assert CountIsRight(st, source);
    if n == st.sources[source].recordCount {
      assert st'.sources == st.sources && st' == st;
    } else {
      assert !CountIsRight(st', source);
    }
  }

  /** SyncNow, run at once. */
  ghost function SyncNow(st: State, integration: Id, source: Id): Result<State, Error> {
    if !HasSource(st, integration, source) then Err(NotFound)
    else
      match FindLatest(st.snapshots, integration, st.sources[source].slug)
      case None => SetCount(st, source, 0)
      case Some(s) => SetCount(st, source, CountRows(st.rows, s))
  }

  lemma SyncChangesNothing(st: State, integration: Id, source: Id)
    requires Good(st) && HasSource(st, integration, source)
    ensures SyncNow(st, integration, source) == Ok(st)
  {
    hide Kept, Owned, UniqueSlugs, DistinctTimes, BeforesRecorded, FindLatest;
    assert CountIsRight(st, source);
    var n := st.sources[source].recordCount;
    assert st.sources[source := st.sources[source].(recordCount := n)] == st.sources;
  }

  // -------- all operations --------

  datatype Op =
    | Register(integration: Id, slug: string)
    | Rename(source: Id, integration: Id, slug: string)
    | Delete(source: Id, integration: Id)
    | UploadBaseline(source: Id, integration: Id, now: int, items: seq<Item>)
    | CreateEntity(integration: Id, source: Id, rawId: string, payload: Option<map<string, Json>>)
    | RollbackEntity(integration: Id, source: Id, rawId: string, eventId: Id)
    | RollbackComplete(integration: Id, source: Id, orders: Orders)
    | Execute(integration: Id, mutations: seq<Mutation>, env: Env, scenario: string)
    | Sync(integration: Id, source: Id)

  ghost function CommitOf(st: State, plan: Result<Plan, Error>): Result<State, Error> {
    match plan
    case Err(error) => Err(error)
    case Ok(p) => Commit(st, p)
  }

  /** The whole operation: what it reads, what it decides and its transaction, with nothing in between. */
  ghost function Serve(st: State, op: Op): Result<State, Error> {
    match op
    case Register(integration, slug) => CreateSource(st, integration, slug)
    case Rename(source, integration, slug) => RenameSource(st, source, integration, slug)
    case Delete(source, integration) =>
      if HasSource(st, integration, source) then DeleteSource(st, source, integration, st.sources[source].slug)
      else Err(NotFound)
    case UploadBaseline(source, integration, now, items) =>
      if HasSource(st, integration, source) then
        CommitUpload(st, Upload(source, integration, st.sources[source].slug, now, items))
      else Err(NotFound)
    case CreateEntity(integration, source, rawId, payload) =>
      CommitOf(st, PlanCreate(st, integration, source, rawId, payload))
    case RollbackEntity(integration, source, rawId, eventId) =>
      CommitOf(st, PlanRollback(st, integration, source, rawId, eventId))
    case RollbackComplete(integration, source, orders) => ServeFull(st, integration, source, orders)
    case Execute(integration, mutations, env, scenario) =>
      (match BatchOf(st, integration, mutations, env, scenario)
       case Err(error) => Err(error)
       case Ok(b) => Commit(st, PlanOf(b)))
    case Sync(integration, source) => SyncNow(st, integration, source)
  }

  /**
    RollbackComplete with its two loops in the given orders. On a store that
    keeps the invariant what it reads are objects (ReadingIsGood).
   */
  ghost function ServeFull(st: State, integration: Id, source: Id, o: Orders): Result<State, Error> {
    match ReadForRollback(st, integration, source)
    case Err(error) => Err(error)
    case Ok(r) => if GoodReading(r) && OrdersFor(o, r) then Commit(st, PlanFull(r, o, source)) else Err(Semantic)
  }

  /** Uploads bring distinct ids and objects, and are later than every snapshot of their table. */
  ghost predicate Sound(st: State, op: Op) {
    match op
    case UploadBaseline(source, integration, now, items) =>
      DistinctIds(items) && GoodItems(items)
      && (source in st.sources ==> InOrder(st, Upload(source, integration, st.sources[source].slug, now, items)))
    case _ => true
  }

  ghost function Next(st: State, op: Op): State {
    match Serve(st, op)
    case Ok(st') => st'
    case Err(_) => st
  }

  lemma FullKeepsGood(st: State, integration: Id, source: Id, o: Orders)
    requires Good(st) && ServeFull(st, integration, source, o).Ok?
    ensures Good(ServeFull(st, integration, source, o).value)
  {
    hide FreshPlan, Commit, ReadForRollback, OrdersFor, GoodReading, PlanFull;
    ReadingIsGood(st, integration, source);
    FullRollbackIsFresh(st, integration, source, o);
    FreshPlanKeepsGood(st, PlanFull(ReadForRollback(st, integration, source).value, o, source));
    hide Good;
  }

  lemma BatchKeepsGood(st: State, integration: Id, ms: seq<Mutation>, env: Env, scenario: string)
    requires Good(st) && BatchOf(st, integration, ms, env, scenario).Ok?
    ensures var r := Commit(st, PlanOf(BatchOf(st, integration, ms, env, scenario).value)); r.Ok? && Good(r.value)
  {
    assert Kept(st);
    hide Good, Kept, FreshPlan, Commit, BatchOf;
    BatchIsFresh(st, integration, ms, env, scenario);
    FreshPlanKeepsGood(st, PlanOf(BatchOf(st, integration, ms, env, scenario).value));
  }

  lemma PlannedKeepsGood(st: State, op: Op)
    requires Good(st) && (op.CreateEntity? || op.RollbackEntity?) && Serve(st, op).Ok?
    ensures Good(Serve(st, op).value)
  {
    hide FreshPlan, Commit, PlanCreate, PlanRollback;
    if op.CreateEntity? {
      CreateIsFresh(st, op.integration, op.source, op.rawId, op.payload);
      FreshPlanKeepsGood(st, PlanCreate(st, op.integration, op.source, op.rawId, op.payload).value);
    } else {
      RollbackIsFresh(st, op.integration, op.source, op.rawId, op.eventId);
      FreshPlanKeepsGood(st, PlanRollback(st, op.integration, op.source, op.rawId, op.eventId).value);
    }
    hide Good;
  }

  lemma SourceOpKeepsGood(st: State, op: Op)
    requires Good(st) && Sound(st, op) && (op.Register? || op.Rename? || op.Delete? || op.UploadBaseline? || op.Sync?)
    requires Serve(st, op).Ok?
    ensures Good(Serve(st, op).value)
  {
    assert Kept(st);
    hide Good, Kept, CreateSource, RenameSource, SyncNow, DistinctIds, GoodItems, InOrder, Uploaded;
    match op
    case Register(integration, slug) => NewSourceStartsEmpty(st, integration, slug);
    case Rename(source, integration, slug) => RenameKeepsGood(st, source, integration, slug);
    case Delete(source, integration) => DeleteKeepsGood(st, source);
    case UploadBaseline(source, integration, now, items) =>
      UploadKeepsGood(st, Upload(source, integration, st.sources[source].slug, now, items));
    case Sync(integration, source) => SyncIsGood(st, integration, source);
  }

  lemma SyncIsGood(st: State, integration: Id, source: Id)
    requires Good(st) && SyncNow(st, integration, source).Ok?
    ensures Good(SyncNow(st, integration, source).value)
  {
    hide Good, FindLatest;
    assert HasSource(st, integration, source);
    SyncChangesNothing(st, integration, source);
  }

  lemma EntityOpKeepsGood(st: State, op: Op)
    requires Good(st) && (op.CreateEntity? || op.RollbackEntity? || op.RollbackComplete? || op.Execute?)
    requires Serve(st, op).Ok?
    ensures Good(Serve(st, op).value)
  {
    assert Kept(st);
    hide Good, Kept, Commit, BatchOf, PlanCreate, PlanRollback, ServeFull;
    match op
    case CreateEntity(_, _, _, _) => PlannedKeepsGood(st, op);
    case RollbackEntity(_, _, _, _) => PlannedKeepsGood(st, op);
    case RollbackComplete(integration, source, orders) => FullKeepsGood(st, integration, source, orders);
    case Execute(integration, mutations, env, scenario) => BatchKeepsGood(st, integration, mutations, env, scenario);
  }

  /** Every operation, successful or not, leaves a good store. */
  lemma ServeKeepsGood(st: State, op: Op)
    requires Good(st) && Sound(st, op)
    ensures Good(Next(st, op))
  {
    assert Kept(st);
    hide Good, Kept, Serve, Sound;
    if Serve(st, op).Ok? {
      if op.Register? || op.Rename? || op.Delete? || op.UploadBaseline? || op.Sync? {
        SourceOpKeepsGood(st, op);
      } else {
        EntityOpKeepsGood(st, op);
      }
    }
  }

  ghost function AfterOps(st: State, ops: seq<Op>): State {
    if ops == [] then st else Next(AfterOps(st, ops[..|ops| - 1]), ops[|ops| - 1])
  }

  /** One operation after another, and a run after a run. */
  lemma {:induction false} OpsCompose(st: State, a: seq<Op>, b: seq<Op>)
    ensures AfterOps(st, a + b) == AfterOps(AfterOps(st, a), b)
    ensures |b| == 1 ==> AfterOps(st, a + b) == Next(AfterOps(st, a), b[0])
  {
    hide Next;
    if b == [] {
      assert a + b == a;
    } else {
      assert (a + b)[..|a + b| - 1] == a + b[..|b| - 1];
      OpsCompose(st, a, b[..|b| - 1]);
      assert |b| == 1 ==> AfterOps(AfterOps(st, a), b[..|b| - 1]) == AfterOps(st, a);
    }
  }

  ghost predicate SoundRun(st: State, ops: seq<Op>) {
    ops == [] || (SoundRun(st, ops[..|ops| - 1]) && Sound(AfterOps(st, ops[..|ops| - 1]), ops[|ops| - 1]))
  }

  lemma EmptyIsGood()
    ensures Good(EMPTY)
  {
  }

  lemma {:induction false} RunKeepsGood(st: State, ops: seq<Op>)
    requires Good(st) && SoundRun(st, ops)
    ensures Good(AfterOps(st, ops))
  {
    hide Good, Next, Sound;
    if ops != [] {
      RunKeepsGood(st, ops[..|ops| - 1]);
      ServeKeepsGood(AfterOps(st, ops[..|ops| - 1]), ops[|ops| - 1]);
    }
  }

  /** In every store any run can reach: one owner per snapshot, right counts, true "before" states, and objects only. */
  lemma EveryRunIsGood(ops: seq<Op>)
    requires SoundRun(EMPTY, ops)
    ensures var st := AfterOps(EMPTY, ops);
            && (forall s :: s in st.snapshots ==> exists id :: Owns(st.sources, id, st.snapshots, s))
            && (forall s, i, j :: Owns(st.sources, i, st.snapshots, s) && Owns(st.sources, j, st.snapshots, s) ==>
                  i == j)
            && (forall id :: id in st.sources ==> CountIsRight(st, id))
            && (forall i :: 0 <= i < |st.log| ==> BeforeIs(st.log[i], st.log[..i]))
            && (forall r :: r in st.rows ==> r.data.Obj?)
  {
    EmptyIsGood();
    RunKeepsGood(EMPTY, ops);
    RowsOfKeptAreObjects(AfterOps(EMPTY, ops));
    hide Kept, BeforeIs, CountIsRight, DistinctTimes, AfterOps, SoundRun;
  }

  // -------- the first baseline --------

  /** The rows of the first upload of a source, the target of RollbackComplete. */
  ghost function FirstBaseline(st: State, id: Id): Option<map<string, Json>>
    requires id in st.sources
  {
    match FindInitial(st.snapshots, st.sources[id].integration, st.sources[id].slug)
    case None => None
    case Some(s) => Some(BaselineMap(st.log, s))
  }

  lemma CommitKeepsFirst(st: State, plan: Plan, id: Id)
    requires AllHonest(plan.writes) && Commit(st, plan).Ok? && id in st.sources
    ensures var st' := Commit(st, plan).value; id in st'.sources && FirstBaseline(st', id) == FirstBaseline(st, id)
  {
    var initial := FindInitial(st.snapshots, st.sources[id].integration, st.sources[id].slug);
    if initial.Some? { WritesKeepBaseline(st, plan.writes, initial.value); }
    hide AppliedAll, BaselineMap, FindInitial, AllHonest, KnownSnapshots;
  }

  lemma InitialStays(snapshots: map<Id, Snapshot>, snaps: map<Id, Snapshot>, s: Id, up: Upload, i: Id, t: string,
                     first: Id)
    requires s !in snapshots && snaps == snapshots[s := Snapshot(up.integration, up.table, up.now)]
    requires forall x :: x in snapshots && InTable(snapshots, up.integration, up.table, x) ==>
               snapshots[x].createdAt < up.now
    requires IsInitial(snapshots, i, t, first)
    ensures IsInitial(snaps, i, t, first)
  {
  }

  lemma InitialBehindUpload(st: State, up: Upload, id: Id)
    requires Linked(st) && DistinctTimes(st.snapshots) && UniqueSlugs(st.sources) && GoodUpload(st, up)
    requires id in st.sources
    requires FindInitial(st.snapshots, st.sources[id].integration, st.sources[id].slug).Some?
    ensures FindInitial(Uploaded(st, up).snapshots, st.sources[id].integration, st.sources[id].slug)
         == FindInitial(st.snapshots, st.sources[id].integration, st.sources[id].slug)
    ensures FindInitial(st.snapshots, st.sources[id].integration, st.sources[id].slug) != Some(st.nextId)
  {
    var snaps := Uploaded(st, up).snapshots;
    assert st.nextId !in st.snapshots;
    assert snaps == st.snapshots[st.nextId := Snapshot(up.integration, up.table, up.now)];
    assert forall s :: s in st.snapshots && InTable(st.snapshots, up.integration, up.table, s) ==>
             s in TableOf(st.snapshots, up.integration, up.table);
    hide Uploaded, UniqueSlugs, DistinctIds, GoodItems, TableOf, Linked, IsInitial, DistinctTimes, InTable;
    var i, t := st.sources[id].integration, st.sources[id].slug;
    var first := FindInitial(st.snapshots, i, t).value;
    UploadedTables(st, up, id);
    InitialStays(st.snapshots, snaps, st.nextId, up, i, t, first);
    FoundInitial(snaps, i, t, first);
    assert first in st.snapshots by {
      assert IsInitial(st.snapshots, i, t, first);
      InitialIsIn(st.snapshots, i, t, first);
    }
  }

  lemma InitialIsIn(snapshots: map<Id, Snapshot>, i: Id, t: string, s: Id)
    requires IsInitial(snapshots, i, t, s)
    ensures s in snapshots
  {
  }

  lemma UploadKeepsFirst(st: State, up: Upload, id: Id)
    requires Linked(st) && DistinctTimes(st.snapshots) && UniqueSlugs(st.sources)
    requires up.source in st.sources && GoodUpload(st, up) && id in st.sources && FirstBaseline(st, id).Some?
    ensures id in Uploaded(st, up).sources && FirstBaseline(Uploaded(st, up), id) == FirstBaseline(st, id)
  {
    var st' := Uploaded(st, up);
    assert id in st'.sources && st'.sources[id].slug == st.sources[id].slug
           && st'.sources[id].integration == st.sources[id].integration;
    hide GoodUpload, BaselineMap, FindInitial, Uploaded, Linked, UniqueSlugs, DistinctTimes;
    InitialBehindUpload(st, up, id);
    var s := FindInitial(st.snapshots, st.sources[id].integration, st.sources[id].slug).value;
    UploadKeepsBaseline(st, up, s);
  }

  /** The first upload of a source decides its first baseline: the uploaded rows. */
  lemma FirstUploadIsBaseline(st: State, up: Upload)
    requires Good(st) && GoodUpload(st, up) && FirstBaseline(st, up.source) == None
    ensures FirstBaseline(Uploaded(st, up), up.source) == Some(ItemsMap(up.items))
  {
    KeptIsGoodLog(st);
    FindInitialIff(st.snapshots, up.integration, up.table);
    UploadedTables(st, up, up.source);
    var st' := Uploaded(st, up);
    assert st'.snapshots == st.snapshots[st.nextId := Snapshot(up.integration, up.table, up.now)];
    assert st'.log == st.log + BaselineEvents(st.nextId + 1, st.nextId, up.items);
    assert st'.sources[up.source].integration == up.integration && st'.sources[up.source].slug == up.table;
    assert forall i :: 0 <= i < |st.log| ==> st.log[i].snapshot != st.nextId;
    hide Good, BaselineMap, FindInitial, Uploaded, GoodUpload, Linked, GoodLog, BaselineEvents, DistinctTimes;
    OnlyInitial(st.snapshots, st'.snapshots, st.nextId, up);
    FoundInitial(st'.snapshots, up.integration, up.table, st.nextId);
    BaselineMapOfItems(st.log, st.nextId + 1, st.nextId, up.items);
  }

  lemma OnlyInitial(snapshots: map<Id, Snapshot>, snaps: map<Id, Snapshot>, s: Id, up: Upload)
    requires snaps == snapshots[s := Snapshot(up.integration, up.table, up.now)]
    requires TableOf(snapshots, up.integration, up.table) == {}
    ensures IsInitial(snaps, up.integration, up.table, s)
  {
    assert forall x :: x in snapshots && InTable(snapshots, up.integration, up.table, x) ==>
             x in TableOf(snapshots, up.integration, up.table);
  }

  /** No operation but its deletion changes the first baseline of a source, whatever is uploaded later. */
  lemma FirstBaselineStays(st: State, op: Op, id: Id)
    requires Good(st) && Sound(st, op) && id in st.sources && FirstBaseline(st, id).Some? && id in Next(st, op).sources
    ensures FirstBaseline(Next(st, op), id) == FirstBaseline(st, id)
  {
    hide FirstBaseline;
    if Serve(st, op).Ok? {
      match op
      case Register(integration, slug) =>
        KeptIsGoodLog(st);
        RegisterKeepsFirst(st, integration, slug, id);
      case Rename(source, integration, slug) => RenameKeepsFirst(st, source, integration, slug, id);
      case Delete(source, integration) => DeleteKeepsFirst(st, source, id);
      case UploadBaseline(source, integration, now, items) =>
        KeptIsGoodLog(st);
        UploadKeepsFirst(st, Upload(source, integration, st.sources[source].slug, now, items), id);
      case CreateEntity(_, _, _, _) => PlannedKeepsFirst(st, op, id);
      case RollbackEntity(_, _, _, _) => PlannedKeepsFirst(st, op, id);
      case RollbackComplete(integration, source, orders) => FullKeepsFirst(st, integration, source, orders, id);
      case Execute(integration, mutations, env, scenario) =>
        BatchIsFold(st, integration, mutations, env, scenario);
        CommitKeepsFirst(st, PlanOf(BatchOf(st, integration, mutations, env, scenario).value), id);
      case Sync(integration, source) => SyncChangesNothing(st, integration, source);
    }
    hide Good, Commit, BatchOf, PlanCreate, PlanRollback, ServeFull, CreateSource, RenameSource, DeleteSource, SyncNow;
  }

  lemma RegisterKeepsFirst(st: State, integration: Id, slug: string, id: Id)
    requires Linked(st) && CreateSource(st, integration, slug).Ok? && id in st.sources
    ensures FirstBaseline(CreateSource(st, integration, slug).value, id) == FirstBaseline(st, id)
  {
    hide SlugTaken, BaselineMap, FindInitial;
    assert st.nextId !in st.sources;
    hide Linked;
  }

  lemma RenameKeepsFirst(st: State, source: Id, integration: Id, slug: string, id: Id)
    requires Good(st) && RenameSource(st, source, integration, slug).Ok? && id in st.sources
    ensures var st' := RenameSource(st, source, integration, slug).value;
            id in st'.sources && FirstBaseline(st', id) == FirstBaseline(st, id)
  {
    hide Kept, CountsAreRight, BeforesRecorded, Owned, UniqueSlugs, DistinctTimes;
    hide SlugTaken, BaselineMap, FindInitial, FindLatest, TableOf, Retabled;
    RenamedTable(st, source, integration, slug, id);
  }

  lemma DeleteKeepsFirst(st: State, source: Id, id: Id)
    requires Good(st) && source in st.sources && id in st.sources && id != source
    ensures var st' := DeleteSource(st, source, st.sources[source].integration, st.sources[source].slug).value;
            id in st'.sources && FirstBaseline(st', id) == FirstBaseline(st, id)
  {
    DeletedTable(st, source, id);
    var initial := FindInitial(st.snapshots, st.sources[id].integration, st.sources[id].slug);
    assert initial.Some? ==> InTable(st.snapshots, st.sources[id].integration, st.sources[id].slug, initial.value);
    hide Good, BaselineMap, FindInitial, FindLatest, TableOf, LogWithout, RowsWithout, InTable;
  }

  lemma PlannedKeepsFirst(st: State, op: Op, id: Id)
    requires Good(st) && (op.CreateEntity? || op.RollbackEntity?) && Serve(st, op).Ok? && id in st.sources
    ensures id in Serve(st, op).value.sources && FirstBaseline(Serve(st, op).value, id) == FirstBaseline(st, id)
  {
    assert Kept(st);
    hide Good, Kept, Commit, PlanCreate, PlanRollback, FirstBaseline, KnownSnapshots, TrueBefores, CountsFit, AllHonest;
    if op.CreateEntity? {
      CreateIsFresh(st, op.integration, op.source, op.rawId, op.payload);
      CommitKeepsFirst(st, PlanCreate(st, op.integration, op.source, op.rawId, op.payload).value, id);
    } else {
      RollbackIsFresh(st, op.integration, op.source, op.rawId, op.eventId);
      CommitKeepsFirst(st, PlanRollback(st, op.integration, op.source, op.rawId, op.eventId).value, id);
    }
  }

  lemma FullKeepsFirst(st: State, integration: Id, source: Id, o: Orders, id: Id)
    requires Kept(st) && ServeFull(st, integration, source, o).Ok? && id in st.sources
    ensures var st' := ServeFull(st, integration, source, o).value;
            id in st'.sources && FirstBaseline(st', id) == FirstBaseline(st, id)
  {
    hide Kept, Commit, ReadForRollback, OrdersFor, GoodReading, FullWrites, FirstBaseline, AllHonest;
    ReadingIsGood(st, integration, source);
    var r := ReadForRollback(st, integration, source).value;
    FullWritesAreHonest(r, o);
    CommitKeepsFirst(st, PlanFull(r, o, source), id);
  }

  lemma ReadingFindsFirst(st: State, integration: Id, source: Id)
    requires HasSource(st, integration, source)
    ensures var read := ReadForRollback(st, integration, source);
            && (read.Ok? <==> FirstBaseline(st, source).Some? && FirstBaseline(st, source).value != map[])
            && (read.Ok? ==> Some(read.value.baseline) == FirstBaseline(st, source))
  {
    FindLatestIff(st.snapshots, integration, st.sources[source].slug);
    FindInitialIff(st.snapshots, integration, st.sources[source].slug);
    hide FindLatest, FindInitial, TableOf, BaselineMap, CurrentMap;
  }

  /** What RollbackComplete leaves: the projection is the baseline, at the price of one event per differing entity. */
  ghost predicate RolledBack(st: State, st': State, r: Reading) {
    && (forall e :: RowData(st'.rows, r.snapshot, e) == if e in r.baseline then [r.baseline[e]] else [])
    && |st'.log| == |st.log| + |Differing(r.current, r.baseline)| + |Surplus(r.current, r.baseline)|
  }

  /**
    RollbackComplete of any good store, in either loop order: it succeeds exactly
    if the source has a first baseline with rows, and then its projection is that.
   */
  lemma CompleteRollbackRestoresFirst(st: State, integration: Id, source: Id, o: Orders)
    requires Good(st) && HasSource(st, integration, source)
    requires ReadForRollback(st, integration, source).Ok? ==>
               OrdersFor(o, ReadForRollback(st, integration, source).value)
    ensures ServeFull(st, integration, source, o).Ok?
            <==> FirstBaseline(st, source).Some? && FirstBaseline(st, source).value != map[]
    ensures ServeFull(st, integration, source, o).Ok? ==>
              && ReadForRollback(st, integration, source).Ok?
              && Some(ReadForRollback(st, integration, source).value.baseline) == FirstBaseline(st, source)
              && RolledBack(st, ServeFull(st, integration, source, o).value,
                            ReadForRollback(st, integration, source).value)
  {
    assert Kept(st);
    hide Good, Kept, ReadForRollback, FirstBaseline, OrdersFor, RolledBack;
    ReadingFindsFirst(st, integration, source);
    if ReadForRollback(st, integration, source).Ok? {
      hide ServeFull;
      ServedFull(st, integration, source, o);
    }
  }

  lemma ServedFull(st: State, integration: Id, source: Id, o: Orders)
    requires Kept(st) && ReadForRollback(st, integration, source).Ok?
    requires OrdersFor(o, ReadForRollback(st, integration, source).value)
    ensures var result := ServeFull(st, integration, source, o);
            result.Ok? && RolledBack(st, result.value, ReadForRollback(st, integration, source).value)
  {
    hide Kept, ReadForRollback, OrdersFor, GoodReading, FullWrites, Commit, RowData, Differing, Surplus;
    ReadingIsGood(st, integration, source);
    FullRollbackRestores(st, integration, source, o);
  }

  // -------- the first baseline, run long --------

  /** No id comes back, and only registering adds a source. */
  ghost predicate NoIdReturns(st: State, st': State) {
    st.nextId <= st'.nextId && forall id :: id in st'.sources && id < st.nextId ==> id in st.sources
  }

  lemma CommitReturnsNoId(st: State, plan: Plan)
    requires Commit(st, plan).Ok?
    ensures NoIdReturns(st, Commit(st, plan).value)
  {
    Committed(st, plan);
    AppliedAllLog(st, plan.writes);
    hide AppliedAll, KnownSnapshots;
  }

  lemma NextReturnsNoId(st: State, op: Op)
    requires Linked(st)
    ensures NoIdReturns(st, Next(st, op))
  {
    hide Commit, BatchOf, PlanCreate, PlanRollback, ReadForRollback, OrdersFor, GoodReading, PlanFull, SlugTaken;
    hide RowsWithout, LogWithout, BaselineRows, BaselineEvents, TableOf, FindLatest, CountRows, Retabled, Linked;
    if Serve(st, op).Ok? {
      match op
      case CreateEntity(integration, source, rawId, payload) =>
        CommitReturnsNoId(st, PlanCreate(st, integration, source, rawId, payload).value);
      case RollbackEntity(integration, source, rawId, eventId) =>
        CommitReturnsNoId(st, PlanRollback(st, integration, source, rawId, eventId).value);
      case RollbackComplete(integration, source, orders) =>
        CommitReturnsNoId(st, PlanFull(ReadForRollback(st, integration, source).value, orders, source));
      case Execute(integration, mutations, env, scenario) =>
        CommitReturnsNoId(st, PlanOf(BatchOf(st, integration, mutations, env, scenario).value));
      case _ =>
    }
  }

  lemma {:induction false} FirstBaselineLasts(st: State, ops: seq<Op>, id: Id)
    requires Good(st) && SoundRun(st, ops) && id in st.sources && FirstBaseline(st, id).Some?
    requires id in AfterOps(st, ops).sources
    ensures FirstBaseline(AfterOps(st, ops), id) == FirstBaseline(st, id)
    ensures st.nextId <= AfterOps(st, ops).nextId
  {
    assert id < st.nextId by { KeptIsGoodLog(st); }
    hide Good, Next, Sound, FirstBaseline;
    if ops != [] {
      var front := ops[..|ops| - 1];
      RunKeepsGood(st, front);
      RunReturnsNoId(st, front);
      var now := AfterOps(st, front);
      assert Linked(now) by { GoodIsLinked(now); }
      NextReturnsNoId(now, ops[|ops| - 1]);
      FirstBaselineLasts(st, front, id);
      FirstBaselineStays(now, ops[|ops| - 1], id);
    }
  }

  lemma GoodIsLinked(st: State)
    requires Good(st)
    ensures Linked(st)
  {
    KeptIsGoodLog(st);
  }

  lemma {:induction false} RunReturnsNoId(st: State, ops: seq<Op>)
    requires Good(st) && SoundRun(st, ops)
    ensures NoIdReturns(st, AfterOps(st, ops))
  {
    hide Good, Next, Sound;
    if ops != [] {
      var front := ops[..|ops| - 1];
      RunReturnsNoId(st, front);
      RunKeepsGood(st, front);
      GoodIsLinked(AfterOps(st, front));
      NextReturnsNoId(AfterOps(st, front), ops[|ops| - 1]);
    }
  }

  /**
    Once a source has had its first upload with rows, RollbackComplete at any
    later point of any run makes its projection the rows of that upload.
   */
  lemma FirstUploadDecidesRollback(st: State, up: Upload, ops: seq<Op>, o: Orders)
    requires Good(st) && GoodUpload(st, up) && FirstBaseline(st, up.source) == None && up.items != []
    requires SoundRun(Uploaded(st, up), ops) && HasSource(AfterOps(Uploaded(st, up), ops), up.integration, up.source)
    requires var now := AfterOps(Uploaded(st, up), ops);
             var read := ReadForRollback(now, up.integration, up.source);
             read.Ok? ==> OrdersFor(o, read.value)
    ensures var now := AfterOps(Uploaded(st, up), ops);
            var read, result := ReadForRollback(now, up.integration, up.source),
                                ServeFull(now, up.integration, up.source, o);
            && read.Ok? && result.Ok? && read.value.baseline == ItemsMap(up.items)
            && RolledBack(now, result.value, read.value)
  {
    hide Tallied, BeforesRecorded, Uploaded, FirstBaseline, ItemsMap, AfterOps, SoundRun, RolledBack, ServeFull;
    hide OrdersFor, ReadForRollback, InOrder, DistinctIds, GoodItems;
    var first := Uploaded(st, up);
    UploadKeepsGood(st, up);
    FirstUploadIsBaseline(st, up);
    UploadedHasSource(st, up);
    ItemsMapHasLast(up.items);
    hide GoodUpload, Good;
    FirstBaselineLasts(first, ops, up.source);
    RunKeepsGood(first, ops);
    CompleteRollbackRestoresFirst(AfterOps(first, ops), up.integration, up.source, o);
  }

  lemma UploadedHasSource(st: State, up: Upload)
    requires up.source in st.sources
    ensures up.source in Uploaded(st, up).sources
  {
    hide RowsWithout, BaselineRows, BaselineEvents, TableOf;
  }

  lemma ItemsMapHasLast(items: seq<Item>)
    requires items != []
    ensures items[|items| - 1].entityId in ItemsMap(items)
  {
  }
}
