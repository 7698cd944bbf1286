/**
  Record counts while operations overlap: they stay right as long as every
  transaction still meets what its operation read of its own source.
 */
module CountedRuns {
  import opened Wrappers
  import opened EntityStore
  import opened ReplayInvariant
  import opened InterleavedRuns
  import opened Operations
  import opened RuntimeBatch
  import opened SequentialRuns
  import opened SourceLife
  import opened StaleTransactions
  import opened ConcurrentRuns

  // -------- one transaction --------

  /** Every snapshot the plan counts is still the latest of its source; sources that are gone make it fail. */
  ghost predicate StillLatest(st: State, plan: Plan) {
    forall id :: id in plan.counts && id in st.sources ==> LatestOf(st, id, plan.counts[id])
  }

  /** The window of a transaction: its source still has the slug, the latest snapshot or the count that was read. */
  ghost predicate InWindow(st: State, step: Step) {
    match step
    case Transact(plan) => Targeted(plan) && StillLatest(st, plan)
    case Import(up) => up.source in st.sources ==> OwnTable(st, up.source, up.integration, up.table)
    case Remove(source, integration, slug) =>
      HasSource(st, integration, source) ==> OwnTable(st, source, integration, slug)
    case Recount(source, n) => source in st.sources ==> n == st.sources[source].recordCount
    case _ => true
  }

  predicate OwnTable(st: State, source: Id, integration: Id, slug: string)
    requires source in st.sources
  {
    st.sources[source].integration == integration && st.sources[source].slug == slug
  }

  lemma PlanKeepsTally(st: State, plan: Plan)
    requires Tallied(st) && AllHonest(plan.writes) && Targeted(plan) && StillLatest(st, plan) && Commit(st, plan).Ok?
    ensures Tallied(Commit(st, plan).value)
  {
    assert CountsFit(st, plan) by { FitsWhenLatest(st, plan); }
    hide Kept, AllHonest, Owned, UniqueSlugs, CountsAreRight, CountsFit, Commit;
    CommitKeeps(st, plan);
    Committed(st, plan);
    CountsAfterCommit(st, plan);
    TablesAfterCommit(st, Commit(st, plan).value, plan);
  }

  lemma FitsWhenLatest(st: State, plan: Plan)
    requires Targeted(plan) && StillLatest(st, plan) && Commit(st, plan).Ok?
    ensures CountsFit(st, plan)
  {
    hide AppliedAll, KnownSnapshots, LatestOf;
    forall w | w in plan.writes ensures exists id :: id in plan.counts && plan.counts[id] == w.snapshot {
      assert Counts(plan, w.snapshot);
    }
  }

  lemma RecountKeepsTally(st: State, source: Id, n: nat)
    requires Tallied(st) && source in st.sources && n == st.sources[source].recordCount
    ensures SetCount(st, source, n) == Ok(st)
  {
    hide Tallied;
    assert st.sources[source := st.sources[source].(recordCount := n)] == st.sources;
  }

  /** A transaction within its window keeps owners, creation times and every record count right. */
  lemma StepKeepsTally(st: State, step: Step)
    requires Tallied(st) && Admissible(st, step) && InWindow(st, step)
    ensures Tallied(Take(st, step))
  {
    hide Tallied, AllHonest, Targeted, StillLatest, DistinctIds, GoodItems, InOrder, Commit, Uploaded, SetCount;
    hide SlugTaken, Good;
    if Outcome(st, step).Ok? {
      match step
      case Create(integration, slug) => NewSourceStartsEmpty(st, integration, slug);
      case Rename(source, integration, slug) => RenameKeepsGood(st, source, integration, slug);
      case Remove(source, integration, slug) => DeleteKeepsGood(st, source);
      case Transact(plan) => PlanKeepsTally(st, plan);
      case Import(up) => UploadKeepsGood(st, up);
      case Recount(source, n) => RecountInWindow(st, source, n);
    }
  }

  lemma RecountInWindow(st: State, source: Id, n: nat)
    requires Tallied(st) && SetCount(st, source, n).Ok? && InWindow(st, Recount(source, n))
    ensures Tallied(SetCount(st, source, n).value)
  {
    hide Tallied;
    RecountKeepsTally(st, source, n);
  }

  // -------- every run --------

  /** A fair move, within the window of the transaction it finishes. Mutations need none: they read inside. */
  ghost predicate Timely(w: World, m: Move) {
    Fair(w, m) && (m.Finish? && m.i < |w.pending| ==> WindowOf(w.st, w.pending[m.i]))
  }

  ghost predicate WindowOf(st: State, p: Pending) {
    match p
    case Decided(plan) => StillLatest(st, plan)
    case Other(step) => InWindow(st, step)
    case _ => true
  }

  ghost predicate TimelyRun(w: World, ms: seq<Move>) {
    ms == [] || (TimelyRun(w, ms[..|ms| - 1]) && Timely(AfterMoves(w, ms[..|ms| - 1]), ms[|ms| - 1]))
  }

  lemma {:induction false} TimelyIsFair(w: World, ms: seq<Move>)
    requires TimelyRun(w, ms)
    ensures FairRun(w, ms)
  {
    hide Fair, MoveTo;
    if ms != [] { TimelyIsFair(w, ms[..|ms| - 1]); }
  }

  lemma BatchKeepsTally(st: State, integration: Id, ms: seq<Mutation>, env: Env, scenario: string, b: Batch)
    requires Tallied(st) && BatchOf(st, integration, ms, env, scenario) == Ok(b) && Commit(st, PlanOf(b)).Ok?
    ensures Tallied(Commit(st, PlanOf(b)).value)
  {
    assert Kept(st) && UniqueSlugs(st.sources) && Owned(st) && DistinctTimes(st.snapshots) && CountsAreRight(st);
    hide Tallied, Kept, BatchOf, AllHonest, KnownSnapshots, TrueBefores, Owned, UniqueSlugs, CountsAreRight;
    hide DistinctTimes, CountsFit, Commit;
    BatchIsFresh(st, integration, ms, env, scenario);
    CommitKeeps(st, PlanOf(b));
    Committed(st, PlanOf(b));
    CountsAfterCommit(st, PlanOf(b));
    TablesAfterCommit(st, Commit(st, PlanOf(b)).value, PlanOf(b));
    assert Tallied(Commit(st, PlanOf(b)).value) by { TallyOf(Commit(st, PlanOf(b)).value); }
  }

  lemma TallyOf(st: State)
    requires Kept(st) && UniqueSlugs(st.sources) && Owned(st) && DistinctTimes(st.snapshots) && CountsAreRight(st)
    ensures Tallied(st)
  {
  }

  lemma CarryOutKeepsTally(w: World, i: nat)
    requires Tallied(w.st) && i < |w.pending| && HonestPending(w.pending[i]) && Timely(w, Finish(i))
    ensures Tallied(CarryOut(w.st, w.pending[i]))
  {
    hide Tallied, BatchOf, DistinctIds, GoodItems, InOrder, AllHonest, Targeted, StillLatest, GoodQuery, Commit;
    var st := w.st;
    match w.pending[i]
    case Reads(_) =>
    case Decided(plan) => StepKeepsTally(st, Transact(plan));
    case Mutations(integration, mutations, env, scenario) =>
      var r := BatchOf(st, integration, mutations, env, scenario);
      if r.Ok? && Commit(st, PlanOf(r.value)).Ok? {
        BatchKeepsTally(st, integration, mutations, env, scenario, r.value);
      }
    case Other(step) => StepKeepsTally(st, step);
  }

  lemma {:induction false} RunKeepsTally(w: World, ms: seq<Move>)
    requires Sane(w) && Tallied(w.st) && TimelyRun(w, ms)
    ensures Tallied(AfterMoves(w, ms).st)
  {
    hide Tallied, Kept, Timely, CarryOut, Answer, HonestPending, Fair;
    if ms != [] {
      var front, m := ms[..|ms| - 1], ms[|ms| - 1];
      RunKeepsTally(w, front);
      TimelyIsFair(w, front);
      RunKeepsSane(w, front);
      var now := AfterMoves(w, front);
      hide AfterMoves, TimelyRun, FairRun;
      if m.Finish? && m.i < |now.pending| && !now.pending[m.i].Reads? {
        CarryOutKeepsTally(now, m.i);
      }
      assert AfterMoves(w, ms) == MoveTo(now, m) by { LastMove(w, ms); }
    }
  }

  lemma LastMove(w: World, ms: seq<Move>)
    requires ms != []
    ensures AfterMoves(w, ms) == MoveTo(AfterMoves(w, ms[..|ms| - 1]), ms[|ms| - 1])
  {
    hide MoveTo;
  }

  /**
    Whatever overlaps: if every plan finishes while the snapshots it counted are
    still the latest of their sources, uploads and deletions while the slug they
    read is still that of their source, and syncs while the count is the one they
    found, then after every committed step every record count is the number of
    rows of the latest snapshot, and every snapshot has one owner.
   */
  lemma OverlappingCountsTheorem(ms: seq<Move>)
    requires TimelyRun(START, ms)
    ensures var st := AfterMoves(START, ms).st;
            && (forall id :: id in st.sources ==> CountIsRight(st, id))
            && (forall s :: s in st.snapshots ==> exists id :: Owns(st.sources, id, st.snapshots, s))
            && (forall s, i, j :: Owns(st.sources, i, st.snapshots, s) && Owns(st.sources, j, st.snapshots, s) ==>
                  i == j)
  {
    StartIsSane();
    EmptyIsGood();
    assert Tallied(START.st);
    RunKeepsTally(START, ms);
    hide Kept, AfterMoves, TimelyRun, CountIsRight, DistinctTimes;
  }

  // -------- how long a window lasts --------

  /** The transaction is an upload of this source. */
  ghost predicate UploadsTo(step: Step, id: Id) {
    step.Import? && step.upload.source == id
  }

  /** Only an upload of the source ends the window of a plan for it. */
  lemma StepKeepsLatest(st: State, step: Step, id: Id, s: Id)
    requires Tallied(st) && Admissible(st, step) && InWindow(st, step) && LatestOf(st, id, s)
    requires !UploadsTo(step, id) && id in Take(st, step).sources
    ensures LatestOf(Take(st, step), id, s)
  {
    hide AllHonest, Targeted, StillLatest, DistinctIds, GoodItems, InOrder, SlugTaken, FindLatest, FindInitial, Tallied;
    hide CreateSource, RenameSource, Commit, RowsWithout, LogWithout, BaselineRows, BaselineEvents;
    if Outcome(st, step).Ok? {
      match step
      case Create(integration, slug) => RegisterKeepsLatest(st, integration, slug, id, s);
      case Rename(source, integration, slug) => RenameKeepsLatest(st, source, integration, slug, id, s);
      case Remove(source, integration, slug) => RemovalKeepsLatest(st, source, id, s);
      case Transact(plan) => PlanKeepsLatest(st, plan, id, s);
      case Import(up) => UploadElsewhereKeepsLatest(st, up, id, s);
      case Recount(_, _) =>
    }
  }

  lemma RenameKeepsLatest(st: State, source: Id, integration: Id, slug: string, id: Id, s: Id)
    requires Tallied(st) && RenameSource(st, source, integration, slug).Ok? && LatestOf(st, id, s)
    ensures LatestOf(RenameSource(st, source, integration, slug).value, id, s)
  {
    hide Kept, CountsAreRight, Owned, UniqueSlugs, DistinctTimes, SlugTaken, FindLatest, FindInitial, TableOf;
    hide RenameSource;
    RenamedTable(st, source, integration, slug, id);
  }

  lemma RegisterKeepsLatest(st: State, integration: Id, slug: string, id: Id, s: Id)
    requires Tallied(st) && CreateSource(st, integration, slug).Ok? && LatestOf(st, id, s)
    ensures LatestOf(CreateSource(st, integration, slug).value, id, s)
  {
    hide Tallied, SlugTaken, FindLatest;
    NextIdIsFree(st);
  }

  lemma NextIdIsFree(st: State)
    requires Tallied(st)
    ensures st.nextId !in st.sources
  {
    hide Owned, UniqueSlugs, DistinctTimes, CountsAreRight;
    KeptIsGoodLog(st);
    hide Kept;
  }

  lemma RemovalKeepsLatest(st: State, source: Id, id: Id, s: Id)
    requires Tallied(st) && source in st.sources && id != source && LatestOf(st, id, s)
    ensures LatestOf(DeleteSource(st, source, st.sources[source].integration, st.sources[source].slug).value, id, s)
  {
    hide Kept, CountsAreRight, FindLatest, FindInitial, RowsWithout, LogWithout;
    DeletedTable(st, source, id);
  }

  lemma UploadElsewhereKeepsLatest(st: State, up: Upload, id: Id, s: Id)
    requires Tallied(st) && GoodUpload(st, up) && id != up.source && LatestOf(st, id, s)
    ensures LatestOf(Uploaded(st, up), id, s)
  {
    hide Kept, CountsAreRight, Owned, UniqueSlugs, DistinctTimes, FindLatest, DistinctIds, GoodItems, InOrder;
    hide GoodLog, Linked, Uploaded;
    KeptIsGoodLog(st);
    UploadedTables(st, up, id);
    assert Uploaded(st, up).sources[id] == st.sources[id] by { UploadedSource(st, up, id); }
  }

  lemma UploadedSource(st: State, up: Upload, id: Id)
    requires up.source in st.sources && id in st.sources && id != up.source
    ensures id in Uploaded(st, up).sources && Uploaded(st, up).sources[id] == st.sources[id]
  {
    hide RowsWithout, BaselineRows, BaselineEvents, TableOf;
  }

  /** Between the two states of the run no upload of the source finishes. */
  ghost predicate NoUploadOf(w: World, ms: seq<Move>, id: Id) {
    ms == [] || (NoUploadOf(w, ms[..|ms| - 1], id) && !FinishesUpload(AfterMoves(w, ms[..|ms| - 1]), ms[|ms| - 1], id))
  }

  ghost predicate FinishesUpload(w: World, m: Move, id: Id) {
    m.Finish? && m.i < |w.pending| && w.pending[m.i].Other? && UploadsTo(w.pending[m.i].step, id)
  }

  /** The source is there all along. */
  ghost predicate Stays(w: World, ms: seq<Move>, id: Id) {
    id in AfterMoves(w, ms).st.sources && (ms == [] || Stays(w, ms[..|ms| - 1], id))
  }

  lemma MoveKeepsLatest(w: World, m: Move, id: Id, s: Id)
    requires Sane(w) && Tallied(w.st) && Timely(w, m) && LatestOf(w.st, id, s)
    requires !FinishesUpload(w, m, id) && id in MoveTo(w, m).st.sources
    ensures LatestOf(MoveTo(w, m).st, id, s)
  {
    hide Tallied, Kept, LatestOf, BatchOf, Answer, Take, InWindow, StillLatest, GoodQuery, DistinctIds, GoodItems;
    hide InOrder, AllHonest, Targeted;
    if m.Finish? && m.i < |w.pending| && !w.pending[m.i].Reads? {
      match w.pending[m.i]
      case Decided(plan) => PlanKeepsLatest(w.st, plan, id, s);
      case Mutations(integration, mutations, env, scenario) =>
        var r := BatchOf(w.st, integration, mutations, env, scenario);
        if r.Ok? { PlanKeepsLatest(w.st, PlanOf(r.value), id, s); }
      case Other(step) => StepKeepsLatest(w.st, step, id, s);
    }
  }

  lemma PlanKeepsLatest(st: State, plan: Plan, id: Id, s: Id)
    requires LatestOf(st, id, s)
    ensures LatestOf(Take(st, Transact(plan)), id, s)
  {
    hide Commit, FindLatest;
    if Commit(st, plan).Ok? { Committed(st, plan); }
  }

  /**
    So a plan that finds its latest snapshot finishes within its window if no
    upload of that source finishes in between and the source is not removed.
   */
  lemma {:induction false} WindowLasts(w: World, ms: seq<Move>, id: Id, s: Id)
    requires Sane(w) && Tallied(w.st) && TimelyRun(w, ms) && LatestOf(w.st, id, s)
    requires NoUploadOf(w, ms, id) && Stays(w, ms, id)
    ensures LatestOf(AfterMoves(w, ms).st, id, s)
  {
    hide Sane, Tallied, LatestOf, MoveTo, Timely, FinishesUpload;
    if ms != [] {
      var front, m := ms[..|ms| - 1], ms[|ms| - 1];
      WindowLasts(w, front, id, s);
      TimelyIsFair(w, front);
      RunKeepsSane(w, front);
      RunKeepsTally(w, front);
      MoveKeepsLatest(AfterMoves(w, front), m, id, s);
    }
  }
}
