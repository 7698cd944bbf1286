/**
  The statements and transactions that write packs and endpoints, on whatever the
  tables have become since their values were read
  (apps/api/internal/core/usecase/integration_service.go over
  apps/api/internal/adapters/sqlite/store.go): what every one of them keeps, and
  exactly when it keeps all endpoints under the base path of their pack.
 */
module RouteTransactions {
  import opened Wrappers
  import opened Text
  import opened PathTemplates
  import opened PackPaths
  import opened RouteTable

  datatype Table = Table(packs: map<Id, Pack>, eps: Endpoints, nextId: Id)

  // -------- packs --------

  /** UNIQUE(integration_id, slug). */
  predicate PackSlugTaken(packs: map<Id, Pack>, slug: string, except: Option<Id>) {
    exists p :: p in packs && packs[p].slug == slug && Some(p) != except
  }

  ghost predicate DistinctPackSlugs(packs: map<Id, Pack>) {
    forall p, q :: p in packs && q in packs && packs[p].slug == packs[q].slug ==> p == q
  }

  /** What UpdatePack is given: the fields to change, and what serializing the policy yields. */
  datatype PackInput = PackInput(name: Option<string>, slug: Option<string>, basePath: Option<string>,
                                 status: Option<string>,
                                 authEnabled: Option<bool>, authPolicy: Option<Result<string, Error>>)

  function CleanSlug(slug: string): string {
    ToLower(TrimSpace(slug))
  }

  function CleanStatus(status: string): string {
    ToUpper(TrimSpace(status))
  }

  predicate RefusesText(input: PackInput) {
    || (input.name.Some? && TrimSpace(input.name.value) == "")
    || (input.slug.Some? && CleanSlug(input.slug.value) == "")
    || (input.basePath.Some? && NormalizePath(input.basePath.value).None?)
    || (input.status.Some? && CleanStatus(input.status.value) == "")
  }

  /** The checks of UpdatePack on its input. Only when all texts are accepted does the policy matter. */
  function EditedPack(pack: Pack, input: PackInput): Result<Pack, Error> {
    if RefusesText(input) then Err(InvalidInput)
    else if input.authPolicy.Some? && input.authPolicy.value.Err? then Err(input.authPolicy.value.error)
    else
      Ok(Pack(if input.name.Some? then TrimSpace(input.name.value) else pack.name,
              if input.slug.Some? then CleanSlug(input.slug.value) else pack.slug,
              if input.basePath.Some? then NormalizePath(input.basePath.value).value else pack.basePath,
              if input.status.Some? then CleanStatus(input.status.value) else pack.status,
              if input.authEnabled.Some? then input.authEnabled.value else pack.authEnabled,
              if input.authPolicy.Some? then input.authPolicy.value.value else pack.authPolicy))
  }

  /** Every field that was given has its cleaned value, and every other its old one. */
  ghost predicate HasFields(now: Pack, was: Pack, input: PackInput) {
    && now.name == (if input.name.Some? then TrimSpace(input.name.value) else was.name)
    && now.slug == (if input.slug.Some? then ToLower(TrimSpace(input.slug.value)) else was.slug)
    && Some(now.basePath) == (if input.basePath.Some? then NormalizePath(input.basePath.value) else Some(was.basePath))
    && now.status == (if input.status.Some? then ToUpper(TrimSpace(input.status.value)) else was.status)
    && now.authEnabled == (if input.authEnabled.Some? then input.authEnabled.value else was.authEnabled)
    && Ok(now.authPolicy) == (if input.authPolicy.Some? then input.authPolicy.value else Ok(was.authPolicy))
  }

  /** A name, slug or status that is blank, or a base path that does not normalise. */
  ghost predicate HasBlankField(input: PackInput) {
    || (input.name.Some? && TrimSpace(input.name.value) == "")
    || (input.slug.Some? && ToLower(TrimSpace(input.slug.value)) == "")
    || (input.basePath.Some? && NormalizePath(input.basePath.value).None?)
    || (input.status.Some? && ToUpper(TrimSpace(input.status.value)) == "")
  }

  /** A pack edit is accepted exactly without blank fields and with a policy that serializes. */
  lemma EditedPackMeans(pack: Pack, input: PackInput)
    ensures var r := EditedPack(pack, input);
            && (r.Ok? <==> !HasBlankField(input) && (input.authPolicy.Some? ==> input.authPolicy.value.Ok?))
            && (r.Ok? ==> HasFields(r.value, pack, input))
            && (HasBlankField(input) ==> r == Err(InvalidInput))
  {
    hide TrimSpace, ToLower, ToUpper, NormalizePath;
  }

  lemma EditedPackIsNormal(pack: Pack, input: PackInput)
    requires NormalPath(pack.basePath) && EditedPack(pack, input).Ok?
    ensures NormalPath(EditedPack(pack, input).value.basePath)
  {
    if input.basePath.Some? && NormalizePath(input.basePath.value).Some? { NormalizeIdempotent(input.basePath.value); }
    hide NormalizePath, TrimSpace, ToLower, ToUpper;
  }

  /** UpdatePack of the repository; a row that is gone is not an error. */
  function PutPackRow(packs: map<Id, Pack>, packId: Id, pack: Pack): Result<map<Id, Pack>, Error> {
    if packId !in packs then Ok(packs)
    else if PackSlugTaken(packs, pack.slug, Some(packId)) then Err(AlreadyExists)
    else Ok(packs[packId := pack])
  }

  // -------- rows that move --------

  /** A new method and path for one endpoint. */
  datatype Moved = Moved(id: Id, verb: string, path: string)

  predicate RouteTaken(eps: Endpoints, verb: string, path: string, except: Id) {
    exists i :: i in eps && i != except && SameRoute(eps[i], verb, path)
  }

  /** UpdateEndpointRoute of the repository. */
  function MoveRow(eps: Endpoints, packId: Id, row: Moved): Result<Endpoints, Error> {
    if row.id !in eps || eps[row.id].packId != packId then Err(NotFound)
    else if RouteTaken(eps, row.verb, row.path, row.id) then Err(AlreadyExists)
    else Ok(eps[row.id := eps[row.id].(verb := row.verb, path := row.path)])
  }

  /** The row updates of a rebase, one after the other. */
  function MoveAll(eps: Endpoints, packId: Id, rows: seq<Moved>): Result<Endpoints, Error> {
    if rows == [] then Ok(eps)
    else match MoveAll(eps, packId, rows[..|rows| - 1])
      case Err(error) => Err(error)
      case Ok(now) => MoveRow(now, packId, rows[|rows| - 1])
  }

  /** The transaction of UpdatePack: the pack's row, then its endpoints; any failure undoes all of it. */
  function CommitPack(t: Table, packId: Id, pack: Pack, rows: seq<Moved>): Result<Table, Error> {
    match PutPackRow(t.packs, packId, pack)
    case Err(error) => Err(error)
    case Ok(packs) =>
      match MoveAll(t.eps, packId, rows)
      case Err(error) => Err(error)
      case Ok(eps) => Ok(t.(packs := packs, eps := eps))
  }

  /** The endpoint with this route, if there is one. */
  ghost function Holder(eps: Endpoints, verb: string, path: string): (r: Option<Id>)
    ensures r.Some? ==> r.value in eps && SameRoute(eps[r.value], verb, path)
    ensures r.None? ==> forall i :: i in eps ==> !SameRoute(eps[i], verb, path)
  {
    if i :| i in eps && SameRoute(eps[i], verb, path) then Some(i) else None
  }

  /**
    UpsertEndpoint: whoever holds the route is overwritten under its own id; else
    the endpoint is inserted, which fails for an id in use and a missing pack.
   */
  ghost function Upsert(t: Table, id: Id, e: Endpoint): Result<Endpoints, Error> {
    if e.packId !in t.packs then Err(Constraint)
    else match Holder(t.eps, e.verb, e.path)
      case Some(i) => Ok(t.eps[i := e])
      case None => if id in t.eps then Err(Constraint) else Ok(t.eps[id := e])
  }

  // -------- steps --------

  datatype Step =
    | AddPack(pack: Pack)
    | PutPack(packId: Id, pack: Pack, rows: seq<Moved>)
    | MoveEndpoint(packId: Id, row: Moved)
    | Write(known: Option<Id>, endpoint: Endpoint)

  ghost function Outcome(t: Table, step: Step): Result<Table, Error> {
    match step
    case AddPack(pack) =>
      if PackSlugTaken(t.packs, pack.slug, None) then Err(AlreadyExists)
      else Ok(t.(packs := t.packs[t.nextId := pack], nextId := t.nextId + 1))
    case PutPack(packId, pack, rows) => CommitPack(t, packId, pack, rows)
    case MoveEndpoint(packId, row) =>
      (match MoveRow(t.eps, packId, row)
       case Err(error) => Err(error)
       case Ok(eps) => Ok(t.(eps := eps)))
    case Write(known, e) =>
      (match Upsert(t, if known.Some? then known.value else t.nextId, e)
       case Err(error) => Err(error)
       case Ok(eps) => Ok(t.(eps := eps, nextId := if known.Some? then t.nextId else t.nextId + 1)))
  }

  /** A statement or transaction that fails changes nothing. */
  ghost function Take(t: Table, step: Step): Table {
    match Outcome(t, step)
    case Ok(t') => t'
    case Err(_) => t
  }

  // -------- what every step keeps --------

  ghost predicate NormalPacks(packs: map<Id, Pack>, nextId: Id) {
    forall p :: p in packs ==> p < nextId && NormalPath(packs[p].basePath)
  }

  ghost predicate NormalEndpoint(e: Endpoint, packs: map<Id, Pack>) {
    e.packId in packs && NormalVerb(e.verb) && NormalPath(e.path)
  }

  ghost predicate NormalEndpoints(packs: map<Id, Pack>, eps: Endpoints, nextId: Id) {
    forall i :: i in eps ==> i < nextId && NormalEndpoint(eps[i], packs)
  }

  /** Routes and slugs are unique, methods and paths normal, and every endpoint has its pack. */
  ghost predicate Sound(t: Table) {
    && NormalPacks(t.packs, t.nextId) && DistinctPackSlugs(t.packs)
    && NormalEndpoints(t.packs, t.eps, t.nextId) && Unique(t.eps)
  }

  /** Every endpoint lies under the base path of its pack. */
  ghost predicate Based(t: Table) {
    forall i :: i in t.eps && t.eps[i].packId in t.packs ==> UnderBase(t.eps[i].path, t.packs[t.eps[i].packId].basePath)
  }

  /** The two together are what the operations keep when each runs at once. */
  lemma SoundAndBasedIsGood(t: Table)
    ensures Sound(t) && Based(t) <==> GoodTable(t.packs, t.eps, t.nextId) && DistinctPackSlugs(t.packs)
  {
    hide NormalPath, NormalVerb, UnderBase, Unique, DistinctPackSlugs;
    if Sound(t) && Based(t) {
      forall i | i in t.eps ensures i < t.nextId && GoodEndpoint(t.eps[i], t.packs) {
        assert NormalEndpoint(t.eps[i], t.packs);
      }
    }
    if GoodTable(t.packs, t.eps, t.nextId) {
      forall i | i in t.eps ensures i < t.nextId && NormalEndpoint(t.eps[i], t.packs) {
        assert GoodEndpoint(t.eps[i], t.packs);
      }
      assert Based(t) by {
        forall i | i in t.eps ensures UnderBase(t.eps[i].path, t.packs[t.eps[i].packId].basePath) {
          assert GoodEndpoint(t.eps[i], t.packs);
        }
      }
    }
  }

  ghost predicate NormalRow(row: Moved) {
    NormalVerb(row.verb) && NormalPath(row.path)
  }

  ghost predicate DistinctRows(rows: seq<Moved>) {
    forall i, j :: 0 <= i < j < |rows| ==> rows[i].id != rows[j].id
  }

  /** The values of a step are normal; nothing is asked of how old they are. */
  ghost predicate NormalStep(step: Step) {
    match step
    case AddPack(pack) => NormalPath(pack.basePath)
    case PutPack(_, pack, rows) =>
      NormalPath(pack.basePath) && DistinctRows(rows) && forall row :: row in rows ==> NormalRow(row)
    case MoveEndpoint(_, row) => NormalRow(row)
    case Write(_, e) => NormalVerb(e.verb) && NormalPath(e.path)
  }

  lemma MoveRowKeeps(packs: map<Id, Pack>, eps: Endpoints, nextId: Id, packId: Id, row: Moved)
    requires NormalEndpoints(packs, eps, nextId) && Unique(eps) && NormalRow(row) && MoveRow(eps, packId, row).Ok?
    ensures var eps' := MoveRow(eps, packId, row).value; NormalEndpoints(packs, eps', nextId) && Unique(eps')
  {
    hide NormalVerb, NormalPath;
    var eps' := MoveRow(eps, packId, row).value;
    forall i, j | i in eps' && j in eps' && SameRoute(eps'[i], eps'[j].verb, eps'[j].path) ensures i == j {
      assert !RouteTaken(eps, row.verb, row.path, row.id);
    }
  }

  lemma {:induction false} MoveAllKeeps(packs: map<Id, Pack>, eps: Endpoints, nextId: Id, packId: Id, rows: seq<Moved>)
    requires NormalEndpoints(packs, eps, nextId) && Unique(eps) && (forall row :: row in rows ==> NormalRow(row))
    requires MoveAll(eps, packId, rows).Ok?
    ensures var eps' := MoveAll(eps, packId, rows).value; NormalEndpoints(packs, eps', nextId) && Unique(eps')
  {
    hide NormalEndpoints, Unique, NormalRow, MoveRow;
    if rows != [] {
      var front, row := rows[..|rows| - 1], rows[|rows| - 1];
      assert row in rows && forall x :: x in front ==> x in rows;
      MoveAllKeeps(packs, eps, nextId, packId, front);
      MoveRowKeeps(packs, MoveAll(eps, packId, front).value, nextId, packId, row);
    }
  }

  lemma PutPackKeeps(packs: map<Id, Pack>, eps: Endpoints, nextId: Id, packId: Id, pack: Pack)
    requires NormalPacks(packs, nextId) && DistinctPackSlugs(packs) && NormalEndpoints(packs, eps, nextId)
    requires NormalPath(pack.basePath) && PutPackRow(packs, packId, pack).Ok?
    ensures var packs' := PutPackRow(packs, packId, pack).value;
            NormalPacks(packs', nextId) && DistinctPackSlugs(packs') && NormalEndpoints(packs', eps, nextId)
  {
    hide NormalVerb, NormalPath;
    var packs' := PutPackRow(packs, packId, pack).value;
    forall p, q | p in packs' && q in packs' && packs'[p].slug == packs'[q].slug ensures p == q {
      assert packId in packs ==> !PackSlugTaken(packs, pack.slug, Some(packId));
    }
  }

  lemma UpsertKeeps(t: Table, id: Id, e: Endpoint, nextId: Id)
    requires NormalEndpoints(t.packs, t.eps, t.nextId) && Unique(t.eps) && NormalVerb(e.verb) && NormalPath(e.path)
    requires t.nextId <= nextId && id < nextId && Upsert(t, id, e).Ok?
    ensures var eps' := Upsert(t, id, e).value; NormalEndpoints(t.packs, eps', nextId) && Unique(eps')
  {
    hide NormalVerb, NormalPath;
  }

  /**
    Whatever was read when: every statement and transaction keeps routes and slugs
    unique, values normal, and every endpoint in a pack.
   */
  lemma StepKeepsSound(t: Table, step: Step)
    requires Sound(t) && NormalStep(step)
    requires step.Write? && step.known.Some? ==> step.known.value < t.nextId
    ensures Sound(Take(t, step)) && t.nextId <= Take(t, step).nextId
  {
    hide NormalPacks, NormalEndpoints, Unique, DistinctPackSlugs, NormalPath, NormalVerb, Upsert;
    if Outcome(t, step).Ok? {
      match step
      case AddPack(pack) => AddPackKeeps(t, pack);
      case PutPack(packId, pack, rows) =>
        PutPackKeeps(t.packs, t.eps, t.nextId, packId, pack);
        MoveAllKeeps(PutPackRow(t.packs, packId, pack).value, t.eps, t.nextId, packId, rows);
      case MoveEndpoint(packId, row) => MoveRowKeeps(t.packs, t.eps, t.nextId, packId, row);
      case Write(known, e) =>
        var nextId := if known.Some? then t.nextId else t.nextId + 1;
        UpsertKeeps(t, if known.Some? then known.value else t.nextId, e, nextId);
        MoreIds(t.packs, t.nextId, nextId);
    }
  }

  lemma MoreIds(packs: map<Id, Pack>, nextId: Id, nextId': Id)
    requires NormalPacks(packs, nextId) && nextId <= nextId'
    ensures NormalPacks(packs, nextId')
  {
    hide NormalPath;
  }

  lemma AddPackKeeps(t: Table, pack: Pack)
    requires Sound(t) && NormalPath(pack.basePath) && !PackSlugTaken(t.packs, pack.slug, None)
    ensures Sound(t.(packs := t.packs[t.nextId := pack], nextId := t.nextId + 1))
  {
    hide NormalPath, NormalVerb, Unique;
    assert t.nextId !in t.packs;
    var packs := t.packs[t.nextId := pack];
    forall p, q | p in packs && q in packs && packs[p].slug == packs[q].slug ensures p == q {
    }
  }

  // -------- exactly when endpoints stay under their bases --------

  ghost predicate Listed(rows: seq<Moved>, id: Id) {
    exists row :: row in rows && row.id == id
  }

  /** The endpoints of the pack that the list does not move lie under the base all the same. */
  ghost predicate OthersUnder(eps: Endpoints, packId: Id, rows: seq<Moved>, base: string) {
    forall i :: i in eps && eps[i].packId == packId && !Listed(rows, i) ==> UnderBase(eps[i].path, base)
  }

  ghost predicate RowsUnder(rows: seq<Moved>, base: string) {
    forall row :: row in rows ==> UnderBase(row.path, base)
  }

  /** What the step writes, and what it leaves in the pack it writes, lies under the base as it will be. */
  ghost predicate Lands(t: Table, step: Step) {
    match step
    case AddPack(_) => true
    case PutPack(packId, pack, rows) =>
      packId in t.packs ==> RowsUnder(rows, pack.basePath) && OthersUnder(t.eps, packId, rows, pack.basePath)
    case MoveEndpoint(packId, row) => packId in t.packs ==> UnderBase(row.path, t.packs[packId].basePath)
    case Write(_, e) => e.packId in t.packs ==> UnderBase(e.path, t.packs[e.packId].basePath)
  }

  /** What a list of row updates makes of the endpoints. */
  ghost predicate MovedTo(eps: Endpoints, packId: Id, rows: seq<Moved>, eps': Endpoints) {
    && eps'.Keys == eps.Keys
    && (forall row :: row in rows ==> MovedRow(eps, packId, row, eps'))
    && (forall i :: i in eps && !Listed(rows, i) ==> eps'[i] == eps[i])
  }

  ghost predicate MovedRow(eps: Endpoints, packId: Id, row: Moved, eps': Endpoints) {
    && row.id in eps && row.id in eps' && eps[row.id].packId == packId
    && eps'[row.id] == eps[row.id].(verb := row.verb, path := row.path)
  }

  lemma {:induction false} MoveAllMoves(eps: Endpoints, packId: Id, rows: seq<Moved>)
    requires DistinctRows(rows) && MoveAll(eps, packId, rows).Ok?
    ensures MovedTo(eps, packId, rows, MoveAll(eps, packId, rows).value)
  {
    hide MoveRow, MovedTo, DistinctRows, Listed;
    if rows == [] {
      NoRowsMove(eps, packId);
    } else {
      var front, row := rows[..|rows| - 1], rows[|rows| - 1];
      FrontIsDistinct(rows);
      MoveAllMoves(eps, packId, front);
      MovesGrow(eps, packId, front, MoveAll(eps, packId, front).value, row, MoveAll(eps, packId, rows).value);
      assert rows == front + [row];
    }
  }

  lemma NoRowsMove(eps: Endpoints, packId: Id)
    ensures MovedTo(eps, packId, [], eps)
  {
  }

  lemma FrontIsDistinct(rows: seq<Moved>)
    requires DistinctRows(rows) && rows != []
    ensures DistinctRows(rows[..|rows| - 1]) && !Listed(rows[..|rows| - 1], rows[|rows| - 1].id)
  {
  }

  lemma MovesGrow(eps: Endpoints, packId: Id, front: seq<Moved>, now: Endpoints, row: Moved, eps': Endpoints)
    requires MovedTo(eps, packId, front, now) && MoveRow(now, packId, row) == Ok(eps') && !Listed(front, row.id)
    ensures MovedTo(eps, packId, front + [row], eps')
  {
    hide RouteTaken;
    var rows := front + [row];
    assert forall x :: x in rows <==> x in front || x == row;
    assert now[row.id] == eps[row.id];
    forall x | x in rows ensures MovedRow(eps, packId, x, eps') {
      if x in front {
        assert Listed(front, x.id) && MovedRow(eps, packId, x, now);
      }
    }
    forall i | i in eps && !Listed(rows, i) ensures eps'[i] == eps[i] {
      assert row in rows && i != row.id;
      assert !Listed(front, i);
    }
  }

  lemma MovedIsBased(t: Table, packId: Id, pack: Pack, rows: seq<Moved>, t': Table)
    requires Based(t) && packId in t.packs && MovedTo(t.eps, packId, rows, t'.eps)
    requires t'.packs == t.packs[packId := pack]
    requires RowsUnder(rows, pack.basePath) && OthersUnder(t.eps, packId, rows, pack.basePath)
    ensures Based(t')
  {
    hide UnderBase, MovedRow;
    forall i | i in t'.eps && t'.eps[i].packId in t'.packs
      ensures UnderBase(t'.eps[i].path, t'.packs[t'.eps[i].packId].basePath)
    {
      if Listed(rows, i) {
        var row :| row in rows && row.id == i;
        assert MovedRow(t.eps, packId, row, t'.eps);
        MovedRowFacts(t.eps, packId, row, t'.eps);
      } else {
        assert t'.eps[i] == t.eps[i];
      }
    }
  }

  lemma MovedRowFacts(eps: Endpoints, packId: Id, row: Moved, eps': Endpoints)
    requires MovedRow(eps, packId, row, eps')
    ensures row.id in eps' && eps'[row.id].packId == packId && eps'[row.id].path == row.path
  {
  }

  lemma BasedIsMoved(t: Table, packId: Id, pack: Pack, rows: seq<Moved>, t': Table)
    requires Based(t') && packId in t.packs && MovedTo(t.eps, packId, rows, t'.eps)
    requires t'.packs == t.packs[packId := pack]
    ensures RowsUnder(rows, pack.basePath) && OthersUnder(t.eps, packId, rows, pack.basePath)
  {
    hide UnderBase, MovedRow, Listed;
    forall row | row in rows ensures UnderBase(row.path, pack.basePath) {
      assert MovedRow(t.eps, packId, row, t'.eps);
      MovedRowFacts(t.eps, packId, row, t'.eps);
    }
    forall i | i in t.eps && t.eps[i].packId == packId && !Listed(rows, i)
      ensures UnderBase(t.eps[i].path, pack.basePath)
    {
      assert t'.eps[i] == t.eps[i] && i in t'.eps;
    }
  }

  lemma PutPackBasedIff(t: Table, packId: Id, pack: Pack, rows: seq<Moved>)
    requires Sound(t) && Based(t) && DistinctRows(rows) && CommitPack(t, packId, pack, rows).Ok?
    ensures Based(CommitPack(t, packId, pack, rows).value) <==> Lands(t, PutPack(packId, pack, rows))
  {
    var t' := CommitPack(t, packId, pack, rows).value;
    MoveAllMoves(t.eps, packId, rows);
    PacksOfEndpoints(t);
    hide MoveAll, PackSlugTaken, Sound, Based, MovedTo, RowsUnder, OthersUnder, DistinctRows;
    if packId in t.packs {
      if Lands(t, PutPack(packId, pack, rows)) { MovedIsBased(t, packId, pack, rows, t'); }
      if Based(t') { BasedIsMoved(t, packId, pack, rows, t'); }
    } else {
      assert t'.packs == t.packs;
      NothingMoved(t.eps, packId, rows, t'.eps);
      SameIsBased(t, t');
    }
  }

  lemma SameIsBased(t: Table, t': Table)
    requires t.packs == t'.packs && t.eps == t'.eps
    ensures Based(t) == Based(t')
  {
  }

  lemma NothingMoved(eps: Endpoints, packId: Id, rows: seq<Moved>, eps': Endpoints)
    requires MovedTo(eps, packId, rows, eps') && forall i :: i in eps ==> eps[i].packId != packId
    ensures eps' == eps
  {
    assert forall row :: row in rows ==> MovedRow(eps, packId, row, eps');
    assert forall i :: i in eps ==> !Listed(rows, i);
  }

  lemma PacksOfEndpoints(t: Table)
    requires Sound(t)
    ensures forall i :: i in t.eps ==> t.eps[i].packId in t.packs
  {
    forall i | i in t.eps ensures t.eps[i].packId in t.packs { assert NormalEndpoint(t.eps[i], t.packs); }
  }

  lemma MoveBasedIff(t: Table, packId: Id, row: Moved)
    requires Sound(t) && Based(t) && MoveRow(t.eps, packId, row).Ok?
    ensures Based(t.(eps := MoveRow(t.eps, packId, row).value)) <==> Lands(t, MoveEndpoint(packId, row))
  {
    PacksOfEndpoints(t);
    hide UnderBase, Sound, RouteTaken, Based;
    OneWriteBasedIff(t, row.id, t.eps[row.id].(verb := row.verb, path := row.path), t.nextId);
  }

  /** With one endpoint written. */
  lemma OneWriteBasedIff(t: Table, id: Id, e: Endpoint, nextId: Id)
    requires Based(t) && e.packId in t.packs
    ensures Based(t.(eps := t.eps[id := e], nextId := nextId)) <==> UnderBase(e.path, t.packs[e.packId].basePath)
  {
    hide UnderBase;
    var eps := t.eps[id := e];
    assert eps[id] == e;
    forall i | i in eps && i != id ensures i in t.eps && eps[i] == t.eps[i] {
    }
  }

  lemma WriteBasedIff(t: Table, id: Id, e: Endpoint, nextId: Id)
    requires Sound(t) && Based(t) && Upsert(t, id, e).Ok?
    ensures Based(t.(eps := Upsert(t, id, e).value, nextId := nextId)) <==> Lands(t, Write(None, e))
  {
    hide UnderBase, Sound, Based;
    var i := match Holder(t.eps, e.verb, e.path) { case Some(i) => i case None => id };
    assert Upsert(t, id, e) == Ok(t.eps[i := e]);
    OneWriteBasedIff(t, i, e, nextId);
  }

  /**
    In a good table a step that succeeds, however old its values are, leaves every
    endpoint under the base of its pack exactly if it lands: its own routes lie under
    the base as it is at the commit, or as the step makes it, and so do the endpoints
    of the pack that a rebase does not know of.
   */
  lemma StepKeepsBasedIff(t: Table, step: Step)
    requires Sound(t) && Based(t) && NormalStep(step) && Outcome(t, step).Ok?
    ensures Based(Take(t, step)) <==> Lands(t, step)
  {
    hide Sound, Based, Lands, MoveRow, Upsert, CommitPack, NormalPath, NormalVerb;
    match step
    case AddPack(pack) =>
      AddPackBased(t, pack);
      assert Lands(t, step) by { AddPackLands(t, pack); }
    case PutPack(packId, pack, rows) => PutPackBasedIff(t, packId, pack, rows);
    case MoveEndpoint(packId, row) => MoveBasedIff(t, packId, row);
    case Write(known, e) =>
      var nextId := if known.Some? then t.nextId else t.nextId + 1;
      WriteBasedIff(t, if known.Some? then known.value else t.nextId, e, nextId);
      WritesAlike(t, known, e);
  }

  lemma AddPackLands(t: Table, pack: Pack)
    ensures Lands(t, AddPack(pack))
  {
  }

  lemma WritesAlike(t: Table, known: Option<Id>, e: Endpoint)
    ensures Lands(t, Write(known, e)) == Lands(t, Write(None, e))
  {
  }

  lemma AddPackBased(t: Table, pack: Pack)
    requires Sound(t) && Based(t)
    ensures Based(t.(packs := t.packs[t.nextId := pack], nextId := t.nextId + 1))
  {
    PacksOfEndpoints(t);
    assert t.nextId !in t.packs;
    hide UnderBase, NormalEndpoints, NormalPacks, Unique;
  }

  // -------- content that is written to a route --------

  /**
    An editor writes the content of an endpoint to the route it had. If the endpoint
    has another route by now, the write is refused, or goes to the endpoint that has
    taken the route.
   */
  lemma WriteFollowsRoute(t: Table, id: Id, e: Endpoint)
    requires Sound(t) && id in t.eps && e.packId in t.packs
    ensures var r := Outcome(t, Write(Some(id), e));
            && (r == Ok(t.(eps := t.eps[id := e])) <==> SameRoute(t.eps[id], e.verb, e.path))
            && (r == Err(Constraint) <==> forall j :: j in t.eps ==> !SameRoute(t.eps[j], e.verb, e.path))
            && (forall j :: j in t.eps && j != id && SameRoute(t.eps[j], e.verb, e.path) ==>
                  r == Ok(t.(eps := t.eps[j := e])) && r.value.eps[id] == t.eps[id])
  {
    hide NormalPacks, NormalEndpoints, DistinctPackSlugs;
    var holder := Holder(t.eps, e.verb, e.path);
    if holder.Some? && holder.value != id { OtherIsWritten(t.eps, holder.value, id, e); }
  }

  lemma OtherIsWritten(eps: Endpoints, j: Id, id: Id, e: Endpoint)
    requires Unique(eps) && id in eps && j in eps && id != j && SameRoute(eps[j], e.verb, e.path)
    ensures !SameRoute(eps[id], e.verb, e.path) && eps[j := e] != eps[id := e]
  {
    assert eps[j := e][id] == eps[id] && eps[id := e][id] == e;
  }

  // -------- a rebase at once --------

  /** The rows of the endpoints of the pack, in the order of the listing. */
  function RowsFor(own: Endpoints, order: seq<Id>, oldBase: string, newBase: string): seq<Moved>
    requires forall i :: i in order ==> i in own
  {
    if order == [] then []
    else
      RowsFor(own, order[..|order| - 1], oldBase, newBase)
      + [RowOf(own, order[|order| - 1], oldBase, newBase)]
  }

  function RowOf(own: Endpoints, id: Id, oldBase: string, newBase: string): Moved
    requires id in own
  {
    var e := Rebased(own[id], oldBase, newBase);
    Moved(id, e.verb, e.path)
  }

  ghost predicate Enumerates(order: seq<Id>, ids: set<Id>) {
    && (forall i :: i in order <==> i in ids)
    && (forall k, l :: 0 <= k < l < |order| ==> order[k] != order[l])
  }

  lemma NothingListed(own: Endpoints, oldBase: string, newBase: string)
    ensures Enumerates([], {}) && RowsFor(own, [], oldBase, newBase) == []
  {
  }

  lemma ListGrows(own: Endpoints, order: seq<Id>, ids: set<Id>, id: Id, oldBase: string, newBase: string)
    requires Enumerates(order, ids) && id !in ids && id in own && ids <= own.Keys
    ensures Enumerates(order + [id], ids + {id})
    ensures RowsFor(own, order + [id], oldBase, newBase)
            == RowsFor(own, order, oldBase, newBase) + [RowOf(own, id, oldBase, newBase)]
  {
    hide Rebased;
    assert (order + [id])[..|order|] == order;
  }

  /** The row updates of an allowed rebase succeed in every order of the listing, and make the rebased table. */
  lemma {:induction false} AllowedRebaseMoves(packs: map<Id, Pack>, eps: Endpoints, nextId: Id, packId: Id,
                                              newBase: string, order: seq<Id>, ids: set<Id>)
    requires GoodTable(packs, eps, nextId) && packId in packs && NormalPath(newBase)
    requires RebaseAllowed(eps, packId, packs[packId].basePath, newBase)
    requires Enumerates(order, ids) && ids <= InPack(eps, packId)
    ensures var oldBase := packs[packId].basePath;
            MoveAll(eps, packId, RowsFor(eps, order, oldBase, newBase))
            == Ok(PartlyRebased(eps, ids, oldBase, newBase))
  {
    hide GoodTable, RebaseAllowed, Rebased, NormalPath;
    var oldBase := packs[packId].basePath;
    if order == [] {
      assert ids == {};
      assert PartlyRebased(eps, {}, oldBase, newBase) == eps;
    } else {
      var front, id := order[..|order| - 1], order[|order| - 1];
      assert forall i :: i in order <==> i in front || i == id;
      var done := ids - {id};
      assert Enumerates(front, done);
      AllowedRebaseMoves(packs, eps, nextId, packId, newBase, front, done);
      RebaseTurn(packs, eps, nextId, packId, newBase, done, id);
      assert done + {id} == ids;
      var rows, row := RowsFor(eps, front, oldBase, newBase), RowOf(eps, id, oldBase, newBase);
      assert (rows + [row])[..|rows|] == rows;
      var t := PartlyRebased(eps, done, oldBase, newBase);
      assert t[id].packId == packId && !RouteTaken(t, row.verb, row.path, id);
    }
  }

  /** A listing of other endpoints, or of the same as they were, gives one row each. */
  lemma {:induction false} RowsForFacts(own: Endpoints, order: seq<Id>, oldBase: string, newBase: string)
    requires forall i :: i in order ==> i in own
    ensures var rows := RowsFor(own, order, oldBase, newBase);
            && |rows| == |order|
            && forall k :: 0 <= k < |rows| ==> order[k] in own && rows[k] == RowOf(own, order[k], oldBase, newBase)
  {
    if order != [] { RowsForFacts(own, order[..|order| - 1], oldBase, newBase); }
  }

  // -------- an import at once --------

  lemma ImportHasPack(m: Import, packs: map<Id, Pack>, before: Endpoints, p: Progress)
    requires InImport(m, packs, before, p)
    ensures m.packId in packs && p.nextId !in p.eps
  {
    NextIdIsFree(m, packs, before, p);
    hide GoodTable, Indexed, Frame;
  }

  /** On the tables an import has read, the upsert of a prepared route writes the id it means. */
  lemma PreparedUpserts(m: Import, packs: map<Id, Pack>, before: Endpoints, p: Progress, r: Route, path: string)
    requires InImport(m, packs, before, p) && NormalVerb(r.verb)
    requires Compose(m.basePath, r.path) == Some(path) && RouteKey(r.verb, path) !in p.seen
    requires Prepare(m, r, path).Ok?
    ensures var (known, e) := Prepare(m, r, path).value;
            var id := if known.Some? then known.value else p.nextId;
            Upsert(Table(packs, p.eps, p.nextId), id, e) == Ok(p.eps[id := e])
  {
    PreparedIsRecordable(m, packs, before, p, r, path);
    ImportHasPack(m, packs, before, p);
    hide InImport, Prepare, Compose, NormalVerb, RouteKey, GoodEndpoint;
    var (known, e) := Prepare(m, r, path).value;
    assert Holder(p.eps, e.verb, e.path) == known;
  }
}
