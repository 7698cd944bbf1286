/**
  Route operations that overlap
  (apps/api/internal/core/usecase/integration_service.go). Each begins, makes its
  queries one after the other, and then writes: one transaction or statement, or
  for an import one statement a route. Between any two of these any others may
  happen. Packs and endpoints are never deleted.
 */
module RouteRuns {
  import opened Wrappers
  import opened Text
  import opened PathTemplates
  import opened PackPaths
  import opened RouteTable
  import opened RouteTransactions

  // -------- operations and their queries --------

  /** The fields that an endpoint editor sets, validated. */
  datatype Content = Content(authMode: Option<string>, authPolicy: Option<string>, contract: Option<string>,
                             scenarios: Option<string>)

  function Or(value: Option<string>, default: string): string {
    if value.Some? then value.value else default
  }

  /** An endpoint as Endpoint loads it, with the new fields. */
  function WithContent(e: Endpoint, c: Content): Endpoint {
    Endpoint(e.packId, e.verb, e.path,
             Or(c.authMode, if e.authMode == "" then "INHERIT" else e.authMode),
             Or(c.authPolicy, if TrimSpace(e.authPolicy) == "" then "{}" else e.authPolicy),
             Or(c.contract, e.contract), Or(c.scenarios, e.scenarios))
  }

  /** The order of an EditPack is that in which the endpoints of the pack are listed. */
  datatype Job =
    | NewPack(pack: Pack)
    | EditPack(packId: Id, input: PackInput, order: seq<Id>)
    | EditRoute(packId: Id, id: Id, verb: string, relativePath: string)
    | EditContent(packId: Id, id: Id, content: Content)
    | ImportRoutes(packId: Id, routes: seq<Route>, check: Validation)

  /** The next query with what was read before, or what is left to write. */
  datatype Pending =
    | FindPack(job: Job)
    | FindEndpoint(job: Job)
    | FindBase(job: Job, endpoint: Endpoint)
    | FindHolder(packId: Id, row: Moved, base: string)
    | ListOwn(job: Job, pack: Pack, base: string)
    | ListAll(job: Job, pack: Pack, base: string, own: Endpoints)
    | ListExisting(job: Job, base: string)
    | ListOwners(job: Job, base: string, existing: map<string, Known>)
    | Importing(m: Import, routes: seq<Route>, seen: set<string>)
    | Ready(step: Step, base: string)

  predicate IsQuery(p: Pending) {
    !p.Importing? && !p.Ready?
  }

  function Begun(job: Job): Pending {
    match job
    case NewPack(pack) => Ready(AddPack(pack), pack.basePath)
    case EditPack(_, _, _) => FindPack(job)
    case ImportRoutes(_, _, _) => FindPack(job)
    case EditRoute(_, _, _, _) => FindEndpoint(job)
    case EditContent(_, _, _) => FindEndpoint(job)
  }

  function WithPack(packs: map<Id, Pack>, job: Job): Option<Pending>
    requires job.EditPack? || job.ImportRoutes?
  {
    if job.packId !in packs then None
    else
      var base := packs[job.packId].basePath;
      if job.ImportRoutes? then Some(ListExisting(job, base))
      else match EditedPack(packs[job.packId], job.input)
        case Err(_) => None
        case Ok(pack) =>
          Some(if pack.basePath == base then Ready(PutPack(job.packId, pack, []), base) else ListOwn(job, pack, base))
  }

  function WithEndpoint(t: Table, job: Job): Option<Pending>
    requires job.EditRoute? || job.EditContent?
  {
    if job.packId !in t.packs || job.id !in t.eps || t.eps[job.id].packId != job.packId then None
    else if job.EditRoute? then Some(FindBase(job, t.eps[job.id]))
    else Some(Ready(Write(Some(job.id), WithContent(t.eps[job.id], job.content)), t.packs[job.packId].basePath))
  }

  function WithBase(packs: map<Id, Pack>, job: Job, e: Endpoint): Option<Pending>
    requires job.EditRoute?
  {
    if job.packId !in packs then None
    else match EditedRoute(e, packs[job.packId].basePath, job.verb, job.relativePath)
      case Err(_) => None
      case Ok(e') => Some(FindHolder(job.packId, Moved(job.id, e'.verb, e'.path), packs[job.packId].basePath))
  }

  /** The checks of UpdatePack: routes of the pack from one query against all routes from a later one. */
  ghost predicate Checked(own: Endpoints, all: Endpoints, oldBase: string, newBase: string) {
    && (forall i, j :: i in own && j in all && i != j ==> KeyOf(Rebased(own[i], oldBase, newBase)) != KeyOf(all[j]))
    && (forall i, j :: i in own && j in own && i != j ==>
          KeyOf(Rebased(own[i], oldBase, newBase)) != KeyOf(Rebased(own[j], oldBase, newBase)))
  }

  function OwnOf(eps: Endpoints, packId: Id): Endpoints {
    map i | i in InPack(eps, packId) :: eps[i]
  }

  ghost function WithAll(all: Endpoints, job: Job, pack: Pack, base: string, own: Endpoints): Option<Pending>
    requires job.EditPack?
  {
    if Enumerates(job.order, own.Keys) && Checked(own, all, base, pack.basePath) then
      Some(Ready(PutPack(job.packId, pack, RowsFor(own, job.order, base, pack.basePath)), base))
    else None
  }

  ghost function Keyed(eps: Endpoints, key: string): Id
    requires exists i :: HasKey(eps, i, key)
  {
    var i :| HasKey(eps, i, key); i
  }

  ghost function KeysOf(eps: Endpoints): (r: set<string>)
    ensures forall key :: key in r ==> exists i :: HasKey(eps, i, key)
    ensures forall i :: i in eps ==> KeyOf(eps[i]) in r
  {
    var r := set i | i in eps :: KeyOf(eps[i]);
    assert forall key :: key in r ==> exists i :: i in eps && HasKey(eps, i, key);
    r
  }

  /** The index of the pack's endpoints by their keys. */
  ghost function ExistingIn(own: Endpoints): map<string, Known> {
    map key | key in KeysOf(own) :: Known(Keyed(own, key), own[Keyed(own, key)])
  }

  /** The index of all packs by the keys of their endpoints. */
  ghost function OwnersIn(eps: Endpoints): map<string, Id> {
    map key | key in KeysOf(eps) :: eps[Keyed(eps, key)].packId
  }

  /** One query, answered by the tables as they are now; None if the operation ends with it. */
  ghost function Answer(t: Table, p: Pending): Option<Pending> {
    match p
    case FindPack(job) => if job.EditPack? || job.ImportRoutes? then WithPack(t.packs, job) else None
    case FindEndpoint(job) => if job.EditRoute? || job.EditContent? then WithEndpoint(t, job) else None
    case FindBase(job, e) => if job.EditRoute? then WithBase(t.packs, job, e) else None
    case FindHolder(packId, row, base) =>
      if RouteTaken(t.eps, row.verb, row.path, row.id) then None else Some(Ready(MoveEndpoint(packId, row), base))
    case ListOwn(job, pack, base) =>
      if job.EditPack? then Some(ListAll(job, pack, base, OwnOf(t.eps, job.packId))) else None
    case ListAll(job, pack, base, own) => if job.EditPack? then WithAll(t.eps, job, pack, base, own) else None
    case ListExisting(job, base) =>
      if job.ImportRoutes? then Some(ListOwners(job, base, ExistingIn(OwnOf(t.eps, job.packId)))) else None
    case ListOwners(job, base, existing) =>
      if job.ImportRoutes? then
        Some(Importing(Import(job.packId, base, existing, OwnersIn(t.eps), job.check), job.routes, {}))
      else None
    case _ => None
  }

  // -------- writing --------

  /** What an import writes for its next route: nothing for one it has seen. */
  function TurnStep(m: Import, seen: set<string>, r: Route): Result<Option<Step>, Error> {
    match Compose(m.basePath, r.path)
    case None => Err(InvalidInput)
    case Some(path) =>
      if RouteKey(r.verb, path) in seen then Ok(None)
      else match Prepare(m, r, path)
        case Err(error) => Err(error)
        case Ok((known, e)) => Ok(Some(Write(known, e)))
  }

  function SeenAfter(m: Import, seen: set<string>, r: Route): set<string> {
    match Compose(m.basePath, r.path)
    case None => seen
    case Some(path) => seen + {RouteKey(r.verb, path)}
  }

  /** The write an operation makes next, if it makes one. */
  function NextWrite(p: Pending): Option<Step> {
    match p
    case Ready(step, _) => Some(step)
    case Importing(m, routes, seen) =>
      if routes == [] then None
      else
        (match TurnStep(m, seen, routes[0])
         case Ok(Some(step)) => Some(step)
         case _ => None)
    case _ => None
  }

  /** What is left to do afterwards; a failure ends the operation, and an import keeps what it wrote before. */
  ghost function LeftToDo(t: Table, p: Pending): Option<Pending> {
    match p
    case Importing(m, routes, seen) =>
      if routes == [] || TurnStep(m, seen, routes[0]).Err? then None
      else if NextWrite(p).Some? && Outcome(t, NextWrite(p).value).Err? then None
      else Some(Importing(m, routes[1..], SeenAfter(m, seen, routes[0])))
    case _ => None
  }

  ghost function Written(t: Table, p: Pending): Table {
    match NextWrite(p)
    case None => t
    case Some(step) => Take(t, step)
  }

  // -------- runs --------

  datatype World = World(t: Table, pending: seq<Pending>)

  datatype Move = Begin(job: Job) | Read(i: nat) | Finish(i: nat)

  function Replaced(pending: seq<Pending>, i: nat, p: Option<Pending>): seq<Pending>
    requires i < |pending|
  {
    match p
    case None => pending[..i] + pending[i + 1..]
    case Some(q) => pending[i := q]
  }

  ghost function MoveTo(w: World, m: Move): World {
    match m
    case Begin(job) => w.(pending := w.pending + [Begun(job)])
    case Read(i) =>
      if i < |w.pending| && IsQuery(w.pending[i]) then
        w.(pending := Replaced(w.pending, i, Answer(w.t, w.pending[i])))
      else w
    case Finish(i) =>
      if i < |w.pending| && !IsQuery(w.pending[i]) then
        World(Written(w.t, w.pending[i]), Replaced(w.pending, i, LeftToDo(w.t, w.pending[i])))
      else w
  }

  ghost function AfterMoves(w: World, ms: seq<Move>): World {
    if ms == [] then w else MoveTo(AfterMoves(w, ms[..|ms| - 1]), ms[|ms| - 1])
  }

  /** CreatePack has normalised its base path, and the converters the methods of routes. */
  ghost predicate Proper(m: Move) {
    m.Begin? ==> ProperJob(m.job)
  }

  ghost predicate ProperJob(job: Job) {
    match job
    case NewPack(pack) => NormalPath(pack.basePath)
    case ImportRoutes(_, routes, _) => forall r :: r in routes ==> NormalVerb(r.verb)
    case _ => true
  }

  ghost predicate ProperRun(ms: seq<Move>) {
    forall m :: m in ms ==> Proper(m)
  }

  const NO_ROUTES := World(Table(map[], map[], 0), [])

  // -------- what operations under way carry --------

  ghost predicate NormalRoute(e: Endpoint) {
    NormalVerb(e.verb) && NormalPath(e.path)
  }

  ghost predicate OldIds(existing: map<string, Known>, nextId: Id) {
    forall key :: key in existing ==> existing[key].id < nextId
  }

  /** The values read so far are normal, and what is to be written lies under the base that was read. */
  ghost predicate NormalPending(p: Pending, nextId: Id) {
    match p
    case FindPack(job) => ProperJob(job) && (job.EditPack? || job.ImportRoutes?)
    case FindEndpoint(job) => job.EditRoute? || job.EditContent?
    case FindBase(job, e) => job.EditRoute? && NormalRoute(e)
    case FindHolder(_, row, base) => NormalRow(row) && UnderBase(row.path, base)
    case ListOwn(job, pack, base) => job.EditPack? && NormalPath(pack.basePath) && NormalPath(base)
    case ListAll(job, pack, base, own) =>
      job.EditPack? && NormalPath(pack.basePath) && NormalPath(base) && forall i :: i in own ==> NormalRoute(own[i])
    case ListExisting(job, base) => job.ImportRoutes? && ProperJob(job) && NormalPath(base)
    case ListOwners(job, base, existing) =>
      job.ImportRoutes? && ProperJob(job) && NormalPath(base) && OldIds(existing, nextId)
    case Importing(m, routes, _) =>
      NormalPath(m.basePath) && OldIds(m.existing, nextId) && forall r :: r in routes ==> NormalVerb(r.verb)
    case Ready(step, base) => NormalStep(step) && WriteIsKnown(step, nextId) && UnderRead(step, base)
  }

  ghost predicate WriteIsKnown(step: Step, nextId: Id) {
    step.Write? && step.known.Some? ==> step.known.value < nextId
  }

  /** A rebase moves its rows under the new base, an edit under the base it read. */
  ghost predicate UnderRead(step: Step, base: string) {
    match step
    case PutPack(_, pack, rows) => RowsUnder(rows, pack.basePath)
    case MoveEndpoint(_, row) => UnderBase(row.path, base)
    case Write(known, _) => known.Some?
    case AddPack(_) => true
  }

  ghost predicate SoundWorld(w: World) {
    Sound(w.t) && forall i :: 0 <= i < |w.pending| ==> NormalPending(w.pending[i], w.t.nextId)
  }

  lemma PackIsNormal(t: Table, packId: Id)
    requires Sound(t) && packId in t.packs
    ensures NormalPath(t.packs[packId].basePath)
  {
    hide NormalPath, NormalEndpoints, Unique, DistinctPackSlugs;
  }

  lemma EndpointIsNormal(t: Table, id: Id)
    requires Sound(t) && id in t.eps
    ensures NormalRoute(t.eps[id]) && id < t.nextId && t.eps[id].packId in t.packs
  {
    assert NormalEndpoint(t.eps[id], t.packs);
    hide NormalPath, NormalVerb, NormalPacks, Unique, DistinctPackSlugs;
  }

  lemma EditedRouteIsNormal(e: Endpoint, base: string, verb: string, relativePath: string)
    requires NormalPath(base) && EditedRoute(e, base, verb, relativePath).Ok?
    ensures var e' := EditedRoute(e, base, verb, relativePath).value; NormalRoute(e') && UnderBase(e'.path, base)
  {
    NormalVerbIffNotBlank(verb);
    ComposeLandsUnderBase(base, NormalizePath(relativePath).value);
    hide NormalPath, UnderBase, Compose, NormalizePath, IncludesBase, NormalizeVerb, TrimSpace, NormalVerb;
  }

  lemma RebasedRouteIsNormal(e: Endpoint, oldBase: string, newBase: string)
    requires NormalRoute(e) && NormalPath(oldBase) && NormalPath(newBase)
    ensures var e' := Rebased(e, oldBase, newBase);
            NormalRoute(e') && UnderBase(e'.path, newBase)
  {
    RebaseLandsUnderBase(e.path, oldBase, newBase);
    hide Rebase, NormalPath, UnderBase, TrimSpace;
  }

  lemma ListedRowsAreNormal(own: Endpoints, order: seq<Id>, oldBase: string, newBase: string)
    requires Enumerates(order, own.Keys) && NormalPath(oldBase) && NormalPath(newBase)
    requires forall i :: i in own ==> NormalRoute(own[i])
    ensures var rows := RowsFor(own, order, oldBase, newBase);
            DistinctRows(rows) && RowsUnder(rows, newBase) && forall row :: row in rows ==> NormalRow(row)
  {
    hide NormalPath, NormalRoute, NormalVerb, UnderBase, Rebased, RowsFor;
    RowsForFacts(own, order, oldBase, newBase);
    var rows := RowsFor(own, order, oldBase, newBase);
    forall k | 0 <= k < |rows| ensures NormalRow(rows[k]) && UnderBase(rows[k].path, newBase) {
      RebasedRouteIsNormal(own[order[k]], oldBase, newBase);
      RowIsRoute(own, order[k], oldBase, newBase);
    }
  }

  lemma RowIsRoute(own: Endpoints, id: Id, oldBase: string, newBase: string)
    requires id in own && NormalRoute(Rebased(own[id], oldBase, newBase))
    ensures NormalRow(RowOf(own, id, oldBase, newBase))
  {
    hide NormalPath, NormalVerb, Rebased;
  }

  lemma PutPackIsReady(packId: Id, pack: Pack, rows: seq<Moved>, base: string, nextId: Id)
    requires NormalPath(pack.basePath) && DistinctRows(rows) && RowsUnder(rows, pack.basePath)
    requires forall row :: row in rows ==> NormalRow(row)
    ensures NormalPending(Ready(PutPack(packId, pack, rows), base), nextId)
  {
    hide NormalPath, DistinctRows, RowsUnder, NormalRow;
  }

  lemma ListIsNormal(job: Job, pack: Pack, base: string, nextId: Id)
    requires job.EditPack? && NormalPath(pack.basePath) && NormalPath(base)
    ensures NormalPending(ListOwn(job, pack, base), nextId)
  {
    hide NormalPath;
  }

  lemma ImportIsNormal(job: Job, base: string, nextId: Id)
    requires job.ImportRoutes? && ProperJob(job) && NormalPath(base)
    ensures NormalPending(ListExisting(job, base), nextId)
  {
    hide NormalPath, NormalVerb;
  }

  lemma PackAnswerIsNormal(t: Table, job: Job)
    requires Sound(t) && ProperJob(job) && (job.EditPack? || job.ImportRoutes?) && WithPack(t.packs, job).Some?
    ensures NormalPending(WithPack(t.packs, job).value, t.nextId)
  {
    hide NormalPath, Sound, EditedPack, NormalVerb, NormalStep, UnderRead, NormalPending;
    PackIsNormal(t, job.packId);
    var base := t.packs[job.packId].basePath;
    if job.EditPack? {
      EditedPackIsNormal(t.packs[job.packId], job.input);
      var pack := EditedPack(t.packs[job.packId], job.input).value;
      PutPackIsReady(job.packId, pack, [], base, t.nextId);
      ListIsNormal(job, pack, base, t.nextId);
    } else {
      ImportIsNormal(job, base, t.nextId);
    }
  }

  lemma ExistingIsOld(t: Table, packId: Id)
    requires Sound(t)
    ensures OldIds(ExistingIn(OwnOf(t.eps, packId)), t.nextId)
  {
    hide Sound, KeyOf, KeysOf;
    var own := OwnOf(t.eps, packId);
    forall key | key in ExistingIn(own) ensures ExistingIn(own)[key].id < t.nextId {
      assert HasKey(own, Keyed(own, key), key);
      EndpointIsNormal(t, Keyed(own, key));
    }
  }

  lemma ContentIsReady(t: Table, id: Id, c: Content, base: string)
    requires Sound(t) && id in t.eps
    ensures NormalPending(Ready(Write(Some(id), WithContent(t.eps[id], c)), base), t.nextId)
  {
    hide NormalPath, NormalVerb, Sound, WithContent, NormalPending;
    EndpointIsNormal(t, id);
    ContentKeepsRoute(t.eps[id], c);
    WriteIsReady(id, WithContent(t.eps[id], c), t.nextId, base);
  }

  lemma WriteIsReady(id: Id, e: Endpoint, nextId: Id, base: string)
    requires NormalRoute(e) && id < nextId
    ensures NormalPending(Ready(Write(Some(id), e), base), nextId)
  {
    hide NormalPath, NormalVerb;
  }

  lemma ContentKeepsRoute(e: Endpoint, c: Content)
    ensures Identity(WithContent(e, c)) == Identity(e)
  {
    hide TrimSpace;
  }

  /** Whatever state each query meets, the operation carries on with normal values. */
  lemma AnswerIsNormal(t: Table, p: Pending)
    requires Sound(t) && NormalPending(p, t.nextId) && Answer(t, p).Some?
    ensures NormalPending(Answer(t, p).value, t.nextId)
  {
    hide Sound, NormalRoute, NormalPath, NormalVerb, UnderBase, Checked, OldIds, ExistingIn, OwnersIn, WithContent;
    match p
    case FindPack(job) => PackAnswerIsNormal(t, job);
    case FindEndpoint(job) =>
      EndpointIsNormal(t, job.id);
      if job.EditContent? { ContentIsReady(t, job.id, job.content, t.packs[job.packId].basePath); }
    case FindBase(job, e) =>
      PackIsNormal(t, job.packId);
      EditedRouteIsNormal(e, t.packs[job.packId].basePath, job.verb, job.relativePath);
      EditedIsRow(job.id, EditedRoute(e, t.packs[job.packId].basePath, job.verb, job.relativePath).value);
    case FindHolder(_, _, _) =>
    case ListOwn(job, pack, base) =>
      forall i | i in OwnOf(t.eps, job.packId) ensures NormalRoute(t.eps[i]) { EndpointIsNormal(t, i); }
    case ListAll(job, pack, base, own) =>
      ListedRowsAreNormal(own, job.order, base, pack.basePath);
      PutPackIsReady(job.packId, pack, RowsFor(own, job.order, base, pack.basePath), base, t.nextId);
    case ListExisting(job, _) => ExistingIsOld(t, job.packId);
    case ListOwners(_, _, _) =>
  }

  lemma EditedIsRow(id: Id, e: Endpoint)
    requires NormalRoute(e)
    ensures NormalRow(Moved(id, e.verb, e.path))
  {
    hide NormalPath, NormalVerb;
  }

  // -------- every run keeps the tables sound --------

  /** The route of an import is composed under the base it read. */
  lemma TurnIsNormal(m: Import, seen: set<string>, r: Route, nextId: Id)
    requires NormalPath(m.basePath) && OldIds(m.existing, nextId) && NormalVerb(r.verb)
    requires TurnStep(m, seen, r).Ok? && TurnStep(m, seen, r).value.Some?
    ensures var step := TurnStep(m, seen, r).value.value;
            && NormalStep(step) && WriteIsKnown(step, nextId) && step.Write?
            && step.endpoint.packId == m.packId && UnderBase(step.endpoint.path, m.basePath)
  {
    hide Compose, NormalPath, NormalVerb, UnderBase, RouteKey, Prepare;
    var path := Compose(m.basePath, r.path).value;
    ComposeLandsUnderBase(m.basePath, r.path);
    PreparedShape(m, r, path);
  }

  lemma NextWriteIsNormal(p: Pending, nextId: Id)
    requires NormalPending(p, nextId) && NextWrite(p).Some?
    ensures NormalStep(NextWrite(p).value) && WriteIsKnown(NextWrite(p).value, nextId)
  {
    hide TurnStep, NormalPath, NormalVerb, OldIds, NormalStep;
    if p.Importing? {
      assert p.routes[0] in p.routes;
      TurnIsNormal(p.m, p.seen, p.routes[0], nextId);
    }
  }

  lemma PendingAges(p: Pending, nextId: Id, later: Id)
    requires NormalPending(p, nextId) && nextId <= later
    ensures NormalPending(p, later)
  {
    hide ProperJob, NormalRoute, NormalRow, UnderBase, NormalPath, NormalStep, NormalVerb, UnderRead;
  }

  lemma LeftIsNormal(t: Table, p: Pending, nextId: Id)
    requires NormalPending(p, nextId) && LeftToDo(t, p).Some?
    ensures NormalPending(LeftToDo(t, p).value, nextId)
  {
    hide TurnStep, NormalPath, NormalVerb, OldIds, Outcome, SeenAfter;
    assert forall r :: r in p.routes[1..] ==> r in p.routes;
  }

  lemma MoveKeepsSound(w: World, m: Move)
    requires SoundWorld(w) && Proper(m)
    ensures SoundWorld(MoveTo(w, m)) && w.t.nextId <= MoveTo(w, m).t.nextId
  {
    hide Sound, NormalPending, Answer, Written, LeftToDo, NextWrite;
    var w' := MoveTo(w, m);
    match m
    case Begin(job) => BegunIsNormal(job, w.t.nextId);
    case Read(i) =>
      if i < |w.pending| && IsQuery(w.pending[i])
         && Answer(w.t, w.pending[i]).Some? { AnswerIsNormal(w.t, w.pending[i]); }
    case Finish(i) =>
      if i < |w.pending| && !IsQuery(w.pending[i]) {
        WrittenKeepsSound(w.t, w.pending[i]);
        if LeftToDo(w.t, w.pending[i]).Some? { LeftIsNormal(w.t, w.pending[i], w.t.nextId); }
        var left := Replaced(w.pending, i, LeftToDo(w.t, w.pending[i]));
        forall k | 0 <= k < |left| ensures NormalPending(left[k], w'.t.nextId) {
          PendingAges(left[k], w.t.nextId, w'.t.nextId);
        }
      }
  }

  lemma WrittenKeepsSound(t: Table, p: Pending)
    requires Sound(t) && NormalPending(p, t.nextId)
    ensures Sound(Written(t, p)) && t.nextId <= Written(t, p).nextId
  {
    hide Sound, NormalPending, NextWrite, NormalStep, Take;
    if NextWrite(p).Some? {
      NextWriteIsNormal(p, t.nextId);
      StepKeepsSound(t, NextWrite(p).value);
    }
  }

  lemma BegunIsNormal(job: Job, nextId: Id)
    requires ProperJob(job)
    ensures NormalPending(Begun(job), nextId)
  {
    hide NormalPath, NormalVerb;
  }

  lemma {:induction false} RunKeepsSound(w: World, ms: seq<Move>)
    requires SoundWorld(w) && ProperRun(ms)
    ensures SoundWorld(AfterMoves(w, ms))
  {
    hide SoundWorld, Proper, MoveTo;
    if ms != [] {
      var front, m := ms[..|ms| - 1], ms[|ms| - 1];
      assert m in ms && forall x :: x in front ==> x in ms;
      RunKeepsSound(w, front);
      MoveKeepsSound(AfterMoves(w, front), m);
    }
  }

  lemma NoRoutesIsSound()
    ensures SoundWorld(NO_ROUTES) && Based(NO_ROUTES.t)
  {
  }

  /**
    However the queries and writes of all operations interleave: method and path,
    and the slugs of packs, stay unique, paths stay normal, and every endpoint is
    in a pack.
   */
  lemma OverlappingRoutesStayUnique(ms: seq<Move>)
    requires ProperRun(ms)
    ensures var t := AfterMoves(NO_ROUTES, ms).t;
            && Unique(t.eps) && DistinctKeys(t.eps) && DistinctPackSlugs(t.packs)
            && NormalPacks(t.packs, t.nextId) && NormalEndpoints(t.packs, t.eps, t.nextId)
  {
    NoRoutesIsSound();
    RunKeepsSound(NO_ROUTES, ms);
    hide AfterMoves, NormalPending, NormalPacks, NormalEndpoints, Unique, DistinctPackSlugs;
    SoundHasDistinctKeys(AfterMoves(NO_ROUTES, ms).t);
  }

  lemma SoundHasDistinctKeys(t: Table)
    requires Sound(t)
    ensures DistinctKeys(t.eps)
  {
    hide RouteKey, NormalVerb, NormalPath, Sound, KeyOf;
    forall i, j | i in t.eps && j in t.eps && KeyOf(t.eps[i]) == KeyOf(t.eps[j]) ensures i == j {
      EndpointIsNormal(t, i);
      EndpointIsNormal(t, j);
      SameKeySameRoute(t, i, j);
    }
  }

  lemma SameKeySameRoute(t: Table, i: Id, j: Id)
    requires Sound(t) && i in t.eps && j in t.eps && NormalRoute(t.eps[i]) && NormalRoute(t.eps[j])
    requires KeyOf(t.eps[i]) == KeyOf(t.eps[j])
    ensures i == j
  {
    hide RouteKey, NormalVerb, NormalPath, NormalPacks, NormalEndpoints, DistinctPackSlugs;
    RouteKeyInjective(t.eps[i].verb, t.eps[i].path, t.eps[j].verb, t.eps[j].path);
  }

  // -------- exactly when endpoints stay under their bases --------

  /** The write of this move, if it makes one that succeeds, lands. */
  ghost predicate LandsAt(w: World, m: Move) {
    m.Finish? && m.i < |w.pending| ==> PendingLands(w.t, w.pending[m.i])
  }

  ghost predicate PendingLands(t: Table, p: Pending) {
    NextWrite(p).Some? && Outcome(t, NextWrite(p).value).Ok? ==> Lands(t, NextWrite(p).value)
  }

  ghost predicate LandingRun(w: World, ms: seq<Move>) {
    ms == [] || (LandingRun(w, ms[..|ms| - 1]) && LandsAt(AfterMoves(w, ms[..|ms| - 1]), ms[|ms| - 1]))
  }

  /** After every move so far all endpoints lie under the bases of their packs. */
  ghost predicate BasedThroughout(w: World, ms: seq<Move>) {
    Based(AfterMoves(w, ms).t) && (ms == [] || BasedThroughout(w, ms[..|ms| - 1]))
  }

  lemma MoveKeepsBasedIff(w: World, m: Move)
    requires SoundWorld(w) && Based(w.t)
    ensures Based(MoveTo(w, m).t) <==> LandsAt(w, m)
  {
    hide Sound, Based, NormalPending, Answer, LeftToDo, NextWrite, Outcome, Lands;
    if m.Finish? && m.i < |w.pending| {
      var p := w.pending[m.i];
      if IsQuery(p) {
        QueryWritesNothing(p);
      } else if NextWrite(p).Some? && Outcome(w.t, NextWrite(p).value).Ok? {
        NextWriteIsNormal(p, w.t.nextId);
        hide NormalStep;
        StepKeepsBasedIff(w.t, NextWrite(p).value);
      }
    }
  }

  lemma QueryWritesNothing(p: Pending)
    requires IsQuery(p)
    ensures NextWrite(p) == None
  {
  }

  /** Along any run from a good table the endpoints stay under their bases exactly as long as every write lands. */
  lemma {:induction false} BasedThroughoutIff(w: World, ms: seq<Move>)
    requires SoundWorld(w) && Based(w.t) && ProperRun(ms)
    ensures BasedThroughout(w, ms) <==> LandingRun(w, ms)
  {
    hide SoundWorld, Proper, MoveTo, Based, LandsAt;
    if ms != [] {
      var front, m := ms[..|ms| - 1], ms[|ms| - 1];
      assert forall x :: x in front ==> x in ms;
      BasedThroughoutIff(w, front);
      RunKeepsSound(w, front);
      var now := AfterMoves(w, front);
      if BasedThroughout(w, front) {
        assert Based(now.t) by { ThroughoutIsNow(w, front); }
        MoveKeepsBasedIff(now, m);
      }
    }
  }

  lemma ThroughoutIsNow(w: World, ms: seq<Move>)
    requires BasedThroughout(w, ms)
    ensures Based(AfterMoves(w, ms).t)
  {
  }

  // -------- windows --------

  /**
    The tables are still as the operation found them: for an import and an edit the
    base of the pack, for changed content the route of the endpoint. A pack that is
    written finds its base as it will be, or knows of every endpoint outside of it.
   */
  ghost predicate InWindow(t: Table, p: Pending) {
    match p
    case Ready(step, base) => StepInWindow(t, step, base)
    case Importing(m, _, _) => m.packId in t.packs ==> t.packs[m.packId].basePath == m.basePath
    case _ => true
  }

  ghost predicate StepInWindow(t: Table, step: Step, base: string) {
    match step
    case AddPack(_) => true
    case PutPack(packId, pack, rows) =>
      packId in t.packs ==>
        t.packs[packId].basePath == pack.basePath || OthersUnder(t.eps, packId, rows, pack.basePath)
    case MoveEndpoint(packId, _) => packId in t.packs ==> t.packs[packId].basePath == base
    case Write(known, e) => known.Some? && known.value in t.eps && Identity(t.eps[known.value]) == Identity(e)
  }

  lemma WindowLands(t: Table, p: Pending)
    requires Sound(t) && Based(t) && NormalPending(p, t.nextId) && InWindow(t, p)
    ensures PendingLands(t, p)
  {
    hide Sound, UnderBase, NormalPath, NormalVerb, Outcome, TurnStep, OldIds, NormalStep, RowsUnder, Listed;
    match p
    case Ready(step, base) => ReadyLands(t, step, base);
    case Importing(m, routes, seen) =>
      if NextWrite(p).Some? {
        assert routes[0] in routes;
        TurnIsNormal(m, seen, routes[0], t.nextId);
      }
    case _ => QueryWritesNothing(p);
  }

  lemma ReadyLands(t: Table, step: Step, base: string)
    requires Based(t) && UnderRead(step, base) && StepInWindow(t, step, base)
    ensures Lands(t, step)
  {
    hide UnderBase, RowsUnder, Listed;
  }

  /** Every write of the run finishes within its window. */
  ghost predicate TimelyRun(w: World, ms: seq<Move>) {
    ms == [] || (TimelyRun(w, ms[..|ms| - 1]) && Timely(AfterMoves(w, ms[..|ms| - 1]), ms[|ms| - 1]))
  }

  ghost predicate Timely(w: World, m: Move) {
    m.Finish? && m.i < |w.pending| ==> InWindow(w.t, w.pending[m.i])
  }

  lemma {:induction false} TimelyRunLands(w: World, ms: seq<Move>)
    requires SoundWorld(w) && Based(w.t) && ProperRun(ms) && TimelyRun(w, ms)
    ensures LandingRun(w, ms) && BasedThroughout(w, ms)
  {
    BasedThroughoutIff(w, ms);
    hide Proper, MoveTo, Based, InWindow, PendingLands, NormalPending, Sound;
    if ms != [] {
      var front, m := ms[..|ms| - 1], ms[|ms| - 1];
      assert forall x :: x in front ==> x in ms;
      TimelyRunLands(w, front);
      RunKeepsSound(w, front);
      var now := AfterMoves(w, front);
      assert Based(now.t) by { ThroughoutIsNow(w, front); }
      hide AfterMoves, BasedThroughout;
      if m.Finish? && m.i < |now.pending| { WindowLands(now.t, now.pending[m.i]); }
    }
  }

  /**
    So the whole invariant of the tables survives every interleaving in which each
    write still finds the base it read, each changed content its route, and each
    rebase no endpoint outside its new base that it does not know of.
   */
  lemma OverlappingRoutesTheorem(ms: seq<Move>)
    requires ProperRun(ms) && TimelyRun(NO_ROUTES, ms)
    ensures var t := AfterMoves(NO_ROUTES, ms).t;
            GoodTable(t.packs, t.eps, t.nextId) && DistinctPackSlugs(t.packs)
  {
    NoRoutesIsSound();
    TimelyRunLands(NO_ROUTES, ms);
    RunKeepsSound(NO_ROUTES, ms);
    ThroughoutIsNow(NO_ROUTES, ms);
    var t := AfterMoves(NO_ROUTES, ms).t;
    hide AfterMoves, NormalPending, Sound, Based, BasedThroughout, LandingRun, TimelyRun;
    SoundAndBasedIsGood(t);
  }

  // -------- how long a window lasts --------

  /** The move finishes a pack edit that changes this base. */
  ghost predicate Rebases(w: World, m: Move, packId: Id) {
    && m.Finish? && m.i < |w.pending| && w.pending[m.i].Ready? && w.pending[m.i].step.PutPack?
    && w.pending[m.i].step.packId == packId && packId in w.t.packs
    && w.pending[m.i].step.pack.basePath != w.t.packs[packId].basePath
  }

  ghost predicate NeverRebased(w: World, ms: seq<Move>, packId: Id) {
    ms == []
    || (NeverRebased(w, ms[..|ms| - 1], packId) && !Rebases(AfterMoves(w, ms[..|ms| - 1]), ms[|ms| - 1], packId))
  }

  lemma StepKeepsBase(t: Table, step: Step, packId: Id)
    requires packId in t.packs && packId < t.nextId
    requires step.PutPack? && step.packId == packId ==> step.pack.basePath == t.packs[packId].basePath
    ensures packId in Take(t, step).packs && Take(t, step).packs[packId].basePath == t.packs[packId].basePath
  {
    hide MoveAll, MoveRow, Upsert, PackSlugTaken;
  }

  lemma MoveKeepsBase(w: World, m: Move, packId: Id)
    requires SoundWorld(w) && packId in w.t.packs && !Rebases(w, m, packId)
    ensures packId in MoveTo(w, m).t.packs && MoveTo(w, m).t.packs[packId].basePath == w.t.packs[packId].basePath
  {
    assert packId < w.t.nextId by { PackIsOld(w.t, packId); }
    hide SoundWorld, Answer, LeftToDo, Written, Replaced;
    if m.Finish? && m.i < |w.pending| && !IsQuery(w.pending[m.i]) {
      WrittenKeepsBase(w.t, w.pending[m.i], packId);
    }
  }

  lemma WrittenKeepsBase(t: Table, p: Pending, packId: Id)
    requires packId in t.packs && packId < t.nextId
    requires p.Ready? && p.step.PutPack? && p.step.packId == packId ==> p.step.pack.basePath == t.packs[packId].basePath
    ensures packId in Written(t, p).packs && Written(t, p).packs[packId].basePath == t.packs[packId].basePath
  {
    hide Take, NextWrite;
    if NextWrite(p).Some? {
      ImportsWriteRoutes(p);
      StepKeepsBase(t, NextWrite(p).value, packId);
    }
  }

  lemma ImportsWriteRoutes(p: Pending)
    requires NextWrite(p).Some?
    ensures p.Ready? || NextWrite(p).value.Write?
    ensures p.Ready? ==> NextWrite(p).value == p.step
  {
    hide Compose, Prepare, RouteKey;
  }

  lemma PackIsOld(t: Table, packId: Id)
    requires Sound(t) && packId in t.packs
    ensures packId < t.nextId
  {
    hide NormalPath, NormalEndpoints, Unique, DistinctPackSlugs;
  }

  /** Only a rebase of the pack itself ends the window of an import or an edit in it. */
  lemma {:induction false} BaseLasts(w: World, ms: seq<Move>, packId: Id)
    requires SoundWorld(w) && ProperRun(ms) && packId in w.t.packs && NeverRebased(w, ms, packId)
    ensures var t := AfterMoves(w, ms).t; packId in t.packs && t.packs[packId].basePath == w.t.packs[packId].basePath
  {
    hide SoundWorld, Proper, MoveTo, Rebases;
    if ms != [] {
      var front, m := ms[..|ms| - 1], ms[|ms| - 1];
      assert forall x :: x in front ==> x in ms;
      BaseLasts(w, front, packId);
      RunKeepsSound(w, front);
      MoveKeepsBase(AfterMoves(w, front), m, packId);
    }
  }

  // -------- operations that nothing interrupts --------

  function QueriesLeft(p: Pending): nat {
    match p
    case FindPack(_) => 3
    case FindEndpoint(_) => 3
    case FindBase(_, _) => 2
    case ListOwn(_, _, _) => 2
    case ListExisting(_, _) => 2
    case FindHolder(_, _, _) => 1
    case ListAll(_, _, _, _) => 1
    case ListOwners(_, _, _) => 1
    case _ => 0
  }

  /** All queries that are left, answered by one table. */
  ghost function Settled(t: Table, p: Pending): Option<Pending>
    decreases QueriesLeft(p)
  {
    if !IsQuery(p) then Some(p)
    else match Answer(t, p)
      case None => None
      case Some(q) => if QueriesLeft(q) < QueriesLeft(p) then Settled(t, q) else None
  }

  lemma SettledNext(t: Table, p: Pending, q: Pending)
    requires IsQuery(p) && Answer(t, p) == Some(q) && QueriesLeft(q) < QueriesLeft(p)
    ensures Settled(t, p) == Settled(t, q)
  {
    hide Answer;
  }

  lemma SettledEnd(t: Table, p: Pending)
    requires IsQuery(p) && (Answer(t, p).None? || !IsQuery(Answer(t, p).value))
    ensures Settled(t, p) == Answer(t, p)
  {
    hide Answer;
  }

  /** What an operation gets to if nothing comes between its queries. */
  ghost function DecidedAtOnce(t: Table, job: Job): Option<Pending> {
    Settled(t, Begun(job))
  }

  lemma PackEditAtOnce(t: Table, job: Job)
    requires job.EditPack?
    ensures DecidedAtOnce(t, job) == match WithPack(t.packs, job)
                                     case Some(ListOwn(_, pack, base)) =>
                                       WithAll(t.eps, job, pack, base, OwnOf(t.eps, job.packId))
                                     case other => other
  {
    hide OwnOf, EditedPack, Checked, Enumerates, RowsFor, Settled;
    match WithPack(t.packs, job)
    case Some(ListOwn(_, pack, base)) =>
      var own := OwnOf(t.eps, job.packId);
      SettledNext(t, FindPack(job), ListOwn(job, pack, base));
      SettledNext(t, ListOwn(job, pack, base), ListAll(job, pack, base, own));
      SettledEnd(t, ListAll(job, pack, base, own));
    case _ => SettledEnd(t, FindPack(job));
  }

  lemma CheckedAtOnce(eps: Endpoints, packId: Id, oldBase: string, newBase: string)
    ensures Checked(OwnOf(eps, packId), eps, oldBase, newBase) <==> RebaseAllowed(eps, packId, oldBase, newBase)
  {
    hide KeyOf, Rebased;
    var own := OwnOf(eps, packId);
    if RebaseAllowed(eps, packId, oldBase, newBase) {
      forall i, j | i in own && j in eps && i != j
        ensures KeyOf(Rebased(own[i], oldBase, newBase)) != KeyOf(eps[j])
      {
        assert NoClash(eps, packId, oldBase, newBase, i, j);
      }
      forall i, j | i in own && j in own && i != j
        ensures KeyOf(Rebased(own[i], oldBase, newBase)) != KeyOf(Rebased(own[j], oldBase, newBase))
      {
        assert NoClash(eps, packId, oldBase, newBase, i, j);
      }
    }
    if Checked(own, eps, oldBase, newBase) {
      forall i, j | i in InPack(eps, packId) && j in eps && i != j
        ensures NoClash(eps, packId, oldBase, newBase, i, j)
      {
        assert i in own && own[i] == eps[i];
        if j in own { assert own[j] == eps[j]; }
      }
    }
  }

  lemma {:induction false} RowsOfOwn(eps: Endpoints, packId: Id, order: seq<Id>, oldBase: string, newBase: string)
    requires forall i :: i in order ==> i in InPack(eps, packId)
    ensures RowsFor(OwnOf(eps, packId), order, oldBase, newBase) == RowsFor(eps, order, oldBase, newBase)
  {
    hide Rebased;
    if order != [] {
      assert order[|order| - 1] in order && forall i :: i in order[..|order| - 1] ==> i in order;
      RowsOfOwn(eps, packId, order[..|order| - 1], oldBase, newBase);
    }
  }

  lemma UninterruptedRebase(t: Table, job: Job, pack: Pack)
    requires GoodTable(t.packs, t.eps, t.nextId) && job.EditPack? && job.packId in t.packs && NormalPath(pack.basePath)
    requires Enumerates(job.order, InPack(t.eps, job.packId))
    ensures var oldBase := t.packs[job.packId].basePath;
            var p := WithAll(t.eps, job, pack, oldBase, OwnOf(t.eps, job.packId));
            && (p.Some? <==> RebaseAllowed(t.eps, job.packId, oldBase, pack.basePath))
            && (p.Some? ==> p.value.Ready? && p.value.step.PutPack? && p.value.step.packId == job.packId
                            && p.value.step.pack == pack
                            && MoveAll(t.eps, job.packId, p.value.step.rows)
                               == Ok(PartlyRebased(t.eps, InPack(t.eps, job.packId), oldBase, pack.basePath)))
  {
    hide NormalPath, GoodTable, RebaseAllowed, Checked, Rebased, MoveAll, RowsFor, Enumerates;
    var oldBase := t.packs[job.packId].basePath;
    assert OwnOf(t.eps, job.packId).Keys == InPack(t.eps, job.packId);
    CheckedAtOnce(t.eps, job.packId, oldBase, pack.basePath);
    ListedIds(job.order, InPack(t.eps, job.packId));
    RowsOfOwn(t.eps, job.packId, job.order, oldBase, pack.basePath);
    if RebaseAllowed(t.eps, job.packId, oldBase, pack.basePath) {
      AllowedRebaseMoves(t.packs, t.eps, t.nextId, job.packId, pack.basePath, job.order, InPack(t.eps, job.packId));
    }
  }

  lemma ListedIds(order: seq<Id>, ids: set<Id>)
    requires Enumerates(order, ids)
    ensures forall i :: i in order ==> i in ids
  {
  }

  /**
    A pack edit whose queries and transaction see one table: refused by its checks,
    or carried out as the transaction on the whole rebased table.
   */
  lemma UninterruptedPackEdit(t: Table, job: Job)
    requires GoodTable(t.packs, t.eps, t.nextId) && job.EditPack? && job.packId in t.packs
    requires Enumerates(job.order, InPack(t.eps, job.packId)) && EditedPack(t.packs[job.packId], job.input).Ok?
    ensures var pack := EditedPack(t.packs[job.packId], job.input).value;
            var oldBase := t.packs[job.packId].basePath;
            var p := DecidedAtOnce(t, job);
            && (p == None <==> pack.basePath != oldBase && !RebaseAllowed(t.eps, job.packId, oldBase, pack.basePath))
            && (p.Some? ==> p.value.Ready? && Outcome(t, p.value.step) == PackWritten(t, job.packId, pack))
  {
    var oldBase := t.packs[job.packId].basePath;
    PackEditAtOnce(t, job);
    GoodPackIsNormal(t, job.packId);
    EditedPackIsNormal(t.packs[job.packId], job.input);
    var pack := EditedPack(t.packs[job.packId], job.input).value;
    hide EditedPack, NormalPath, GoodTable, RebaseAllowed, PackSlugTaken, Enumerates, PartlyRebased, OwnOf, Settled;
    if pack.basePath != oldBase {
      hide MoveAll, WithAll;
      UninterruptedRebase(t, job, pack);
    }
  }

  /** What an edited pack makes of the tables, its endpoints included. */
  ghost function PackWritten(t: Table, packId: Id, pack: Pack): Result<Table, Error>
    requires packId in t.packs
  {
    var oldBase := t.packs[packId].basePath;
    if PackSlugTaken(t.packs, pack.slug, Some(packId)) then Err(AlreadyExists)
    else
      Ok(t.(packs := t.packs[packId := pack],
            eps := if pack.basePath == oldBase then t.eps
                   else PartlyRebased(t.eps, InPack(t.eps, packId), oldBase, pack.basePath)))
  }

  lemma GoodPackIsNormal(t: Table, packId: Id)
    requires GoodTable(t.packs, t.eps, t.nextId) && packId in t.packs
    ensures NormalPath(t.packs[packId].basePath)
  {
    hide GoodEndpoint, Unique, NormalPath;
  }

  lemma KeyedFacts(eps: Endpoints, key: string)
    requires key in KeysOf(eps)
    ensures HasKey(eps, Keyed(eps, key), key)
  {
  }

  lemma KeyedIsOwn(eps: Endpoints, i: Id)
    requires DistinctKeys(eps) && i in eps
    ensures KeyOf(eps[i]) in KeysOf(eps) && Keyed(eps, KeyOf(eps[i])) == i
  {
    hide KeyOf, KeysOf;
    assert HasKey(eps, i, KeyOf(eps[i]));
  }

  lemma ExistingIsIndex(eps: Endpoints, packId: Id)
    ensures var existing := ExistingIn(OwnOf(eps, packId));
            && (forall i :: i in eps && eps[i].packId == packId ==> KeyOf(eps[i]) in existing)
            && (forall key :: key in existing ==> IsKnown(eps, packId, key, existing[key]))
  {
    hide KeyOf, KeysOf, Keyed;
    var own := OwnOf(eps, packId);
    forall i | i in eps && eps[i].packId == packId ensures KeyOf(eps[i]) in ExistingIn(own) {
      assert own[i] == eps[i];
    }
    forall key | key in ExistingIn(own) ensures IsKnown(eps, packId, key, ExistingIn(own)[key]) {
      KeyedFacts(own, key);
    }
  }

  ghost predicate IsKnown(eps: Endpoints, packId: Id, key: string, known: Known) {
    && known.id in eps && eps[known.id] == known.endpoint && known.endpoint.packId == packId
    && KeyOf(known.endpoint) == key
  }

  lemma OwnersIsIndex(eps: Endpoints)
    requires DistinctKeys(eps)
    ensures forall i :: i in eps ==> KeyOf(eps[i]) in OwnersIn(eps) && OwnersIn(eps)[KeyOf(eps[i])] == eps[i].packId
    ensures forall key :: key in OwnersIn(eps) ==> exists i :: HasKey(eps, i, key)
  {
    hide KeyOf, KeysOf, Keyed, DistinctKeys;
    forall i | i in eps ensures KeyOf(eps[i]) in OwnersIn(eps) && OwnersIn(eps)[KeyOf(eps[i])] == eps[i].packId {
      KeyedIsOwn(eps, i);
    }
  }

  /** The two indexes of an import, read from one table, describe it. */
  lemma UninterruptedIndexes(t: Table, packId: Id, base: string, check: Validation)
    requires Sound(t)
    ensures Indexed(Import(packId, base, ExistingIn(OwnOf(t.eps, packId)), OwnersIn(t.eps), check), t.eps)
  {
    SoundHasDistinctKeys(t);
    ExistingIsIndex(t.eps, packId);
    OwnersIsIndex(t.eps);
    hide KeyOf, Sound, ExistingIn, OwnersIn, OwnOf, DistinctKeys;
  }

  lemma RouteEditAtOnce(t: Table, job: Job)
    requires job.EditRoute?
    ensures DecidedAtOnce(t, job)
            == match WithEndpoint(t, job)
               case Some(FindBase(_, e)) =>
                 (match WithBase(t.packs, job, e)
                  case None => None
                  case Some(holder) => Answer(t, holder))
               case other => other
  {
    hide EditedRoute, RouteTaken, Settled;
    match WithEndpoint(t, job)
    case Some(FindBase(_, e)) =>
      SettledNext(t, FindEndpoint(job), FindBase(job, e));
      var held := WithBase(t.packs, job, e);
      if held.Some? {
        SettledNext(t, FindBase(job, e), held.value);
        SettledEnd(t, held.value);
      } else {
        SettledEnd(t, FindBase(job, e));
      }
    case _ => SettledEnd(t, FindEndpoint(job));
  }

  /** A route edit gets to its statement exactly if it is accepted and the route is free, and that changes one row. */
  lemma UninterruptedRouteEdit(t: Table, job: Job)
    requires job.EditRoute?
    ensures var p := DecidedAtOnce(t, job);
            if job.packId !in t.packs || job.id !in t.eps || t.eps[job.id].packId != job.packId then p == None
            else
              match EditedRoute(t.eps[job.id], t.packs[job.packId].basePath, job.verb, job.relativePath)
              case Err(_) => p == None
              case Ok(e) =>
                && (p == None <==> exists i :: i in t.eps && i != job.id && SameRoute(t.eps[i], e.verb, e.path))
                && (p.Some? ==> p.value.Ready? && Outcome(t, p.value.step) == Ok(t.(eps := t.eps[job.id := e])))
  {
    RouteEditAtOnce(t, job);
    hide Settled, DecidedAtOnce, SameRoute, EditedRoute, Outcome;
    if job.packId in t.packs && job.id in t.eps && t.eps[job.id].packId == job.packId {
      var edited := EditedRoute(t.eps[job.id], t.packs[job.packId].basePath, job.verb, job.relativePath);
      if edited.Ok? && !RouteTaken(t.eps, edited.value.verb, edited.value.path, job.id) {
        EditedOnlyRoute(t.eps[job.id], t.packs[job.packId].basePath, job.verb, job.relativePath);
        FreeRouteIsTaken(t, job.packId, job.id, edited.value);
      }
    }
  }

  lemma EditedOnlyRoute(e: Endpoint, base: string, verb: string, relativePath: string)
    ensures var r := EditedRoute(e, base, verb, relativePath);
            r.Ok? ==> r.value == e.(verb := r.value.verb, path := r.value.path)
  {
    hide NormalizePath, NormalizeVerb, TrimSpace, IncludesBase, Compose;
  }

  lemma FreeRouteIsTaken(t: Table, packId: Id, id: Id, e: Endpoint)
    requires id in t.eps && t.eps[id].packId == packId && e == t.eps[id].(verb := e.verb, path := e.path)
    requires !RouteTaken(t.eps, e.verb, e.path, id)
    ensures Outcome(t, MoveEndpoint(packId, Moved(id, e.verb, e.path))) == Ok(t.(eps := t.eps[id := e]))
  {
    hide RouteTaken;
  }

  /** The endpoint with new content: its route stays, what is given is set, and what is not is kept or defaulted. */
  ghost predicate HasContent(e: Endpoint, was: Endpoint, c: Content) {
    && e.packId == was.packId && e.verb == was.verb && e.path == was.path
    && e.authMode == (if c.authMode.Some? then c.authMode.value
                      else if was.authMode == "" then "INHERIT" else was.authMode)
    && e.authPolicy == (if c.authPolicy.Some? then c.authPolicy.value
                        else if TrimSpace(was.authPolicy) == "" then "{}" else was.authPolicy)
    && e.contract == (if c.contract.Some? then c.contract.value else was.contract)
    && e.scenarios == (if c.scenarios.Some? then c.scenarios.value else was.scenarios)
  }

  /** An edit of content that nothing interrupts sets the content of that endpoint, and nothing else. */
  lemma UninterruptedContentEdit(t: Table, job: Job)
    requires Sound(t) && job.EditContent?
    ensures var p := DecidedAtOnce(t, job);
            && (p.Some? <==> job.packId in t.packs && job.id in t.eps && t.eps[job.id].packId == job.packId)
            && (p.Some? ==> p.value.Ready?)
            && (p.Some? ==> var r := Outcome(t, p.value.step);
                            && r.Ok? && job.id in r.value.eps
                            && r.value == t.(eps := t.eps[job.id := r.value.eps[job.id]])
                            && HasContent(r.value.eps[job.id], t.eps[job.id], job.content))
  {
    hide Sound, TrimSpace, SameRoute, Outcome, Settled;
    SettledEnd(t, FindEndpoint(job));
    if WithEndpoint(t, job).Some? {
      var e := WithContent(t.eps[job.id], job.content);
      WriteFollowsRoute(t, job.id, e);
      assert SameRoute(t.eps[job.id], e.verb, e.path) by { OwnRoute(t.eps[job.id]); }
    }
  }

  lemma OwnRoute(e: Endpoint)
    ensures SameRoute(e, e.verb, e.path)
  {
  }

  /** The turns of an import, one right after the other. */
  ghost function AllTurns(t: Table, p: Pending): Table
    requires p.Importing?
    decreases |p.routes|
  {
    match LeftToDo(t, p)
    case None => Written(t, p)
    case Some(left) => AllTurns(Written(t, p), left)
  }

  lemma {:induction false} UninterruptedImport(m: Import, packs: map<Id, Pack>, before: Endpoints, p: Progress,
                                               routes: seq<Route>)
    requires InImport(m, packs, before, p) && forall r :: r in routes ==> NormalVerb(r.verb)
    ensures var end := ImportFold(m, p, routes).0;
            AllTurns(Table(packs, p.eps, p.nextId), Importing(m, routes, p.seen)) == Table(packs, end.eps, end.nextId)
    decreases |routes|
  {
    hide InImport, NormalVerb, Compose, RouteKey, Prepare, Upsert;
    if routes != [] {
      var r := routes[0];
      assert r in routes && forall x :: x in routes[1..] ==> x in routes;
      var t, job := Table(packs, p.eps, p.nextId), Importing(m, routes, p.seen);
      TurnIsImportStep(m, packs, before, p, routes);
      if ImportStep(m, p, r).Ok? {
        ImportStepKeeps(m, packs, before, p, r);
        UninterruptedImport(m, packs, before, ImportStep(m, p, r).value, routes[1..]);
      }
    }
  }

  lemma TurnIsImportStep(m: Import, packs: map<Id, Pack>, before: Endpoints, p: Progress, routes: seq<Route>)
    requires InImport(m, packs, before, p) && routes != [] && NormalVerb(routes[0].verb)
    ensures var t, job := Table(packs, p.eps, p.nextId), Importing(m, routes, p.seen);
            match ImportStep(m, p, routes[0])
            case Err(_) => LeftToDo(t, job) == None && Written(t, job) == t
            case Ok(next) =>
              && LeftToDo(t, job) == Some(Importing(m, routes[1..], next.seen))
              && Written(t, job) == Table(packs, next.eps, next.nextId)
  {
    hide InImport, NormalVerb, Compose, RouteKey, Prepare, Upsert;
    var r := routes[0];
    if Compose(m.basePath, r.path).Some? {
      var path := Compose(m.basePath, r.path).value;
      var key := RouteKey(r.verb, path);
      if key in p.seen {
        assert p.seen + {key} == p.seen;
      } else if Prepare(m, r, path).Ok? {
        PreparedUpserts(m, packs, before, p, r, path);
      }
    }
  }

  lemma ImportAtOnce(t: Table, job: Job)
    requires job.ImportRoutes?
    ensures DecidedAtOnce(t, job)
            == if job.packId !in t.packs then None
               else Some(Importing(Import(job.packId, t.packs[job.packId].basePath,
                                          ExistingIn(OwnOf(t.eps, job.packId)), OwnersIn(t.eps), job.check),
                                   job.routes, {}))
  {
    hide OwnOf, ExistingIn, OwnersIn, Settled;
    if job.packId in t.packs {
      var base, existing := t.packs[job.packId].basePath, ExistingIn(OwnOf(t.eps, job.packId));
      SettledNext(t, FindPack(job), ListExisting(job, base));
      SettledNext(t, ListExisting(job, base), ListOwners(job, base, existing));
      SettledEnd(t, ListOwners(job, base, existing));
    } else {
      SettledEnd(t, FindPack(job));
    }
  }

  /** An import that nothing interrupts leaves every first route imported if all can be, and no pack changed. */
  lemma UninterruptedImportJob(t: Table, job: Job)
    requires GoodTable(t.packs, t.eps, t.nextId) && DistinctPackSlugs(t.packs) && job.ImportRoutes?
    requires forall r :: r in job.routes ==> NormalVerb(r.verb)
    ensures DecidedAtOnce(t, job) == None <==> job.packId !in t.packs
    ensures job.packId in t.packs ==>
              var p, base := DecidedAtOnce(t, job).value, t.packs[job.packId].basePath;
              && p.Importing? && AllTurns(t, p).packs == t.packs
              && (AllImportable(base, job.packId, t.eps, job.routes, {}, job.check) ==>
                    AllImported(base, job.packId, t.eps, job.routes, {}, job.check, AllTurns(t, p).eps))
  {
    hide NormalVerb, ExistingIn, OwnersIn, OwnOf, GoodTable, Based, Sound, DistinctPackSlugs, AllTurns;
    hide AllImportable, AllImported, ImportFold, Indexed, DistinctKeys;
    ImportAtOnce(t, job);
    hide DecidedAtOnce;
    if job.packId in t.packs {
      SoundAndBasedIsGood(t);
      var base := t.packs[job.packId].basePath;
      var m := Import(job.packId, base, ExistingIn(OwnOf(t.eps, job.packId)), OwnersIn(t.eps), job.check);
      assert DecidedAtOnce(t, job) == Some(Importing(m, job.routes, {}));
      UninterruptedIndexes(t, job.packId, base, job.check);
      var start := Progress(t.eps, t.nextId, {}, 0, 0, 0);
      assert InImport(m, t.packs, t.eps, start);
      hide InImport;
      UninterruptedImport(m, t.packs, t.eps, start, job.routes);
      FoldImports(m, t.packs, t.eps, start, job.routes);
      assert t == Table(t.packs, t.eps, t.nextId);
    }
  }
}
