/**
  The route operations of one integration, on the stored tables: each method
  reads, checks and writes in the order of the code, and leaves a good table
  whether it succeeds or fails.
 */
module RouteService {
  import opened Wrappers
  import opened Text
  import opened PathTemplates
  import opened PackPaths
  import opened RouteTable
  import opened RouteTransactions

  datatype ImportReport = ImportReport(created: nat, updated: nat, skipped: nat)

  /** What editing a route does: the edit is refused, or clashes, or is stored. */
  ghost predicate EditOutcome(before: Endpoints, id: Id, edit: Result<Endpoint, Error>, r: Result<Endpoint, Error>,
                              after: Endpoints) {
    match edit
    case Err(error) => r == Err(error)
    case Ok(e) =>
      if forall i :: i in before && i != id ==> !SameRoute(before[i], e.verb, e.path) then
        r == edit && after == before[id := e]
      else r == Err(AlreadyExists)
  }

  /** What updating a pack does: refused, in conflict, or stored together with all its endpoints under the new base. */
  ghost predicate PackOutcome(packs: map<Id, Pack>, before: Endpoints, packId: Id, edit: Result<Pack, Error>,
                              r: Result<Pack, Error>, packs': map<Id, Pack>, after: Endpoints)
    requires packId in packs
  {
    var oldBase := packs[packId].basePath;
    match edit
    case Err(error) => r == Err(error)
    case Ok(pack) =>
      if PackSlugTaken(packs, pack.slug, Some(packId)) then r == Err(AlreadyExists)
      else if pack.basePath == oldBase then r == Ok(pack) && packs' == packs[packId := pack] && after == before
      else if !RebaseAllowed(before, packId, oldBase, pack.basePath) then r == Err(AlreadyExists)
      else
        && r == Ok(pack) && packs' == packs[packId := pack]
        && after == PartlyRebased(before, InPack(before, packId), oldBase, pack.basePath)
  }

  lemma PackKeepsGood(packs: map<Id, Pack>, eps: Endpoints, nextId: Id, packId: Id, pack: Pack)
    requires GoodTable(packs, eps, nextId) && packId in packs
    ensures NormalPath(packs[packId].basePath)
    ensures pack.basePath == packs[packId].basePath ==> GoodTable(packs[packId := pack], eps, nextId)
  {
    hide NormalPath, NormalVerb, UnderBase;
  }

  lemma AddedPackKeepsGood(packs: map<Id, Pack>, eps: Endpoints, nextId: Id, pack: Pack)
    requires GoodTable(packs, eps, nextId) && NormalPath(pack.basePath)
    ensures nextId !in packs && GoodTable(packs[nextId := pack], eps, nextId + 1)
  {
    hide NormalPath, NormalVerb, UnderBase;
  }

  /** The stored endpoints and the report of an import: how far the loop got, whether it failed or not. */
  ghost predicate ImportOutcome(fold: (Progress, Option<Error>), r: Result<ImportReport, Error>, after: Endpoints,
                                nextId: Id) {
    && after == fold.0.eps && nextId == fold.0.nextId
    && r == match fold.1
            case None => Ok(ImportReport(fold.0.created, fold.0.updated, fold.0.skipped))
            case Some(error) => Err(error)
  }

  /** The loop of row updates ends with its first error. */
  lemma {:induction false} MovesStop(eps: Endpoints, packId: Id, rows: seq<Moved>, n: nat)
    requires n <= |rows| && MoveAll(eps, packId, rows[..n]).Err?
    ensures MoveAll(eps, packId, rows) == MoveAll(eps, packId, rows[..n])
    decreases |rows|
  {
    if n < |rows| {
      var front := rows[..|rows| - 1];
      assert front[..n] == rows[..n];
      MovesStop(eps, packId, front, n);
    } else {
      assert rows[..n] == rows;
    }
  }

  ghost function ProgressWith(eps: Endpoints, nextId: Id, seen: set<string>, report: ImportReport): Progress {
    Progress(eps, nextId, seen, report.created, report.updated, report.skipped)
  }

  lemma ProgressIsGood(m: Import, packs: map<Id, Pack>, before: Endpoints, p: Progress)
    requires InImport(m, packs, before, p)
    ensures GoodTable(packs, p.eps, p.nextId) && Unique(p.eps)
  {
    hide GoodEndpoint, Indexed, Frame, Unique;
  }

  class Tables {
    var packs: map<Id, Pack>
    var endpoints: Endpoints
    var nextId: Id

    ghost predicate Valid()
      reads this
    {
      GoodTable(packs, endpoints, nextId) && DistinctPackSlugs(packs)
    }

    constructor ()
      ensures Valid() && packs == map[] && endpoints == map[]
    {
      packs, endpoints, nextId := map[], map[], 0;
    }

    /** CreatePack; `policy` is the serialized default policy. */
    method CreatePack(name: string, slug: string, basePath: string, policy: string) returns (r: Result<Id, Error>)
      requires Valid()
      modifies this
      ensures Valid() && endpoints == old(endpoints)
      ensures r == Err(InvalidInput)
              <==> TrimSpace(name) == "" || CleanSlug(slug) == "" || NormalizePath(basePath).None?
      ensures r == Err(AlreadyExists) <==> r != Err(InvalidInput) && PackSlugTaken(old(packs), CleanSlug(slug), None)
      ensures r.Err? ==> (r.error == InvalidInput || r.error == AlreadyExists) && packs == old(packs)
      ensures r.Ok? ==>
                && r.value !in old(packs)
                && packs == old(packs)[r.value := Pack(TrimSpace(name), CleanSlug(slug), NormalizePath(basePath).value,
                                                       "ACTIVE", false, policy)]
    {
      hide TrimSpace, ToLower, NormalPath, NormalizePath, GoodTable;
      var base := NormalizePathTemplate(basePath);
      if TrimSpace(name) == "" || CleanSlug(slug) == "" || base.None? {
        return Err(InvalidInput);
      }
      NormalizeIdempotent(basePath);
      var pack := Pack(TrimSpace(name), CleanSlug(slug), base.value, "ACTIVE", false, policy);
      AddedPackKeepsGood(packs, endpoints, nextId, pack);
      if p :| p in packs && packs[p].slug == pack.slug {
        return Err(AlreadyExists);
      }
      r := Ok(nextId);
      packs := packs[nextId := pack];
      nextId := nextId + 1;
    }

    ghost function Contents(): Table
      reads this
    {
      Table(packs, endpoints, nextId)
    }

    /** UpdatePack of the repository: one row, under the uniqueness of slugs. */
    method UpdatePackRow(packId: Id, pack: Pack) returns (error: Option<Error>)
      modifies this`packs
      ensures match PutPackRow(old(packs), packId, pack)
              case Ok(packs') => error.None? && packs == packs'
              case Err(e) => error == Some(e) && packs == old(packs)
    {
      if packId !in packs {
        return None;
      }
      if p :| p in packs && p != packId && packs[p].slug == pack.slug {
        return Some(AlreadyExists);
      }
      assert !PackSlugTaken(packs, pack.slug, Some(packId));
      packs := packs[packId := pack];
      return None;
    }

    /** UpdateEndpointRoute of the repository: one row, under the uniqueness constraint. */
    method UpdateRow(packId: Id, row: Moved) returns (error: Option<Error>)
      modifies this`endpoints
      ensures match MoveRow(old(endpoints), packId, row)
              case Ok(eps) => error.None? && endpoints == eps
              case Err(e) => error == Some(e) && endpoints == old(endpoints)
    {
      if row.id !in endpoints || endpoints[row.id].packId != packId {
        return Some(NotFound);
      }
      if i :| i in endpoints && i != row.id && SameRoute(endpoints[i], row.verb, row.path) {
        return Some(AlreadyExists);
      }
      assert !RouteTaken(endpoints, row.verb, row.path, row.id);
      endpoints := endpoints[row.id := endpoints[row.id].(verb := row.verb, path := row.path)];
      return None;
    }

    /** UpsertEndpoint: INSERT ... ON CONFLICT(integration_id, method, path) DO UPDATE, which keeps the stored id. */
    method UpsertRow(id: Id, e: Endpoint) returns (error: Option<Error>)
      requires Unique(endpoints)
      modifies this`endpoints
      ensures match Upsert(old(Contents()), id, e)
              case Ok(eps) => error.None? && endpoints == eps
              case Err(e) => error == Some(e) && endpoints == old(endpoints)
    {
      if e.packId !in packs {
        return Some(Constraint);
      }
      if i :| i in endpoints && SameRoute(endpoints[i], e.verb, e.path) {
        assert Holder(endpoints, e.verb, e.path) == Some(i);
        endpoints := endpoints[i := e];
        return None;
      }
      if id in endpoints {
        return Some(Constraint);
      }
      endpoints := endpoints[id := e];
      return None;
    }

    /**
      The transaction of UpdatePack, whatever other requests have done since its
      checks: the pack and all listed rows, or an error and every table as it was.
     */
    method CommitRebase(packId: Id, pack: Pack, rows: seq<Moved>) returns (error: Option<Error>)
      modifies this`packs, this`endpoints
      ensures match CommitPack(old(Contents()), packId, pack, rows)
              case Ok(t) => error.None? && Contents() == t
              case Err(e) => error == Some(e) && Contents() == old(Contents())
    {
      hide PutPackRow, MoveRow;
      var packs', endpoints' := packs, endpoints;
      error := UpdatePackRow(packId, pack);
      if error.Some? {
        return;
      }
      for n := 0 to |rows|
        invariant PutPackRow(packs', packId, pack) == Ok(packs)
        invariant MoveAll(endpoints', packId, rows[..n]) == Ok(endpoints)
      {
        assert rows[..n + 1][..n] == rows[..n];
        error := UpdateRow(packId, rows[n]);
        if error.Some? {
          MovesStop(endpoints', packId, rows, n + 1);
          packs, endpoints := packs', endpoints';
          return;
        }
      }
      assert rows[..|rows|] == rows;
      return None;
    }

    /** UpdateEndpointRoute of the service: one endpoint gets a new method and a path relative to its pack. */
    method UpdateEndpointRoute(packId: Id, id: Id, verb: string, relativePath: string)
      returns (r: Result<Endpoint, Error>)
      requires Valid()
      modifies this`endpoints
      ensures Valid()
      ensures r.Err? ==> endpoints == old(endpoints)
      ensures id !in old(endpoints) || old(endpoints)[id].packId != packId ==> r == Err(NotFound)
      ensures id in old(endpoints) && packId in packs && old(endpoints)[id].packId == packId ==>
                EditOutcome(old(endpoints), id,
                            EditedRoute(old(endpoints)[id], packs[packId].basePath, verb, relativePath), r, endpoints)
    {
      hide NormalPath, NormalVerb, UnderBase, Compose, NormalizePath, NormalizeVerb, TrimSpace, IncludesBase;
      if id !in endpoints || endpoints[id].packId != packId {
        return Err(NotFound);
      }
      var e := endpoints[id];
      assert GoodEndpoint(e, packs);
      var base := packs[packId].basePath;
      EditedRouteMeaning(packs, e, verb, relativePath);
      var normalVerb := NormalizeVerb(verb);
      if TrimSpace(normalVerb) == "" {
        return Err(InvalidInput);
      }
      var relative := NormalizePathTemplate(relativePath);
      if relative.None? || IncludesBase(relative.value, base) {
        return Err(InvalidInput);
      }
      var path := Compose(base, relative.value);
      if path.None? {
        return Err(InvalidInput);
      }
      if other :| other in endpoints && other != id && SameRoute(endpoints[other], normalVerb, path.value) {
        return Err(AlreadyExists);
      }
      var e' := e.(verb := normalVerb, path := path.value);
      assert EditedRoute(e, base, verb, relativePath) == Ok(e');
      hide EditedRoute, GoodEndpoint;
      WriteKeepsGood(packs, endpoints, nextId, id, e');
      assert !RouteTaken(endpoints, normalVerb, path.value, id);
      var error := UpdateRow(packId, Moved(id, normalVerb, path.value));
      assert error.None?;
      return Ok(e');
    }

    /** Route keys of all endpoints: for distinct keys a loop over any listing finds every owner. */
    method OwnerIndex() returns (owner: map<string, Id>)
      requires Valid()
      ensures Indexes(owner, endpoints, endpoints.Keys)
    {
      hide KeyOf, GoodTable;
      GoodTableHasDistinctKeys(packs, endpoints, nextId);
      owner := map[];
      var rest := endpoints.Keys;
      while rest != {}
        invariant rest <= endpoints.Keys
        invariant Indexes(owner, endpoints, endpoints.Keys - rest)
      {
        var i :| i in rest;
        IndexGrows(owner, endpoints, endpoints.Keys - rest, i);
        assert endpoints.Keys - rest + {i} == endpoints.Keys - (rest - {i});
        owner := owner[KeyOf(endpoints[i]) := i];
        rest := rest - {i};
      }
      assert endpoints.Keys - rest == endpoints.Keys;
    }

    /** The checking loop of UpdatePack, over the endpoints of the pack in any order, and the rows it collects. */
    method PlanRebase(packId: Id, newBase: string) returns (rows: Option<seq<Moved>>, ghost order: seq<Id>)
      requires Valid() && packId in packs
      ensures var oldBase := packs[packId].basePath;
              && (rows.Some? <==> RebaseAllowed(endpoints, packId, oldBase, newBase))
              && (rows.Some? ==> Enumerates(order, InPack(endpoints, packId))
                                 && rows.value == RowsFor(endpoints, order, oldBase, newBase))
    {
      hide KeyOf, GoodTable, Rebased, RebaseAllowed, Enumerates, RowsFor, Indexes, DistinctKeys, DistinctPackSlugs;
      var oldBase := packs[packId].basePath;
      GoodTableHasDistinctKeys(packs, endpoints, nextId);
      NothingListed(endpoints, oldBase, newBase);
      var owner := OwnerIndex();
      var rebased: map<string, Id> := map[];
      var listed: seq<Moved> := [];
      ghost var done: set<Id> := {};
      order := [];
      var rest := InPack(endpoints, packId);
      while rest != {}
        invariant rest <= InPack(endpoints, packId) && done == InPack(endpoints, packId) - rest
        invariant RebaseIndexes(rebased, endpoints, done, oldBase, newBase)
        invariant RebaseAllowedFor(endpoints, done, packId, oldBase, newBase)
        invariant Enumerates(order, done) && (forall i :: i in order ==> i in endpoints)
        invariant listed == RowsFor(endpoints, order, oldBase, newBase)
      {
        hide RebaseIndexes, RebaseAllowedFor;
        var i :| i in rest;
        CheckTurn(owner, rebased, endpoints, done, i, packId, oldBase, newBase);
        var e := Rebased(endpoints[i], oldBase, newBase);
        var key := KeyOf(e);
        if key in owner && owner[key] != i {
          return None, order;
        }
        if key in rebased && rebased[key] != i {
          return None, order;
        }
        rebased := rebased[key := i];
        ListGrows(endpoints, order, done, i, oldBase, newBase);
        listed := listed + [Moved(i, e.verb, e.path)];
        order := order + [i];
        done := done + {i};
        rest := rest - {i};
      }
      assert done == InPack(endpoints, packId);
      AllowedForAllIsAllowed(endpoints, packId, oldBase, newBase);
      return Some(listed), order;
    }

    /** The first half of UpdatePack: the given fields, one after the other. */
    method EditFields(current: Pack, input: PackInput) returns (r: Result<Pack, Error>)
      ensures r == EditedPack(current, input)
    {
      hide NormalizePath, TrimSpace, ToUpper, ToLower;
      var pack := current;
      if input.name.Some? {
        if TrimSpace(input.name.value) == "" {
          return Err(InvalidInput);
        }
        pack := pack.(name := TrimSpace(input.name.value));
      }
      if input.slug.Some? {
        if CleanSlug(input.slug.value) == "" {
          return Err(InvalidInput);
        }
        pack := pack.(slug := CleanSlug(input.slug.value));
      }
      if input.basePath.Some? {
        var base := NormalizePathTemplate(input.basePath.value);
        if base.None? {
          return Err(InvalidInput);
        }
        pack := pack.(basePath := base.value);
      }
      if input.status.Some? {
        if CleanStatus(input.status.value) == "" {
          return Err(InvalidInput);
        }
        pack := pack.(status := CleanStatus(input.status.value));
      }
      if input.authEnabled.Some? {
        pack := pack.(authEnabled := input.authEnabled.value);
      }
      if input.authPolicy.Some? {
        if input.authPolicy.value.Err? {
          return Err(input.authPolicy.value.error);
        }
        pack := pack.(authPolicy := input.authPolicy.value.value);
      }
      return Ok(pack);
    }

    /** UpdatePack: any of its fields, and with a new base path all its endpoints. */
    method UpdatePack(packId: Id, input: PackInput) returns (r: Result<Pack, Error>)
      requires Valid()
      modifies this`packs, this`endpoints
      ensures Valid()
      ensures r.Err? ==> packs == old(packs) && endpoints == old(endpoints)
      ensures packId !in old(packs) ==> r == Err(NotFound)
      ensures packId in old(packs) ==>
                PackOutcome(old(packs), old(endpoints), packId, EditedPack(old(packs)[packId], input), r, packs,
                            endpoints)
      ensures r.Ok? ==> packId in old(packs) && packs == old(packs)[packId := r.value]
      ensures r.Ok? ==> HasFields(r.value, old(packs)[packId], input)
      ensures packId in old(packs) && HasBlankField(input) ==> r == Err(InvalidInput)
    {
      hide NormalPath, NormalizePath, TrimSpace, ToUpper, ToLower, RebaseAllowed, GoodTable, Rebased;
      if packId !in packs {
        return Err(NotFound);
      }
      var oldBase := packs[packId].basePath;
      var edited := EditFields(packs[packId], input);
      if edited.Err? {
        return Err(edited.error);
      }
      var pack := edited.value;
      EditedPackMeans(packs[packId], input);
      PackKeepsGood(packs, endpoints, nextId, packId, pack);
      EditedPackIsNormal(packs[packId], input);
      hide EditedPack, HasFields, HasBlankField;
      r := StorePack(packId, pack, oldBase);
    }

    /** The second half of UpdatePack: the plan and its transaction, with nothing between them. */
    method StorePack(packId: Id, pack: Pack, oldBase: string) returns (r: Result<Pack, Error>)
      requires Valid() && packId in packs && packs[packId].basePath == oldBase && NormalPath(pack.basePath)
      modifies this`packs, this`endpoints
      ensures Valid()
      ensures r.Err? ==> packs == old(packs) && endpoints == old(endpoints)
      ensures PackOutcome(old(packs), old(endpoints), packId, Ok(pack), r, packs, endpoints)
    {
      hide NormalPath, RebaseAllowed, GoodTable, Rebased, MoveAll;
      PackKeepsGood(packs, endpoints, nextId, packId, pack);
      if pack.basePath == oldBase {
        var error := UpdatePackRow(packId, pack);
        return if error.Some? then Err(error.value) else Ok(pack);
      }
      var rows, order := PlanRebase(packId, pack.basePath);
      if rows.None? {
        return Err(AlreadyExists);
      }
      RebasedTableIsGood(packs, endpoints, nextId, packId, pack);
      AllowedRebaseMoves(packs, endpoints, nextId, packId, pack.basePath, order, InPack(endpoints, packId));
      var error := CommitRebase(packId, pack, rows.value);
      return if error.Some? then Err(error.value) else Ok(pack);
    }

    /** The indexes ImportPackRoutes builds before its loop. */
    method ReadImport(packId: Id, check: Validation) returns (m: Import)
      requires Valid() && packId in packs
      ensures Indexed(m, endpoints) && m.packId == packId && m.basePath == packs[packId].basePath && m.check == check
    {
      hide KeyOf, GoodTable, Indexed;
      GoodTableHasDistinctKeys(packs, endpoints, nextId);
      var existing: map<string, Known> := map[];
      var rest := InPack(endpoints, packId);
      while rest != {}
        invariant rest <= InPack(endpoints, packId)
        invariant PackIndexed(existing, endpoints, packId, InPack(endpoints, packId) - rest)
      {
        var i :| i in rest;
        PackIndexGrows(existing, endpoints, packId, InPack(endpoints, packId) - rest, i);
        assert InPack(endpoints, packId) - rest + {i} == InPack(endpoints, packId) - (rest - {i});
        existing := existing[KeyOf(endpoints[i]) := Known(i, endpoints[i])];
        rest := rest - {i};
      }
      assert InPack(endpoints, packId) - rest == InPack(endpoints, packId);
      var owners: map<string, Id> := map[];
      rest := endpoints.Keys;
      while rest != {}
        invariant rest <= endpoints.Keys
        invariant OwnersIndexed(owners, endpoints, endpoints.Keys - rest)
      {
        var i :| i in rest;
        OwnersGrow(owners, endpoints, endpoints.Keys - rest, i);
        assert endpoints.Keys - rest + {i} == endpoints.Keys - (rest - {i});
        owners := owners[KeyOf(endpoints[i]) := endpoints[i].packId];
        rest := rest - {i};
      }
      assert endpoints.Keys - rest == endpoints.Keys;
      m := Import(packId, packs[packId].basePath, existing, owners, check);
      FullIndexes(m, endpoints);
    }

    /** One turn of the loop of ImportPackRoutes, with its counters. */
    method ImportRoute(m: Import, route: Route, seen: set<string>, report: ImportReport, ghost before: Endpoints)
      returns (error: Option<Error>, seen': set<string>, report': ImportReport)
      requires InImport(m, packs, before, ProgressWith(endpoints, nextId, seen, report)) && NormalVerb(route.verb)
      modifies this`endpoints, this`nextId
      ensures match ImportStep(m, ProgressWith(old(endpoints), old(nextId), seen, report), route)
              case Err(e) => error == Some(e) && endpoints == old(endpoints) && nextId == old(nextId)
              case Ok(p) => error.None? && p == ProgressWith(endpoints, nextId, seen', report')
    {
      hide Compose, RouteKey, Prepare, GoodTable, NormalVerb, InImport, Unique, Upsert, Indexed, Frame, KeyOf;
      ghost var p := ProgressWith(endpoints, nextId, seen, report);
      NextIdIsFree(m, packs, before, p);
      ProgressIsGood(m, packs, before, p);
      var path := Compose(m.basePath, route.path);
      if path.None? {
        return Some(InvalidInput), seen, report;
      }
      var key := RouteKey(route.verb, path.value);
      if key in seen {
        return None, seen, report.(skipped := report.skipped + 1);
      }
      var prepared := Prepare(m, route, path.value);
      if prepared.Err? {
        return Some(prepared.error), seen, report;
      }
      var (known, e) := prepared.value;
      PreparedUpserts(m, packs, before, p, route, path.value);
      var failed := UpsertRow(if known.Some? then known.value else nextId, e);
      if known.Some? {
        return None, seen + {key}, report.(updated := report.updated + 1);
      }
      nextId := nextId + 1;
      return None, seen + {key}, report.(created := report.created + 1);
    }

    /**
      ImportPackRoutes after conversion of the payload: one turn per route, each
      upserting on its own, so the routes before a failing one stay written.
     */
    method ImportPackRoutes(packId: Id, routes: seq<Route>, check: Validation)
      returns (r: Result<ImportReport, Error>, ghost m: Import)
      requires Valid() && forall route :: route in routes ==> NormalVerb(route.verb)
      modifies this`endpoints, this`nextId
      ensures Valid()
      ensures packId !in packs ==> r == Err(NotFound) && endpoints == old(endpoints) && nextId == old(nextId)
      ensures packId in packs ==>
                && Indexed(m, old(endpoints)) && m.packId == packId && m.basePath == packs[packId].basePath
                && m.check == check
                && ImportOutcome(ImportFold(m, StartImport(old(endpoints), old(nextId)), routes), r, endpoints, nextId)
      ensures packId in packs ==>
                (r.Ok? <==> AllImportable(packs[packId].basePath, packId, old(endpoints), routes, {}, check))
      ensures r.Ok? ==>
                AllImported(packs[packId].basePath, packId, old(endpoints), routes, {}, check, endpoints)
      ensures r.Ok? ==> r.value.created + r.value.updated + r.value.skipped == |routes|
      ensures r.Ok? ==> |endpoints| == |old(endpoints)| + r.value.created
    {
      hide NormalVerb, Indexed, GoodTable, ImportStep, InImport, AllImportable, AllImported;
      if packId !in packs {
        m := Import(packId, "", map[], map[], check);
        return Err(NotFound), m;
      }
      var indexes := ReadImport(packId, check);
      m := indexes;
      ghost var before, start := endpoints, StartImport(endpoints, nextId);
      StartIsInImport(m, packs, before, nextId);
      ImportFoldKeeps(m, packs, before, start, routes);
      FoldImports(m, packs, before, start, routes);
      ProgressIsGood(m, packs, before, ImportFold(m, start, routes).0);
      assert routes[0..] == routes;
      var seen: set<string>, report := {}, ImportReport(0, 0, 0);
      for n := 0 to |routes|
        invariant InImport(m, packs, before, ProgressWith(endpoints, nextId, seen, report))
        invariant ImportFold(m, start, routes)
                  == ImportFold(m, ProgressWith(endpoints, nextId, seen, report), routes[n..])
      {
        ghost var p := ProgressWith(endpoints, nextId, seen, report);
        assert routes[n..][0] == routes[n] && routes[n..][1..] == routes[n + 1..];
        assert ImportStep(m, p, routes[n]).Ok? ==> InImport(m, packs, before, ImportStep(m, p, routes[n]).value) by {
          if ImportStep(m, p, routes[n]).Ok? { ImportStepKeeps(m, packs, before, p, routes[n]); }
        }
        var error;
        error, seen, report := ImportRoute(indexes, routes[n], seen, report, before);
        if error.Some? {
          return Err(error.value), m;
        }
      }
      r := Ok(report);
    }
  }
}
