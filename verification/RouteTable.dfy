/**
  The packs and endpoints of one integration: creating packs, moving a pack to
  another base path, importing routes and editing one route
  (apps/api/internal/core/usecase/integration_service.go over
  apps/api/internal/adapters/sqlite/store.go).
 */
module RouteTable {
  import opened Wrappers
  import opened Text
  import opened PathTemplates
  import opened PackPaths
  import opened Payloads

  type Id = nat

  datatype Pack = Pack(name: string, slug: string, basePath: string, status: string, authEnabled: bool,
                       authPolicy: string)

  datatype Endpoint = Endpoint(packId: Id, verb: string, path: string, authMode: string, authPolicy: string,
                               contract: string, scenarios: string)

  type Endpoints = map<Id, Endpoint>

  datatype Error = InvalidInput | NotFound | AlreadyExists | Semantic | Constraint

  /** normalizeMethod. */
  function NormalizeVerb(verb: string): string {
    ToUpper(TrimSpace(verb))
  }

  ghost predicate NormalVerb(verb: string) {
    verb != "" && NormalizeVerb(verb) == verb && Trimmed(verb)
  }

  /** routeKey. */
  function RouteKey(verb: string, path: string): string {
    NormalizeVerb(verb) + " " + TrimSpace(path)
  }

  function KeyOf(e: Endpoint): string {
    RouteKey(e.verb, e.path)
  }

  predicate SameRoute(e: Endpoint, verb: string, path: string) {
    e.verb == verb && e.path == path
  }

  // -------- the invariant --------

  /** UNIQUE(integration_id, method, path). */
  ghost predicate Unique(eps: Endpoints) {
    forall i, j :: i in eps && j in eps && SameRoute(eps[i], eps[j].verb, eps[j].path) ==> i == j
  }

  ghost predicate GoodEndpoint(e: Endpoint, packs: map<Id, Pack>) {
    && e.packId in packs
    && NormalVerb(e.verb)
    && NormalPath(e.path)
    && UnderBase(e.path, packs[e.packId].basePath)
  }

  ghost predicate GoodTable(packs: map<Id, Pack>, eps: Endpoints, nextId: Id) {
    && (forall p :: p in packs ==> p < nextId && NormalPath(packs[p].basePath))
    && (forall i :: i in eps ==> i < nextId && GoodEndpoint(eps[i], packs))
    && Unique(eps)
  }

  // -------- route keys --------

  lemma JoinedSpace(s: string, rest: string, k: nat)
    requires s != "" && Trimmed(s) && '/' !in s && (rest != "" ==> rest[0] != '/')
    requires forall i :: 0 <= i < |rest| - 1 && rest[i + 1] == '/' ==> !IsSpace(rest[i])
    requires k < |s + "/" + rest| - 1 && (s + "/" + rest)[k + 1] == '/'
    ensures !IsSpace((s + "/" + rest)[k])
  {
    hide IsSpace;
    var j := s + "/" + rest;
    assert forall i :: 0 <= i < |s| ==> j[i] in s;
    if k + 1 > |s| {
      assert j[k + 1] == rest[k - |s|];
      if k - |s| > 0 { assert j[k] == rest[k - |s| - 1]; }
    }
  }

  lemma {:induction false} NoSpaceBeforeSlash(segs: seq<string>)
    requires GoodSegments(segs)
    ensures Join(segs) != "" ==> Join(segs)[0] != '/'
    ensures forall k :: 0 <= k < |Join(segs)| - 1 && Join(segs)[k + 1] == '/' ==> !IsSpace(Join(segs)[k])
  {
    hide IsSpace;
    if segs != [] {
      assert GoodSegment(segs[0]) && forall x :: x in segs[1..] ==> x in segs;
      NoSpaceBeforeSlash(segs[1..]);
      if |segs| > 1 {
        forall k | 0 <= k < |Join(segs)| - 1 && Join(segs)[k + 1] == '/' ensures !IsSpace(Join(segs)[k]) {
          JoinedSpace(segs[0], Join(segs[1..]), k);
        }
      }
    }
  }

  lemma NormalPathShape(p: string)
    requires NormalPath(p)
    ensures p != "" && p[0] == '/' && Trimmed(p)
    ensures forall k :: 0 <= k < |p| - 1 && p[k + 1] == '/' ==> p[k] != ' '
  {
    SegmentsOfAreGood(p);
    var segs := SegmentsOf(p).value;
    NoSpaceBeforeSlash(segs);
    JoinChars(segs);
    assert p == "/" + Join(segs);
    forall k | 0 <= k < |p| - 1 && p[k + 1] == '/' ensures p[k] != ' ' {
      if k > 0 { assert Join(segs)[k - 1] == p[k] && Join(segs)[k] == p[k + 1]; }
    }
  }

  /** If a shorter verb gave the same key, the longer one would end in a space, or the first path hold " /". */
  lemma ShorterVerb(v: string, p: string, v': string, p': string)
    requires v + " " + p == v' + " " + p' && |v| < |v'| && p' != "" && p'[0] == '/'
    ensures var k := |v'| - |v| - 1;
            if k == 0 then v'[|v'| - 1] == ' ' else k + 1 < |p| && p[k] == ' ' && p[k + 1] == '/'
  {
    var a, b := v + " " + p, v' + " " + p';
    var k := |v'| - |v| - 1;
    assert a == b;
    assert b[|v'|] == ' ' && b[|v'| + 1] == '/' && b[|v'| - 1] == v'[|v'| - 1];
    if k == 0 {
      assert a[|v'| - 1] == ' ';
    } else {
      assert a[|v'|] == p[k] && a[|v'| + 1] == p[k + 1];
    }
  }

  /** Between normal routes the textual key identifies method and path. */
  lemma RouteKeyInjective(v: string, p: string, v': string, p': string)
    requires NormalVerb(v) && NormalVerb(v') && NormalPath(p) && NormalPath(p')
    ensures RouteKey(v, p) == RouteKey(v', p') <==> v == v' && p == p'
  {
    NormalPathShape(p);
    NormalPathShape(p');
    TrimmedIsFixed(p);
    TrimmedIsFixed(p');
    hide NormalPath, TrimSpace;
    if RouteKey(v, p) == RouteKey(v', p') {
      if |v| < |v'| {
        ShorterVerb(v, p, v', p');
        assert false;
      } else if |v'| < |v| {
        ShorterVerb(v', p', v, p);
        assert false;
      }
      var a, b := v + " " + p, v' + " " + p';
      assert v == a[..|v|] && v' == b[..|v|];
      assert p == a[|v| + 1..] && p' == b[|v| + 1..];
    }
  }

  ghost predicate DistinctKeys(eps: Endpoints) {
    forall i, j :: i in eps && j in eps && KeyOf(eps[i]) == KeyOf(eps[j]) ==> i == j
  }

  lemma GoodTableHasDistinctKeys(packs: map<Id, Pack>, eps: Endpoints, nextId: Id)
    requires GoodTable(packs, eps, nextId)
    ensures DistinctKeys(eps)
  {
    hide RouteKey, NormalVerb, NormalPath, UnderBase;
    forall i, j | i in eps && j in eps && KeyOf(eps[i]) == KeyOf(eps[j]) ensures i == j {
      assert GoodEndpoint(eps[i], packs) && GoodEndpoint(eps[j], packs);
      RouteKeyInjective(eps[i].verb, eps[i].path, eps[j].verb, eps[j].path);
      assert SameRoute(eps[i], eps[j].verb, eps[j].path);
    }
  }

  lemma NormalizedVerbIsNormal(verb: string)
    requires TrimSpace(NormalizeVerb(verb)) != ""
    ensures NormalVerb(NormalizeVerb(verb))
  {
    TrimSpaceFacts(verb);
    var t, u := TrimSpace(verb), ToUpper(TrimSpace(verb));
    assert Trimmed(u) by {
      if u != "" { assert u[0] == UpperChar(t[0]) && u[|u| - 1] == UpperChar(t[|t| - 1]); }
    }
    TrimmedIsFixed(u);
    ToUpperIdempotent(t);
  }

  // -------- editing one route --------

  /** The checks of the service's UpdateEndpointRoute, up to the search for a conflict. */
  function EditedRoute(e: Endpoint, base: string, verb: string, relativePath: string): Result<Endpoint, Error> {
    var normalVerb := NormalizeVerb(verb);
    if TrimSpace(normalVerb) == "" then Err(InvalidInput)
    else match NormalizePath(relativePath)
      case None => Err(InvalidInput)
      case Some(relative) =>
        if IncludesBase(relative, base) then Err(InvalidInput)
        else match Compose(base, relative)
          case None => Err(InvalidInput)
          case Some(path) => Ok(e.(verb := normalVerb, path := path))
  }

  /** An edit is accepted for a method and a path that does not repeat the base; it lands under the base. */
  lemma EditedRouteMeaning(packs: map<Id, Pack>, e: Endpoint, verb: string, relativePath: string)
    requires GoodEndpoint(e, packs) && NormalPath(packs[e.packId].basePath)
    ensures var base := packs[e.packId].basePath;
            var r := EditedRoute(e, base, verb, relativePath);
            && (r.Ok?
                <==> NormalizeVerb(verb) != "" && NormalizePath(relativePath).Some?
                     && !IncludesBase(relativePath, base))
            && (r.Ok? ==> GoodEndpoint(r.value, packs) && Compose(base, relativePath) == Some(r.value.path))
            && (r.Ok? ==> r.value == e.(verb := NormalizeVerb(verb), path := r.value.path))
  {
    var base := packs[e.packId].basePath;
    NormalVerbIffNotBlank(verb);
    if NormalizePath(relativePath).Some? {
      var relative := NormalizePath(relativePath).value;
      NormalizeIdempotent(relativePath);
      ComposeOnSegments(base, relative);
      ComposeOnSegments(base, relativePath);
      IncludesOnSegments(relative, base);
      IncludesOnSegments(relativePath, base);
      ComposeLandsUnderBase(base, relative);
    }
    hide NormalPath, UnderBase, Compose, NormalizePath, IncludesBase, NormalizeVerb, TrimSpace, SegmentsOf, ComposeSegs;
  }

  lemma NormalVerbIffNotBlank(verb: string)
    ensures TrimSpace(NormalizeVerb(verb)) == "" <==> NormalizeVerb(verb) == ""
    ensures NormalizeVerb(verb) != "" ==> NormalVerb(NormalizeVerb(verb))
  {
    if TrimSpace(NormalizeVerb(verb)) != "" { NormalizedVerbIsNormal(verb); }
    TrimSpaceFacts(verb);
    var t, u := TrimSpace(verb), NormalizeVerb(verb);
    if u != "" { assert u[0] == UpperChar(t[0]) && u[|u| - 1] == UpperChar(t[|t| - 1]); }
  }

  // -------- rebasing a pack --------

  function Rebased(e: Endpoint, oldBase: string, newBase: string): Endpoint {
    match Rebase(e.path, oldBase, newBase)
    case Some(path) => e.(verb := NormalizeVerb(e.verb), path := path)
    case None => e
  }

  function InPack(eps: Endpoints, packId: Id): set<Id> {
    set i | i in eps && eps[i].packId == packId
  }

  /** The table while the ids in `done` have their new path and the others still the old one. */
  function PartlyRebased(eps: Endpoints, done: set<Id>, oldBase: string, newBase: string): Endpoints {
    map i | i in eps :: if i in done then Rebased(eps[i], oldBase, newBase) else eps[i]
  }

  /** The new key of route i belongs to no other route now, and to no other route of the pack then. */
  ghost predicate NoClash(eps: Endpoints, packId: Id, oldBase: string, newBase: string, i: Id, j: Id)
    requires i in eps && j in eps
  {
    var key := KeyOf(Rebased(eps[i], oldBase, newBase));
    key != KeyOf(eps[j]) && (eps[j].packId == packId ==> key != KeyOf(Rebased(eps[j], oldBase, newBase)))
  }

  /** The conflict checks of UpdatePack. */
  ghost predicate RebaseAllowed(eps: Endpoints, packId: Id, oldBase: string, newBase: string) {
    forall i, j :: i in InPack(eps, packId) && j in eps && i != j ==> NoClash(eps, packId, oldBase, newBase, i, j)
  }

  lemma RebasedIsGood(packs: map<Id, Pack>, e: Endpoint, newBase: string)
    requires GoodEndpoint(e, packs) && NormalPath(packs[e.packId].basePath) && NormalPath(newBase)
    ensures var e' := Rebased(e, packs[e.packId].basePath, newBase);
            && e' == e.(path := e'.path) && Rebase(e.path, packs[e.packId].basePath, newBase) == Some(e'.path)
            && NormalPath(e'.path) && UnderBase(e'.path, newBase)
  {
    RebaseLandsUnderBase(e.path, packs[e.packId].basePath, newBase);
  }

  /** Owner of every route key of the listed endpoints. */
  ghost predicate Indexes(owner: map<string, Id>, eps: Endpoints, ids: set<Id>) {
    && (forall i :: i in ids ==> i in eps && KeyOf(eps[i]) in owner && owner[KeyOf(eps[i])] == i)
    && (forall k :: k in owner ==> owner[k] in ids && owner[k] in eps && KeyOf(eps[owner[k]]) == k)
  }

  lemma IndexGrows(owner: map<string, Id>, eps: Endpoints, ids: set<Id>, id: Id)
    requires DistinctKeys(eps) && Indexes(owner, eps, ids) && id in eps
    ensures Indexes(owner[KeyOf(eps[id]) := id], eps, ids + {id})
  {
    hide RouteKey;
  }

  ghost predicate Holds(owner: map<string, Id>, key: string, id: Id) {
    key in owner && owner[key] == id
  }

  /** Which route of the pack gets which key: the rebased routes so far. */
  ghost predicate RebaseIndexes(rebased: map<string, Id>, eps: Endpoints, ids: set<Id>, oldBase: string,
                                newBase: string) {
    && (forall i :: i in ids ==> i in eps && Holds(rebased, KeyOf(Rebased(eps[i], oldBase, newBase)), i))
    && (forall k :: k in rebased ==> rebased[k] in ids)
    && (forall k :: k in rebased && rebased[k] in eps ==> KeyOf(Rebased(eps[rebased[k]], oldBase, newBase)) == k)
  }

  /** The pairs with both routes of the pack among `ids`, or one of them and any stored route. */
  ghost predicate RebaseAllowedFor(eps: Endpoints, ids: set<Id>, packId: Id, oldBase: string, newBase: string) {
    && (forall i, j :: i in ids && j in eps && i in eps && i != j ==>
          KeyOf(Rebased(eps[i], oldBase, newBase)) != KeyOf(eps[j]))
    && (forall i, j :: i in ids && j in ids && i in eps && j in eps && i != j ==>
          KeyOf(Rebased(eps[i], oldBase, newBase)) != KeyOf(Rebased(eps[j], oldBase, newBase)))
  }

  lemma AllowedForAllIsAllowed(eps: Endpoints, packId: Id, oldBase: string, newBase: string)
    ensures RebaseAllowedFor(eps, InPack(eps, packId), packId, oldBase, newBase)
            <==> RebaseAllowed(eps, packId, oldBase, newBase)
  {
    hide RouteKey, Rebased;
    if RebaseAllowed(eps, packId, oldBase, newBase) {
      forall i, j | i in InPack(eps, packId) && j in eps && i != j
        ensures NoClash(eps, packId, oldBase, newBase, i, j)
      {
      }
    }
  }

  /**
    One turn of the checking loop of UpdatePack: the new route clashes with none so far, or the
    rebase is not allowed.
   */
  lemma CheckTurn(owner: map<string, Id>, rebased: map<string, Id>, eps: Endpoints, done: set<Id>, id: Id,
                  packId: Id, oldBase: string, newBase: string)
    requires Indexes(owner, eps, eps.Keys) && done < InPack(eps, packId) && id in InPack(eps, packId) - done
    requires RebaseIndexes(rebased, eps, done, oldBase, newBase)
    requires RebaseAllowedFor(eps, done, packId, oldBase, newBase)
    ensures var key := KeyOf(Rebased(eps[id], oldBase, newBase));
            if (key in owner && owner[key] != id) || (key in rebased && rebased[key] != id) then
              !RebaseAllowed(eps, packId, oldBase, newBase)
            else
              && RebaseIndexes(rebased[key := id], eps, done + {id}, oldBase, newBase)
              && RebaseAllowedFor(eps, done + {id}, packId, oldBase, newBase)
  {
    hide KeyOf, Rebased;
    var key := KeyOf(Rebased(eps[id], oldBase, newBase));
    if key in owner && owner[key] != id {
      assert !NoClash(eps, packId, oldBase, newBase, id, owner[key]);
    } else if key in rebased && rebased[key] != id {
      assert !NoClash(eps, packId, oldBase, newBase, id, rebased[key]);
    } else {
      hide RebaseAllowed, NoClash;
      FreeTurn(owner, rebased, eps, done, id, packId, oldBase, newBase);
    }
  }

  lemma FreeTurn(owner: map<string, Id>, rebased: map<string, Id>, eps: Endpoints, done: set<Id>, id: Id,
                 packId: Id, oldBase: string, newBase: string)
    requires Indexes(owner, eps, eps.Keys) && id in eps && done <= eps.Keys
    requires RebaseIndexes(rebased, eps, done, oldBase, newBase)
    requires RebaseAllowedFor(eps, done, packId, oldBase, newBase)
    requires var key := KeyOf(Rebased(eps[id], oldBase, newBase));
             (key in owner ==> owner[key] == id) && (key in rebased ==> rebased[key] == id)
    ensures var key := KeyOf(Rebased(eps[id], oldBase, newBase));
            && RebaseIndexes(rebased[key := id], eps, done + {id}, oldBase, newBase)
            && RebaseAllowedFor(eps, done + {id}, packId, oldBase, newBase)
  {
    hide KeyOf, Rebased;
  }

  /**
    When the checks pass, the endpoints may be updated one by one in any order:
    whichever of them are done, method and path are unique.
   */
  lemma EveryPartialRebaseIsUnique(eps: Endpoints, packId: Id, oldBase: string, newBase: string, done: set<Id>)
    requires Unique(eps)
    requires RebaseAllowed(eps, packId, oldBase, newBase)
    requires done <= InPack(eps, packId)
    ensures Unique(PartlyRebased(eps, done, oldBase, newBase))
  {
    hide Rebased, RouteKey;
    var t := PartlyRebased(eps, done, oldBase, newBase);
    forall i, j | i in t && j in t && i != j ensures !SameRoute(t[i], t[j].verb, t[j].path) {
      if i in done { assert NoClash(eps, packId, oldBase, newBase, i, j); }
      if j in done { assert NoClash(eps, packId, oldBase, newBase, j, i); }
    }
  }

  ghost predicate SafeInEveryOrder(eps: Endpoints, packId: Id, oldBase: string, newBase: string) {
    forall done :: done <= InPack(eps, packId) ==> Unique(PartlyRebased(eps, done, oldBase, newBase))
  }

  /** The keys of a route as it will be and of a route as it is, or will be, agree only for the same method and path. */
  lemma ClashIsSameRoute(packs: map<Id, Pack>, eps: Endpoints, nextId: Id, packId: Id, newBase: string, i: Id, j: Id)
    requires GoodTable(packs, eps, nextId) && packId in packs && NormalPath(newBase) && i in InPack(eps, packId)
    requires j in eps
    ensures var oldBase := packs[packId].basePath;
            var e := Rebased(eps[i], oldBase, newBase);
            && (KeyOf(e) == KeyOf(eps[j]) <==> SameRoute(e, eps[j].verb, eps[j].path))
            && (j in InPack(eps, packId) ==>
                  var e' := Rebased(eps[j], oldBase, newBase);
                  (KeyOf(e) == KeyOf(e') <==> SameRoute(e, e'.verb, e'.path)))
  {
    hide Rebased, Rebase, RouteKey, NormalPath, NormalVerb, UnderBase;
    assert GoodEndpoint(eps[i], packs) && GoodEndpoint(eps[j], packs);
    RebasedIsGood(packs, eps[i], newBase);
    var e := Rebased(eps[i], packs[packId].basePath, newBase);
    RouteKeyInjective(e.verb, e.path, eps[j].verb, eps[j].path);
    if j in InPack(eps, packId) {
      RebasedIsGood(packs, eps[j], newBase);
      var e' := Rebased(eps[j], packs[packId].basePath, newBase);
      RouteKeyInjective(e.verb, e.path, e'.verb, e'.path);
    }
  }

  /**
    The checks of UpdatePack are exact: they pass if and only if the rows can
    be updated in every order. Comparing with the old keys is part of that.
   */
  lemma RebaseAllowedIffSafe(packs: map<Id, Pack>, eps: Endpoints, nextId: Id, packId: Id, newBase: string)
    requires GoodTable(packs, eps, nextId) && packId in packs && NormalPath(newBase)
    ensures RebaseAllowed(eps, packId, packs[packId].basePath, newBase)
       <==> SafeInEveryOrder(eps, packId, packs[packId].basePath, newBase)
  {
    hide Rebased, RouteKey, NormalPath, NormalVerb, UnderBase;
    var oldBase := packs[packId].basePath;
    if RebaseAllowed(eps, packId, oldBase, newBase) {
      forall done | done <= InPack(eps, packId) ensures Unique(PartlyRebased(eps, done, oldBase, newBase)) {
        EveryPartialRebaseIsUnique(eps, packId, oldBase, newBase, done);
      }
    }
    if SafeInEveryOrder(eps, packId, oldBase, newBase) {
      forall i, j | i in InPack(eps, packId) && j in eps && i != j
        ensures NoClash(eps, packId, oldBase, newBase, i, j)
      {
        SafeOrderHasNoClash(packs, eps, nextId, packId, newBase, i, j);
      }
    }
  }

  lemma UniquePair(eps: Endpoints, i: Id, j: Id)
    requires Unique(eps) && i in eps && j in eps && i != j
    ensures !SameRoute(eps[i], eps[j].verb, eps[j].path)
  {
  }

  lemma SafeOrderHasNoClash(packs: map<Id, Pack>, eps: Endpoints, nextId: Id, packId: Id, newBase: string, i: Id, j: Id)
    requires GoodTable(packs, eps, nextId) && packId in packs && NormalPath(newBase)
    requires SafeInEveryOrder(eps, packId, packs[packId].basePath, newBase)
    requires i in InPack(eps, packId) && j in eps && i != j
    ensures NoClash(eps, packId, packs[packId].basePath, newBase, i, j)
  {
    hide Rebased, RouteKey, GoodTable, NormalPath, KeyOf, Unique;
    ClashIsSameRoute(packs, eps, nextId, packId, newBase, i, j);
    var oldBase := packs[packId].basePath;
    UniquePair(PartlyRebased(eps, {i}, oldBase, newBase), i, j);
    if j in InPack(eps, packId) {
      assert {i, j} <= InPack(eps, packId);
      UniquePair(PartlyRebased(eps, {i, j}, oldBase, newBase), i, j);
    }
  }

  /** One row updated: the next partial table, and nobody else holds the new route. */
  lemma RebaseTurn(packs: map<Id, Pack>, eps: Endpoints, nextId: Id, packId: Id, newBase: string, done: set<Id>, id: Id)
    requires GoodTable(packs, eps, nextId) && packId in packs && NormalPath(newBase)
    requires RebaseAllowed(eps, packId, packs[packId].basePath, newBase)
    requires done < InPack(eps, packId) && id in InPack(eps, packId) - done
    ensures var oldBase := packs[packId].basePath;
            var t := PartlyRebased(eps, done, oldBase, newBase);
            var e := Rebased(eps[id], oldBase, newBase);
            && t[id] == eps[id] && e == eps[id].(verb := e.verb, path := e.path)
            && (forall i :: i in t && i != id ==> !SameRoute(t[i], e.verb, e.path))
            && PartlyRebased(eps, done + {id}, oldBase, newBase) == t[id := t[id].(verb := e.verb, path := e.path)]
  {
    hide Rebased, Rebase, RouteKey, NormalPath, NormalVerb, UnderBase, RebaseAllowed;
    var oldBase := packs[packId].basePath;
    assert GoodEndpoint(eps[id], packs);
    RebasedIsGood(packs, eps[id], newBase);
    EveryPartialRebaseIsUnique(eps, packId, oldBase, newBase, done + {id});
    hide GoodTable, GoodEndpoint;
    var t, t' := PartlyRebased(eps, done, oldBase, newBase), PartlyRebased(eps, done + {id}, oldBase, newBase);
    assert t' == t[id := t'[id]];
    forall i | i in t && i != id ensures !SameRoute(t[i], t'[id].verb, t'[id].path) {
      assert t'[i] == t[i];
    }
  }

  /** The table after a whole rebase is good again, with the new base path. */
  lemma RebasedTableIsGood(packs: map<Id, Pack>, eps: Endpoints, nextId: Id, packId: Id, pack: Pack)
    requires GoodTable(packs, eps, nextId) && packId in packs && NormalPath(pack.basePath)
    requires RebaseAllowed(eps, packId, packs[packId].basePath, pack.basePath)
    ensures GoodTable(packs[packId := pack],
                      PartlyRebased(eps, InPack(eps, packId), packs[packId].basePath, pack.basePath), nextId)
  {
    hide Rebased, Rebase, RouteKey, NormalPath, NormalVerb, UnderBase, RebaseAllowed;
    var oldBase, newBase := packs[packId].basePath, pack.basePath;
    var ids := InPack(eps, packId);
    var t := PartlyRebased(eps, ids, oldBase, newBase);
    EveryPartialRebaseIsUnique(eps, packId, oldBase, newBase, ids);
    hide Unique;
    forall i | i in t ensures GoodEndpoint(t[i], packs[packId := pack]) {
      assert GoodEndpoint(eps[i], packs);
      if i in ids { RebasedIsGood(packs, eps[i], newBase); }
    }
  }

  // -------- importing routes --------

  datatype Route = Route(verb: string, path: string, contract: string)

  /** Contract and scenario validation, taken as given functions. */
  datatype Validation = Validation(contract: string -> Option<string>, scenarios: string -> Option<string>,
                                   defaultContract: string, defaultScenarios: (string, string) -> string)

  datatype Known = Known(id: Id, endpoint: Endpoint)

  /** What an import reads once, before its loop: the pack, its endpoints by route key, and the pack of every key. */
  datatype Import = Import(packId: Id, basePath: string, existing: map<string, Known>, owners: map<string, Id>,
                           check: Validation)

  datatype Progress = Progress(eps: Endpoints, nextId: Id, seen: set<string>, created: nat, updated: nat, skipped: nat)

  function ContractFor(r: Route, check: Validation): Option<string> {
    check.contract(if r.contract == "" then check.defaultContract else r.contract)
  }

  function ScenariosFor(raw: string, verb: string, path: string, check: Validation): Option<string> {
    match check.scenarios(raw)
    case Some(s) => Some(s)
    case None => check.scenarios(check.defaultScenarios(verb, path))
  }

  /** The endpoint an import writes over a known one. */
  function Overwritten(e: Endpoint, packId: Id, verb: string, path: string, contract: string,
                       scenarios: string): Endpoint {
    Endpoint(packId, verb, path,
             if e.authMode == "" then "INHERIT" else e.authMode,
             if TrimSpace(e.authPolicy) == "" then "{}" else e.authPolicy,
             contract, scenarios)
  }

  /** What an import writes over this endpoint for the given route. */
  function Rewrite(e: Endpoint, packId: Id, r: Route, path: string, check: Validation): Option<Endpoint> {
    match (ContractFor(r, check), ScenariosFor(e.scenarios, r.verb, path, check))
    case (Some(contract), Some(scenarios)) => Some(Overwritten(e, packId, r.verb, path, contract, scenarios))
    case _ => None
  }

  /** The endpoint to write for a route with the given composed path: its id when known, and its content. */
  function Prepare(m: Import, r: Route, path: string): Result<(Option<Id>, Endpoint), Error> {
    var key := RouteKey(r.verb, path);
    if key in m.owners && m.owners[key] != m.packId then Err(Semantic)
    else
      var added := Endpoint(m.packId, r.verb, path, "INHERIT", "{}", "", m.check.defaultScenarios(r.verb, path));
      var current := if key in m.existing then m.existing[key].endpoint else added;
      match Rewrite(current, m.packId, r, path, m.check)
      case Some(e) => Ok((if key in m.existing then Some(m.existing[key].id) else None, e))
      case None => Err(Semantic)
  }

  /** The upsert of one endpoint, with its bookkeeping. */
  function Record(p: Progress, key: string, known: Option<Id>, e: Endpoint): Progress {
    match known
    case Some(id) => p.(eps := p.eps[id := e], seen := p.seen + {key}, updated := p.updated + 1)
    case None =>
      p.(eps := p.eps[p.nextId := e], nextId := p.nextId + 1, seen := p.seen + {key}, created := p.created + 1)
  }

  /** One turn of the import loop. */
  function ImportStep(m: Import, p: Progress, r: Route): Result<Progress, Error> {
    match Compose(m.basePath, r.path)
    case None => Err(InvalidInput)
    case Some(path) =>
      var key := RouteKey(r.verb, path);
      if key in p.seen then Ok(p.(skipped := p.skipped + 1))
      else match Prepare(m, r, path)
        case Err(e) => Err(e)
        case Ok((known, e)) => Ok(Record(p, key, known, e))
  }

  /** The loop: how far it got, and the error that stopped it. Routes written before an error stay. */
  function ImportFold(m: Import, p: Progress, routes: seq<Route>): (Progress, Option<Error>)
    decreases |routes|
  {
    if routes == [] then (p, None)
    else match ImportStep(m, p, routes[0])
      case Err(e) => (p, Some(e))
      case Ok(p') => ImportFold(m, p', routes[1..])
  }

  function Identity(e: Endpoint): (Id, string, string) {
    (e.packId, e.verb, e.path)
  }

  /** The indexes of an import describe the table it starts from. */
  ghost predicate Indexed(m: Import, before: Endpoints) {
    && (forall i :: i in before && before[i].packId == m.packId ==> KeyOf(before[i]) in m.existing)
    && (forall k :: k in m.existing ==>
          var known := m.existing[k];
          known.id in before && before[known.id] == known.endpoint && known.endpoint.packId == m.packId
          && KeyOf(known.endpoint) == k)
    && (forall i :: i in before ==> KeyOf(before[i]) in m.owners && m.owners[KeyOf(before[i])] == before[i].packId)
    && (forall k :: k in m.owners ==> exists i :: HasKey(before, i, k))
  }

  ghost predicate HasKey(eps: Endpoints, i: Id, key: string) {
    i in eps && KeyOf(eps[i]) == key
  }

  /** The endpoints of the pack among `ids` by their keys. */
  ghost predicate PackIndexed(existing: map<string, Known>, eps: Endpoints, packId: Id, ids: set<Id>) {
    && (forall i :: i in ids ==> i in eps && KeyOf(eps[i]) in existing)
    && (forall k :: k in existing ==> existing[k].id in ids)
    && (forall k :: k in existing && existing[k].id in eps ==> KeysTo(existing[k], eps, k))
  }

  ghost predicate KeysTo(known: Known, eps: Endpoints, key: string)
    requires known.id in eps
  {
    known.endpoint == eps[known.id] && KeyOf(known.endpoint) == key
  }

  /** The pack of every endpoint among `ids` by its key. */
  ghost predicate OwnersIndexed(owners: map<string, Id>, eps: Endpoints, ids: set<Id>) {
    && (forall i :: i in ids ==> i in eps && Holds(owners, KeyOf(eps[i]), eps[i].packId))
    && (forall k :: k in owners ==> exists i :: HasKey(eps, i, k))
  }

  lemma PackIndexGrows(existing: map<string, Known>, eps: Endpoints, packId: Id, ids: set<Id>, id: Id)
    requires PackIndexed(existing, eps, packId, ids) && id in eps
    ensures PackIndexed(existing[KeyOf(eps[id]) := Known(id, eps[id])], eps, packId, ids + {id})
  {
    hide RouteKey, KeyOf;
  }

  lemma OwnersGrow(owners: map<string, Id>, eps: Endpoints, ids: set<Id>, id: Id)
    requires OwnersIndexed(owners, eps, ids) && id in eps && DistinctKeys(eps)
    ensures OwnersIndexed(owners[KeyOf(eps[id]) := eps[id].packId], eps, ids + {id})
  {
    hide RouteKey, KeyOf;
    assert HasKey(eps, id, KeyOf(eps[id]));
  }

  lemma FullIndexes(m: Import, eps: Endpoints)
    requires PackIndexed(m.existing, eps, m.packId, InPack(eps, m.packId)) && OwnersIndexed(m.owners, eps, eps.Keys)
    ensures Indexed(m, eps)
  {
    hide RouteKey, KeyOf;
  }

  /** What holds before every turn of the loop: endpoints with a key not seen yet are as they were. */
  ghost predicate InImport(m: Import, packs: map<Id, Pack>, before: Endpoints, p: Progress) {
    && m.packId in packs && m.basePath == packs[m.packId].basePath
    && Indexed(m, before)
    && GoodTable(packs, p.eps, p.nextId)
    && Frame(before, p.eps, p.seen)
  }

  /**
    For a route not seen yet: an endpoint with its method and path exists exactly when it is
    indexed, under that id.
   */
  lemma UnseenRoute(m: Import, packs: map<Id, Pack>, before: Endpoints, p: Progress, verb: string, path: string)
    requires InImport(m, packs, before, p) && NormalVerb(verb) && NormalPath(path)
    requires var key := RouteKey(verb, path); key !in p.seen && (key in m.owners ==> m.owners[key] == m.packId)
    ensures var key := RouteKey(verb, path);
            && (key in m.existing ==> m.existing[key].id in p.eps && SameRoute(p.eps[m.existing[key].id], verb, path))
            && (forall i :: i in p.eps && SameRoute(p.eps[i], verb, path) ==>
                  key in m.existing && m.existing[key].id == i)
  {
    hide NormalPath, NormalVerb, UnderBase, RouteKey;
    var key := RouteKey(verb, path);
    if key in m.existing {
      var i := m.existing[key].id;
      assert Identity(p.eps[i]) == Identity(before[i]);
      RouteKeyInjective(before[i].verb, before[i].path, verb, path);
    }
    forall i | i in p.eps && SameRoute(p.eps[i], verb, path) ensures key in m.existing && m.existing[key].id == i {
      assert KeyOf(p.eps[i]) == key;
      assert before[i] == p.eps[i];
      assert before[i].packId == m.packId;
    }
  }

  /** Writing one endpoint keeps the table good when its route is nobody else's. */
  lemma WriteKeepsGood(packs: map<Id, Pack>, eps: Endpoints, nextId: Id, id: Id, e: Endpoint)
    requires GoodTable(packs, eps, nextId) && id <= nextId && GoodEndpoint(e, packs)
    requires forall i :: i in eps && SameRoute(eps[i], e.verb, e.path) ==> i == id
    ensures GoodTable(packs, eps[id := e], if id == nextId then nextId + 1 else nextId)
  {
    hide NormalPath, NormalVerb, UnderBase;
  }

  lemma RecordCounts(p: Progress, key: string, known: Option<Id>, e: Endpoint)
    requires if known.Some? then known.value in p.eps else p.nextId !in p.eps
    ensures var p' := Record(p, key, known, e);
            && p'.created + p'.updated + p'.skipped == p.created + p.updated + p.skipped + 1
            && |p'.eps| - p'.created == |p.eps| - p.created
  {
    var p' := Record(p, key, known, e);
    assert |p'.eps| == |p'.eps.Keys| && |p.eps| == |p.eps.Keys|;
    if known.Some? {
      assert p'.eps.Keys == p.eps.Keys;
    } else {
      assert p'.eps.Keys == p.eps.Keys + {p.nextId};
    }
  }

  /** The part of InImport that compares with the table at the start. */
  ghost predicate Frame(before: Endpoints, eps: Endpoints, seen: set<string>) {
    && (forall i :: i in before ==> i in eps && Identity(eps[i]) == Identity(before[i]))
    && (forall i :: i in eps && KeyOf(eps[i]) !in seen ==> i in before && eps[i] == before[i])
  }

  lemma WriteKeepsFrame(before: Endpoints, eps: Endpoints, seen: set<string>, id: Id, e: Endpoint)
    requires Frame(before, eps, seen)
    requires id in before ==> id in eps && Identity(eps[id]) == Identity(e)
    ensures Frame(before, eps[id := e], seen + {KeyOf(e)})
  {
    hide RouteKey;
  }

  lemma RecordKeeps(m: Import, packs: map<Id, Pack>, before: Endpoints, p: Progress, known: Option<Id>, e: Endpoint)
    requires InImport(m, packs, before, p) && GoodEndpoint(e, packs)
    requires known.Some? ==> known.value in p.eps && Identity(p.eps[known.value]) == Identity(e)
    requires forall i :: i in p.eps && SameRoute(p.eps[i], e.verb, e.path) ==> known == Some(i)
    ensures InImport(m, packs, before, Record(p, KeyOf(e), known, e))
    ensures known.None? ==> p.nextId !in p.eps
  {
    hide GoodEndpoint, Indexed, RouteKey, Unique;
    assert p.nextId !in p.eps;
    var id := if known.Some? then known.value else p.nextId;
    assert id in before ==> id in p.eps && Identity(p.eps[id]) == Identity(e);
    hide Frame;
    WriteKeepsFrame(before, p.eps, p.seen, id, e);
    WriteKeepsGood(packs, p.eps, p.nextId, id, e);
  }

  /** What Prepare hands to the upsert meets the conditions of RecordKeeps. */
  lemma PreparedIsRecordable(m: Import, packs: map<Id, Pack>, before: Endpoints, p: Progress, r: Route, path: string)
    requires InImport(m, packs, before, p) && NormalVerb(r.verb)
    requires Compose(m.basePath, r.path) == Some(path) && RouteKey(r.verb, path) !in p.seen
    requires Prepare(m, r, path).Ok?
    ensures var (known, e) := Prepare(m, r, path).value;
            && GoodEndpoint(e, packs) && e.packId == m.packId && e.verb == r.verb && e.path == path
            && (known.Some? ==> known.value in p.eps && Identity(p.eps[known.value]) == Identity(e))
            && (forall i :: i in p.eps && SameRoute(p.eps[i], e.verb, e.path) ==> known == Some(i))
  {
    hide Compose, NormalPath, NormalVerb, UnderBase, RouteKey, NormalizeVerb, TrimSpace, Prepare, Unique;
    ComposeLandsUnderBase(m.basePath, r.path);
    PreparedShape(m, r, path);
    UnseenRoute(m, packs, before, p, r.verb, path);
    var (known, e) := Prepare(m, r, path).value;
    if known.Some? { assert Identity(before[known.value]) == Identity(p.eps[known.value]); }
  }

  lemma PreparedShape(m: Import, r: Route, path: string)
    requires Prepare(m, r, path).Ok?
    ensures var key := RouteKey(r.verb, path);
            var (known, e) := Prepare(m, r, path).value;
            && (key in m.owners ==> m.owners[key] == m.packId)
            && e.packId == m.packId && e.verb == r.verb && e.path == path
            && known == if key in m.existing then Some(m.existing[key].id) else None
  {
    hide RouteKey, TrimSpace, ContractFor, ScenariosFor;
  }

  lemma ImportStepKeeps(m: Import, packs: map<Id, Pack>, before: Endpoints, p: Progress, r: Route)
    requires InImport(m, packs, before, p) && NormalVerb(r.verb)
    requires ImportStep(m, p, r).Ok?
    ensures var p' := ImportStep(m, p, r).value;
            && InImport(m, packs, before, p')
            && p'.created + p'.updated + p'.skipped == p.created + p.updated + p.skipped + 1
            && |p'.eps| - p'.created == |p.eps| - p.created
  {
    hide Compose, RouteKey, Prepare, GoodEndpoint, Record, NormalVerb;
    var path := Compose(m.basePath, r.path).value;
    if RouteKey(r.verb, path) !in p.seen {
      PreparedIsRecordable(m, packs, before, p, r, path);
      var (known, e) := Prepare(m, r, path).value;
      RecordKeeps(m, packs, before, p, known, e);
      RecordCounts(p, RouteKey(r.verb, path), known, e);
    }
  }

  /** Every route adds to exactly one of the three counters, and the table grows by the created ones. */
  lemma {:induction false} ImportFoldKeeps(m: Import, packs: map<Id, Pack>, before: Endpoints, p: Progress,
                                           routes: seq<Route>)
    requires InImport(m, packs, before, p) && forall r :: r in routes ==> NormalVerb(r.verb)
    ensures var (p', error) := ImportFold(m, p, routes);
            && InImport(m, packs, before, p')
            && (error.None? ==> p'.created + p'.updated + p'.skipped == p.created + p.updated + p.skipped + |routes|)
            && |p'.eps| - p'.created == |p.eps| - p.created
    decreases |routes|
  {
    hide ImportStep, InImport, NormalVerb;
    if routes != [] {
      assert routes[0] in routes && forall r :: r in routes[1..] ==> r in routes;
      if ImportStep(m, p, routes[0]).Ok? {
        ImportStepKeeps(m, packs, before, p, routes[0]);
        ImportFoldKeeps(m, packs, before, ImportStep(m, p, routes[0]).value, routes[1..]);
      }
    }
  }

  // -------- importing the same routes again --------

  /** The endpoint is in its pack and importing the route over it would leave it as it is. */
  ghost predicate SettledAt(eps: Endpoints, i: Id, packId: Id, r: Route, path: string, check: Validation) {
    i in eps && eps[i].packId == packId && SameRoute(eps[i], r.verb, path)
    && Rewrite(eps[i], packId, r, path, check) == Some(eps[i])
  }

  ghost predicate Settled(m: Import, eps: Endpoints, r: Route) {
    match Compose(m.basePath, r.path)
    case None => false
    case Some(path) => exists i :: SettledAt(eps, i, m.packId, r, path, m.check)
  }

  /** Settled for the first route of every key not in `seen`. */
  ghost predicate AllSettled(m: Import, eps: Endpoints, routes: seq<Route>, seen: set<string>)
    decreases |routes|
  {
    routes != [] ==>
      && Compose(m.basePath, routes[0].path).Some?
      && var key := RouteKey(routes[0].verb, Compose(m.basePath, routes[0].path).value);
         && (key !in seen ==> Settled(m, eps, routes[0]))
         && AllSettled(m, eps, routes[1..], seen + {key})
  }

  /** The number of different keys not in `seen`. */
  ghost function NewKeys(base: string, routes: seq<Route>, seen: set<string>): nat
    decreases |routes|
  {
    if routes == [] then 0
    else match Compose(base, routes[0].path)
      case None => 0
      case Some(path) =>
        var key := RouteKey(routes[0].verb, path);
        (if key in seen then 0 else 1) + NewKeys(base, routes[1..], seen + {key})
  }

  /** Validating what validation returned changes nothing: both validators return a canonical form. */
  ghost predicate CanonicalScenarios(check: Validation) {
    forall x :: check.scenarios(x).Some? ==> check.scenarios(check.scenarios(x).value) == check.scenarios(x)
  }

  /** The JSON library: texts it cannot decode, and how it prints a value. */
  datatype JsonCodec = JsonCodec(decode: string -> Option<Json>, encode: Json -> string)

  /** What it has decoded and printed it decodes to the same value. */
  ghost predicate ReadsBack(json: JsonCodec) {
    forall text :: json.decode(text).Some? ==>
                     json.decode(TrimSpace(json.encode(json.decode(text).value))) == json.decode(text)
  }

  /** ValidateScenariosJSONWithOptions: trim, decode, check the value, print it again. */
  function ValidateScenarios(text: string, json: JsonCodec, accepts: Json -> bool): Option<string> {
    var payload := TrimSpace(text);
    if payload == "" then None
    else match json.decode(payload)
      case None => None
      case Some(parsed) => if parsed.Arr? && accepts(parsed) then Some(json.encode(parsed)) else None
  }

  /** Accepted is exactly an array that passes the checks, in any layout; what is returned reads as the same value. */
  lemma ValidationKeepsValue(text: string, json: JsonCodec, accepts: Json -> bool)
    requires ReadsBack(json) && json.decode("") == None
    ensures var r, value := ValidateScenarios(text, json, accepts), json.decode(TrimSpace(text));
            && (r.Some? <==> value.Some? && value.value.Arr? && accepts(value.value))
            && (r.Some? ==> json.decode(TrimSpace(r.value)) == value)
  {
  }

  /** So validating what a validation returned returns it again, whatever is checked in between. */
  lemma ValidatedScenariosAreCanonical(check: Validation, json: JsonCodec, accepts: Json -> bool)
    requires ReadsBack(json) && json.decode("") == None
    requires forall text :: check.scenarios(text) == ValidateScenarios(text, json, accepts)
    ensures CanonicalScenarios(check)
  {
    hide TrimSpace;
    forall x | check.scenarios(x).Some? ensures check.scenarios(check.scenarios(x).value) == check.scenarios(x) {
      assert check.scenarios(x) == ValidateScenarios(x, json, accepts);
      var text := json.encode(json.decode(TrimSpace(x)).value);
      assert check.scenarios(text) == ValidateScenarios(text, json, accepts);
    }
  }

  /** Validating the stored scenarios once more would leave them as they are. */
  predicate Stable(e: Endpoint, check: Validation) {
    ScenariosFor(e.scenarios, e.verb, e.path, check) == Some(e.scenarios)
  }

  ghost predicate Validated(text: string, check: Validation) {
    exists x :: check.scenarios(x) == Some(text)
  }

  /** The endpoint is what an import of the route leaves. */
  ghost predicate WrittenAt(eps: Endpoints, i: Id, packId: Id, r: Route, path: string, check: Validation) {
    && i in eps && eps[i].packId == packId && SameRoute(eps[i], r.verb, path)
    && ContractFor(r, check) == Some(eps[i].contract) && Validated(eps[i].scenarios, check)
    && eps[i].authMode != "" && TrimSpace(eps[i].authPolicy) != ""
  }

  lemma SettledIffStable(eps: Endpoints, i: Id, packId: Id, r: Route, path: string, check: Validation)
    requires WrittenAt(eps, i, packId, r, path, check)
    ensures SettledAt(eps, i, packId, r, path, check) <==> Stable(eps[i], check)
  {
    hide TrimSpace, ContractFor, ScenariosFor, Validated;
  }

  lemma CanonicalIsStable(eps: Endpoints, i: Id, packId: Id, r: Route, path: string, check: Validation)
    requires WrittenAt(eps, i, packId, r, path, check) && CanonicalScenarios(check)
    ensures Stable(eps[i], check)
  {
    hide TrimSpace, ContractFor;
    var x :| check.scenarios(x) == Some(eps[i].scenarios);
  }

  lemma PreparedIsWritten(m: Import, r: Route, path: string, eps: Endpoints, i: Id)
    requires Prepare(m, r, path).Ok? && i in eps && eps[i] == Prepare(m, r, path).value.1
    ensures WrittenAt(eps, i, m.packId, r, path, m.check)
  {
    assert TrimSpace("{}") == "{}" by { TrimmedIsFixed("{}"); }
    hide TrimSpace, RouteKey;
  }

  /** An endpoint whose key has been seen outlives the other turns. */
  lemma {:induction false} FoldKeepsSeen(m: Import, packs: map<Id, Pack>, before: Endpoints, p: Progress,
                                         routes: seq<Route>, i: Id)
    requires InImport(m, packs, before, p) && forall x :: x in routes ==> NormalVerb(x.verb)
    requires i in p.eps && KeyOf(p.eps[i]) in p.seen
    ensures var eps := ImportFold(m, p, routes).0.eps; i in eps && eps[i] == p.eps[i]
    decreases |routes|
  {
    hide Compose, RouteKey, Prepare, NormalVerb, InImport;
    if routes != [] {
      assert routes[0] in routes && forall x :: x in routes[1..] ==> x in routes;
      if ImportStep(m, p, routes[0]).Ok? {
        ImportStepKeeps(m, packs, before, p, routes[0]);
        var path := Compose(m.basePath, routes[0].path).value;
        if RouteKey(routes[0].verb, path) !in p.seen {
          PreparedIsRecordable(m, packs, before, p, routes[0], path);
          NextIdIsFree(m, packs, before, p);
        }
        FoldKeepsSeen(m, packs, before, ImportStep(m, p, routes[0]).value, routes[1..], i);
      }
    }
  }

  lemma NextIdIsFree(m: Import, packs: map<Id, Pack>, before: Endpoints, p: Progress)
    requires InImport(m, packs, before, p)
    ensures p.nextId !in p.eps
  {
    hide GoodEndpoint, Indexed, Frame, Unique;
  }

  ghost predicate WrittenRoute(m: Import, eps: Endpoints, r: Route) {
    match Compose(m.basePath, r.path)
    case None => false
    case Some(path) => exists i :: WrittenAt(eps, i, m.packId, r, path, m.check)
  }

  /** Written for the first route of every key not in `seen`. */
  ghost predicate AllWritten(m: Import, eps: Endpoints, routes: seq<Route>, seen: set<string>)
    decreases |routes|
  {
    routes != [] ==>
      && Compose(m.basePath, routes[0].path).Some?
      && var key := RouteKey(routes[0].verb, Compose(m.basePath, routes[0].path).value);
         && (key !in seen ==> WrittenRoute(m, eps, routes[0]))
         && AllWritten(m, eps, routes[1..], seen + {key})
  }

  /** A successful import leaves every route written, and counts each key once. */
  lemma {:induction false} FoldWrites(m: Import, packs: map<Id, Pack>, before: Endpoints, p: Progress,
                                      routes: seq<Route>)
    requires InImport(m, packs, before, p) && forall x :: x in routes ==> NormalVerb(x.verb)
    requires ImportFold(m, p, routes).1.None?
    ensures var p' := ImportFold(m, p, routes).0;
            && AllWritten(m, p'.eps, routes, p.seen)
            && p'.created + p'.updated == p.created + p.updated + NewKeys(m.basePath, routes, p.seen)
    decreases |routes|
  {
    hide Compose, RouteKey, Prepare, NormalVerb, InImport;
    if routes != [] {
      var r := routes[0];
      assert r in routes && forall x :: x in routes[1..] ==> x in routes;
      ImportStepKeeps(m, packs, before, p, r);
      var next := ImportStep(m, p, r).value;
      var path := Compose(m.basePath, r.path).value;
      var key := RouteKey(r.verb, path);
      FoldWrites(m, packs, before, next, routes[1..]);
      assert next.seen == p.seen + {key};
      if key !in p.seen {
        PreparedIsRecordable(m, packs, before, p, r, path);
        var (known, e) := Prepare(m, r, path).value;
        var i := if known.Some? then known.value else p.nextId;
        FoldKeepsSeen(m, packs, before, next, routes[1..], i);
        PreparedIsWritten(m, r, path, ImportFold(m, p, routes).0.eps, i);
      }
    }
  }

  /** The endpoints of the pack with the keys of these routes, but the seen ones, are stable. */
  ghost predicate StableKeys(m: Import, eps: Endpoints, routes: seq<Route>, seen: set<string>) {
    forall r, i :: r in routes && IsOwn(m, eps, i) && IsKeyOf(m, r, KeyOf(eps[i])) && KeyOf(eps[i]) !in seen ==>
                     Stable(eps[i], m.check)
  }

  predicate IsOwn(m: Import, eps: Endpoints, i: Id) {
    i in eps && eps[i].packId == m.packId
  }

  predicate IsKeyOf(m: Import, r: Route, key: string) {
    match Compose(m.basePath, r.path)
    case None => false
    case Some(path) => RouteKey(r.verb, path) == key
  }

  lemma {:induction false} SettledIffStableKeys(m: Import, eps: Endpoints, routes: seq<Route>, seen: set<string>)
    requires AllWritten(m, eps, routes, seen) && DistinctKeys(eps)
    ensures AllSettled(m, eps, routes, seen) <==> StableKeys(m, eps, routes, seen)
    decreases |routes|
  {
    hide Compose, RouteKey, Stable, Rewrite, WrittenAt, SettledAt;
    if routes != [] {
      var r := routes[0];
      var path := Compose(m.basePath, r.path).value;
      var key := RouteKey(r.verb, path);
      SettledIffStableKeys(m, eps, routes[1..], seen + {key});
      if key !in seen {
        var i :| WrittenAt(eps, i, m.packId, r, path, m.check);
        SettledOneIff(m, eps, r, path, i);
      }
      StableKeysSplit(m, eps, routes, seen, key);
    }
  }

  /** A written route is settled exactly if the endpoint with its key is stable. */
  lemma SettledOneIff(m: Import, eps: Endpoints, r: Route, path: string, i: Id)
    requires DistinctKeys(eps) && Compose(m.basePath, r.path) == Some(path)
    requires WrittenAt(eps, i, m.packId, r, path, m.check)
    ensures i in eps && KeyOf(eps[i]) == RouteKey(r.verb, path)
    ensures Settled(m, eps, r) <==> StableKey(m, eps, RouteKey(r.verb, path))
  {
    hide Compose, RouteKey, Stable, Rewrite, ContractFor, TrimSpace, Validated;
    SettledIffStable(eps, i, m.packId, r, path, m.check);
    forall j | SettledAt(eps, j, m.packId, r, path, m.check) ensures j == i {
      assert KeyOf(eps[j]) == KeyOf(eps[i]);
    }
  }

  ghost predicate StableKey(m: Import, eps: Endpoints, key: string) {
    forall i :: i in eps && eps[i].packId == m.packId && KeyOf(eps[i]) == key ==> Stable(eps[i], m.check)
  }

  lemma StableKeysSplit(m: Import, eps: Endpoints, routes: seq<Route>, seen: set<string>, key: string)
    requires routes != [] && IsKeyOf(m, routes[0], key)
    ensures StableKeys(m, eps, routes, seen)
            <==> (key in seen || StableKey(m, eps, key)) && StableKeys(m, eps, routes[1..], seen + {key})
  {
    hide Compose, RouteKey, Stable, KeyOf;
    var r := routes[0];
    assert r in routes && forall x :: x in routes <==> x == r || x in routes[1..];
    assert forall k :: IsKeyOf(m, r, k) ==> k == key;
    if StableKeys(m, eps, routes, seen) && key !in seen {
      forall i | i in eps && eps[i].packId == m.packId && KeyOf(eps[i]) == key ensures Stable(eps[i], m.check) {
        assert IsKeyOf(m, r, KeyOf(eps[i]));
      }
    }
  }

  /** With a canonical validator a successful import leaves every route settled. */
  lemma FoldSettles(m: Import, packs: map<Id, Pack>, before: Endpoints, p: Progress, routes: seq<Route>)
    requires InImport(m, packs, before, p) && forall x :: x in routes ==> NormalVerb(x.verb)
    requires CanonicalScenarios(m.check) && ImportFold(m, p, routes).1.None?
    ensures AllSettled(m, ImportFold(m, p, routes).0.eps, routes, p.seen)
  {
    hide NormalVerb, CanonicalScenarios, AllWritten, AllSettled, StableKeys, DistinctKeys, ImportFold, GoodTable;
    hide Indexed, Frame, NewKeys;
    var p' := ImportFold(m, p, routes).0;
    FoldWrites(m, packs, before, p, routes);
    ImportFoldKeeps(m, packs, before, p, routes);
    GoodTableHasDistinctKeys(packs, p'.eps, p'.nextId);
    CanonicalKeysAreStable(m, p'.eps, routes, p.seen);
    SettledIffStableKeys(m, p'.eps, routes, p.seen);
  }

  /** If an import changes nothing, every route was settled. */
  lemma {:induction false} UnchangedIsSettled(m: Import, packs: map<Id, Pack>, before: Endpoints, p: Progress,
                                              routes: seq<Route>)
    requires InImport(m, packs, before, p) && forall x :: x in routes ==> NormalVerb(x.verb)
    requires p.eps == before && ImportFold(m, p, routes).1.None? && ImportFold(m, p, routes).0.eps == before
    ensures AllSettled(m, before, routes, p.seen)
    decreases |routes|
  {
    hide Compose, RouteKey, NormalVerb, InImport, Rewrite, Prepare;
    if routes != [] {
      var r := routes[0];
      assert r in routes && forall x :: x in routes[1..] ==> x in routes;
      ImportStepKeeps(m, packs, before, p, r);
      var next := ImportStep(m, p, r).value;
      var path := Compose(m.basePath, r.path).value;
      var key := RouteKey(r.verb, path);
      assert next.seen == p.seen + {key};
      if key !in p.seen {
        PreparedIsRecordable(m, packs, before, p, r, path);
        NextIdIsFree(m, packs, before, p);
        var (known, e) := Prepare(m, r, path).value;
        var i := if known.Some? then known.value else p.nextId;
        FoldKeepsSeen(m, packs, before, next, routes[1..], i);
        assert before[i] == e && next.eps == before;
        UnchangedEndpoint(m, packs, before, p, r, path);
        assert SettledAt(before, i, m.packId, r, path, m.check);
      }
      UnchangedIsSettled(m, packs, before, next, routes[1..]);
    }
  }

  lemma UnchangedEndpoint(m: Import, packs: map<Id, Pack>, before: Endpoints, p: Progress, r: Route, path: string)
    requires InImport(m, packs, before, p) && Prepare(m, r, path).Ok?
    requires var (known, e) := Prepare(m, r, path).value;
             known.Some? && known.value in before && before[known.value] == e
    ensures var i := Prepare(m, r, path).value.0.value; SettledAt(before, i, m.packId, r, path, m.check)
  {
    PreparedShape(m, r, path);
    hide GoodTable, Frame, RouteKey, Rewrite;
  }

  // -------- what an import stores --------

  /** The first of these routes with its key, which is not among the seen ones. */
  predicate FirstUnseen(base: string, routes: seq<Route>, seen: set<string>, k: nat) {
    && k < |routes| && Compose(base, routes[k].path).Some?
    && var key := RouteKey(routes[k].verb, Compose(base, routes[k].path).value);
    && key !in seen
    && forall j :: 0 <= j < k && Compose(base, routes[j].path).Some? ==>
         RouteKey(routes[j].verb, Compose(base, routes[j].path).value) != key
  }

  /**
    No other pack has the route, its own contract is accepted, or the default one if
    it has none, and so are the scenarios its endpoint has, or else the default ones.
   */
  ghost predicate Importable(before: Endpoints, packId: Id, r: Route, path: string, check: Validation) {
    && (forall i :: i in before && SameRoute(before[i], r.verb, path) ==> before[i].packId == packId)
    && check.contract(if r.contract == "" then check.defaultContract else r.contract).Some?
    && (check.scenarios(check.defaultScenarios(r.verb, path)).Some?
        || exists i :: i in before && SameRoute(before[i], r.verb, path) && check.scenarios(before[i].scenarios).Some?)
  }

  /** The endpoint an import leaves for a route: with the route's contract, and all else as it was, or as new. */
  ghost predicate Imported(before: Endpoints, e: Endpoint, packId: Id, r: Route, path: string, check: Validation) {
    && e.packId == packId && e.verb == r.verb && e.path == path
    && (r.contract != "" ==> check.contract(r.contract) == Some(e.contract))
    && (r.contract == "" ==> check.contract(check.defaultContract) == Some(e.contract))
    && (forall i :: i in before && SameRoute(before[i], r.verb, path) ==> Carried(before[i], e, check))
    && ((forall i :: i in before ==> !SameRoute(before[i], r.verb, path)) ==>
          && e.authMode == "INHERIT" && e.authPolicy == "{}"
          && check.scenarios(check.defaultScenarios(r.verb, path)) == Some(e.scenarios))
  }

  /** What an import carries over from the endpoint it overwrites. */
  ghost predicate Carried(was: Endpoint, e: Endpoint, check: Validation) {
    && e.authMode == (if was.authMode == "" then "INHERIT" else was.authMode)
    && e.authPolicy == (if TrimSpace(was.authPolicy) == "" then "{}" else was.authPolicy)
    && Some(e.scenarios) == if check.scenarios(was.scenarios).Some? then check.scenarios(was.scenarios)
                            else check.scenarios(check.defaultScenarios(e.verb, e.path))
  }

  /** The table at the start of an import had normal and unique routes. */
  ghost predicate NormalRoutes(eps: Endpoints) {
    forall i :: i in eps ==> NormalVerb(eps[i].verb) && NormalPath(eps[i].path)
  }

  lemma BeforeIsNormal(m: Import, packs: map<Id, Pack>, before: Endpoints, p: Progress)
    requires InImport(m, packs, before, p)
    ensures NormalRoutes(before)
  {
    hide NormalPath, NormalVerb, UnderBase, Indexed, Unique;
    forall i | i in before ensures NormalVerb(before[i].verb) && NormalPath(before[i].path) {
      assert Identity(p.eps[i]) == Identity(before[i]) && GoodEndpoint(p.eps[i], packs);
    }
  }

  lemma BeforeHasDistinctKeys(m: Import, packs: map<Id, Pack>, before: Endpoints, p: Progress)
    requires InImport(m, packs, before, p)
    ensures DistinctKeys(before)
  {
    assert GoodTable(packs, p.eps, p.nextId);
    GoodTableHasDistinctKeys(packs, p.eps, p.nextId);
    hide GoodTable, Indexed, RouteKey;
    forall i, j | i in before && j in before && KeyOf(before[i]) == KeyOf(before[j]) ensures i == j {
      assert Identity(p.eps[i]) == Identity(before[i]) && Identity(p.eps[j]) == Identity(before[j]);
    }
  }

  /** By its key a normal route finds who held it. */
  lemma IndexedIsHeld(m: Import, before: Endpoints, r: Route, path: string)
    requires Indexed(m, before) && NormalRoutes(before) && DistinctKeys(before)
    requires NormalVerb(r.verb) && NormalPath(path)
    ensures HeldBefore(m, before, r, path)
  {
    hide NormalPath, NormalVerb, RouteKey;
    var key := RouteKey(r.verb, path);
    forall i | i in before ensures KeyOf(before[i]) == key <==> SameRoute(before[i], r.verb, path) {
      RouteKeyInjective(before[i].verb, before[i].path, r.verb, path);
    }
    if key in m.owners { var i :| HasKey(before, i, key); }
  }

  /** For a route not seen yet, the indexes say who held it at the start. */
  lemma UnseenIsBefore(m: Import, packs: map<Id, Pack>, before: Endpoints, p: Progress, r: Route, path: string)
    requires InImport(m, packs, before, p) && NormalVerb(r.verb) && Compose(m.basePath, r.path) == Some(path)
    ensures HeldBefore(m, before, r, path)
  {
    ComposeLandsUnderBase(m.basePath, r.path);
    BeforeIsNormal(m, packs, before, p);
    BeforeHasDistinctKeys(m, packs, before, p);
    InImportIsIndexed(m, packs, before, p);
    hide InImport, NormalPath, NormalVerb, UnderBase, Compose, Indexed, NormalRoutes, DistinctKeys, HeldBefore;
    IndexedIsHeld(m, before, r, path);
  }

  lemma InImportIsIndexed(m: Import, packs: map<Id, Pack>, before: Endpoints, p: Progress)
    requires InImport(m, packs, before, p)
    ensures Indexed(m, before)
  {
  }

  /** Who holds the route at the start, by the indexes of the import. */
  ghost predicate HeldBefore(m: Import, before: Endpoints, r: Route, path: string) {
    var key := RouteKey(r.verb, path);
    && (forall i :: i in before && SameRoute(before[i], r.verb, path) ==>
          && key in m.owners && m.owners[key] == before[i].packId
          && (before[i].packId == m.packId ==> key in m.existing && m.existing[key] == Known(i, before[i])))
    && (key in m.owners ==> exists i :: i in before && SameRoute(before[i], r.verb, path))
    && (key in m.existing ==>
          && m.existing[key].id in before && SameRoute(before[m.existing[key].id], r.verb, path)
          && before[m.existing[key].id].packId == m.packId
          && m.existing[key].endpoint == before[m.existing[key].id])
  }

  lemma PrepareKnown(m: Import, before: Endpoints, r: Route, path: string)
    requires HeldBefore(m, before, r, path) && RouteKey(r.verb, path) in m.existing
    ensures Prepare(m, r, path).Ok? <==> Importable(before, m.packId, r, path, m.check)
    ensures Prepare(m, r, path).Ok? ==> Imported(before, Prepare(m, r, path).value.1, m.packId, r, path, m.check)
  {
    hide RouteKey, TrimSpace;
    var key := RouteKey(r.verb, path);
    var i := m.existing[key].id;
    assert key in m.owners && m.owners[key] == m.packId;
    assert forall j :: j in before && SameRoute(before[j], r.verb, path) ==> before[j].packId == m.packId && j == i;
  }

  lemma PrepareNew(m: Import, before: Endpoints, r: Route, path: string)
    requires HeldBefore(m, before, r, path) && RouteKey(r.verb, path) !in m.existing
    ensures Prepare(m, r, path).Ok? <==> Importable(before, m.packId, r, path, m.check)
    ensures Prepare(m, r, path).Ok? ==> Imported(before, Prepare(m, r, path).value.1, m.packId, r, path, m.check)
  {
    assert TrimSpace("{}") == "{}" by { TrimmedIsFixed("{}"); }
    hide RouteKey, TrimSpace;
    var key := RouteKey(r.verb, path);
    if key in m.owners {
      var i :| i in before && SameRoute(before[i], r.verb, path);
      assert before[i].packId != m.packId;
    }
  }

  /** A turn succeeds exactly for an importable route, and prepares the endpoint that the import leaves. */
  lemma PrepareMeans(m: Import, packs: map<Id, Pack>, before: Endpoints, p: Progress, r: Route, path: string)
    requires InImport(m, packs, before, p) && NormalVerb(r.verb) && Compose(m.basePath, r.path) == Some(path)
    requires RouteKey(r.verb, path) !in p.seen
    ensures Prepare(m, r, path).Ok? <==> Importable(before, m.packId, r, path, m.check)
    ensures Prepare(m, r, path).Ok? ==> Imported(before, Prepare(m, r, path).value.1, m.packId, r, path, m.check)
  {
    hide InImport, NormalVerb, Compose, RouteKey, Prepare, Importable, Imported;
    UnseenIsBefore(m, packs, before, p, r, path);
    if RouteKey(r.verb, path) in m.existing {
      PrepareKnown(m, before, r, path);
    } else {
      PrepareNew(m, before, r, path);
    }
  }

  /** An import succeeds exactly if every path composes and the first route of every key can be imported. */
  ghost predicate AllImportable(base: string, packId: Id, before: Endpoints, routes: seq<Route>, seen: set<string>,
                                check: Validation) {
    && (forall k :: 0 <= k < |routes| ==> Compose(base, routes[k].path).Some?)
    && (forall k: nat :: FirstUnseen(base, routes, seen, k) ==>
          Importable(before, packId, routes[k], Compose(base, routes[k].path).value, check))
  }

  /** Every such route has its endpoint afterwards. */
  ghost predicate AllImported(base: string, packId: Id, before: Endpoints, routes: seq<Route>, seen: set<string>,
                              check: Validation, after: Endpoints) {
    forall k: nat :: FirstUnseen(base, routes, seen, k) ==> IsImported(base, packId, before, routes, k, check, after)
  }

  /** The endpoint of the route. */
  ghost predicate IsImported(base: string, packId: Id, before: Endpoints, routes: seq<Route>, k: nat,
                             check: Validation, after: Endpoints)
    requires k < |routes| && Compose(base, routes[k].path).Some?
  {
    exists i :: i in after
                && Imported(before, after[i], packId, routes[k], Compose(base, routes[k].path).value, check)
  }

  lemma FirstUnseenTail(base: string, routes: seq<Route>, seen: set<string>, key: string)
    requires routes != [] && Compose(base, routes[0].path).Some?
    requires key == RouteKey(routes[0].verb, Compose(base, routes[0].path).value)
    ensures FirstUnseen(base, routes, seen, 0) <==> key !in seen
    ensures forall k: nat :: FirstUnseen(base, routes[1..], seen + {key}, k) <==> FirstUnseen(base, routes, seen, k + 1)
  {
    hide Compose, RouteKey;
    var rest := routes[1..];
    forall k: nat ensures FirstUnseen(base, rest, seen + {key}, k) <==> FirstUnseen(base, routes, seen, k + 1) {
      if FirstUnseen(base, routes, seen, k + 1) {
        assert forall j :: 0 <= j < k ==> rest[j] == routes[j + 1];
      }
      if FirstUnseen(base, rest, seen + {key}, k) {
        assert forall j :: 0 < j <= k ==> routes[j] == rest[j - 1];
      }
    }
  }

  lemma ImportableHead(base: string, packId: Id, before: Endpoints, routes: seq<Route>, seen: set<string>,
                       check: Validation, key: string)
    requires routes != [] && Compose(base, routes[0].path).Some?
    requires key == RouteKey(routes[0].verb, Compose(base, routes[0].path).value)
    requires AllImportable(base, packId, before, routes, seen, check)
    ensures key !in seen ==> Importable(before, packId, routes[0], Compose(base, routes[0].path).value, check)
    ensures AllImportable(base, packId, before, routes[1..], seen + {key}, check)
  {
    FirstUnseenTail(base, routes, seen, key);
    hide Compose, RouteKey, Importable, FirstUnseen;
    var rest, seen' := routes[1..], seen + {key};
    assert key !in seen ==> FirstUnseen(base, routes, seen, 0);
    forall k | 0 <= k < |rest| ensures Compose(base, rest[k].path).Some? {
      assert rest[k] == routes[k + 1];
    }
    forall k: nat | FirstUnseen(base, rest, seen', k)
      ensures Importable(before, packId, rest[k], Compose(base, rest[k].path).value, check)
    {
      assert FirstUnseen(base, routes, seen, k + 1) && rest[k] == routes[k + 1];
    }
  }

  lemma ImportableCons(base: string, packId: Id, before: Endpoints, routes: seq<Route>, seen: set<string>,
                       check: Validation, key: string)
    requires routes != [] && Compose(base, routes[0].path).Some?
    requires key == RouteKey(routes[0].verb, Compose(base, routes[0].path).value)
    requires key !in seen ==> Importable(before, packId, routes[0], Compose(base, routes[0].path).value, check)
    requires AllImportable(base, packId, before, routes[1..], seen + {key}, check)
    ensures AllImportable(base, packId, before, routes, seen, check)
  {
    FirstUnseenTail(base, routes, seen, key);
    hide Compose, RouteKey, Importable, FirstUnseen;
    var rest, seen' := routes[1..], seen + {key};
    forall k | 0 <= k < |routes| ensures Compose(base, routes[k].path).Some? {
      if k > 0 { assert rest[k - 1] == routes[k]; }
    }
    forall k: nat | FirstUnseen(base, routes, seen, k)
      ensures Importable(before, packId, routes[k], Compose(base, routes[k].path).value, check)
    {
      if k > 0 { assert FirstUnseen(base, rest, seen', k - 1) && rest[k - 1] == routes[k]; }
    }
  }

  lemma AllImportableTail(base: string, packId: Id, before: Endpoints, routes: seq<Route>, seen: set<string>,
                          check: Validation, key: string)
    requires routes != [] && Compose(base, routes[0].path).Some?
    requires key == RouteKey(routes[0].verb, Compose(base, routes[0].path).value)
    ensures AllImportable(base, packId, before, routes, seen, check)
            <==> && (key !in seen ==> Importable(before, packId, routes[0], Compose(base, routes[0].path).value, check))
                 && AllImportable(base, packId, before, routes[1..], seen + {key}, check)
  {
    hide Compose, RouteKey, Importable, AllImportable;
    if AllImportable(base, packId, before, routes, seen, check) {
      ImportableHead(base, packId, before, routes, seen, check, key);
    } else if (key !in seen ==> Importable(before, packId, routes[0], Compose(base, routes[0].path).value, check))
              && AllImportable(base, packId, before, routes[1..], seen + {key}, check) {
      ImportableCons(base, packId, before, routes, seen, check, key);
    }
  }

  /** What an import does in terms of its routes: when it succeeds, and what it leaves. */
  lemma {:induction false} FoldImports(m: Import, packs: map<Id, Pack>, before: Endpoints, p: Progress,
                                       routes: seq<Route>)
    requires InImport(m, packs, before, p) && forall r :: r in routes ==> NormalVerb(r.verb)
    ensures var (p', error) := ImportFold(m, p, routes);
            && (error.None? <==> AllImportable(m.basePath, m.packId, before, routes, p.seen, m.check))
            && (error.None? ==> AllImported(m.basePath, m.packId, before, routes, p.seen, m.check, p'.eps))
    decreases |routes|
  {
    hide Compose, RouteKey, NormalVerb, InImport, Prepare, Importable, Imported, AllImportable;
    if routes == [] {
      NothingToImport(m, before, p.seen, p.eps);
    } else {
      var r := routes[0];
      assert r in routes && forall x :: x in routes[1..] ==> x in routes;
      var composed := Compose(m.basePath, r.path);
      if composed.None? {
        PathsMustCompose(m, before, routes, p.seen);
      } else {
        var key := RouteKey(r.verb, composed.value);
        AllImportableTail(m.basePath, m.packId, before, routes, p.seen, m.check, key);
        if key !in p.seen { PrepareMeans(m, packs, before, p, r, composed.value); }
        if ImportStep(m, p, r).Ok? {
          var next := ImportStep(m, p, r).value;
          assert next.seen == p.seen + {key};
          ImportStepKeeps(m, packs, before, p, r);
          FoldImports(m, packs, before, next, routes[1..]);
          if ImportFold(m, p, routes).1.None? { FirstIsImported(m, packs, before, p, routes, key); }
        }
      }
    }
  }

  lemma NothingToImport(m: Import, before: Endpoints, seen: set<string>, after: Endpoints)
    ensures AllImportable(m.basePath, m.packId, before, [], seen, m.check)
    ensures AllImported(m.basePath, m.packId, before, [], seen, m.check, after)
  {
    hide Compose, RouteKey;
  }

  lemma PathsMustCompose(m: Import, before: Endpoints, routes: seq<Route>, seen: set<string>)
    requires routes != [] && Compose(m.basePath, routes[0].path).None?
    ensures !AllImportable(m.basePath, m.packId, before, routes, seen, m.check)
  {
    hide Compose;
  }

  lemma FirstIsImported(m: Import, packs: map<Id, Pack>, before: Endpoints, p: Progress, routes: seq<Route>,
                        key: string)
    requires InImport(m, packs, before, p) && (forall r :: r in routes ==> NormalVerb(r.verb)) && routes != []
    requires ImportFold(m, p, routes).1.None? && Compose(m.basePath, routes[0].path).Some?
    requires key == RouteKey(routes[0].verb, Compose(m.basePath, routes[0].path).value)
    requires ImportStep(m, p, routes[0]).Ok?
    requires AllImported(m.basePath, m.packId, before, routes[1..], p.seen + {key}, m.check,
                         ImportFold(m, p, routes).0.eps)
    ensures AllImported(m.basePath, m.packId, before, routes, p.seen, m.check, ImportFold(m, p, routes).0.eps)
  {
    var after := ImportFold(m, p, routes).0.eps;
    hide Compose, RouteKey, NormalVerb, InImport, ImportFold, ImportStep, AllImported;
    if key !in p.seen { FirstHasEndpoint(m, packs, before, p, routes, key); }
    ImportedCons(m.basePath, m.packId, before, routes, p.seen, m.check, after, key);
  }

  /** What the first route of a key left is still there at the end. */
  lemma FirstHasEndpoint(m: Import, packs: map<Id, Pack>, before: Endpoints, p: Progress, routes: seq<Route>,
                         key: string)
    requires InImport(m, packs, before, p) && (forall r :: r in routes ==> NormalVerb(r.verb)) && routes != []
    requires ImportFold(m, p, routes).1.None? && Compose(m.basePath, routes[0].path).Some?
    requires key == RouteKey(routes[0].verb, Compose(m.basePath, routes[0].path).value) && key !in p.seen
    requires ImportStep(m, p, routes[0]).Ok?
    ensures IsImported(m.basePath, m.packId, before, routes, 0, m.check, ImportFold(m, p, routes).0.eps)
  {
    var r, path, after := routes[0], Compose(m.basePath, routes[0].path).value, ImportFold(m, p, routes).0.eps;
    hide Compose, RouteKey, NormalVerb, InImport, Prepare, Imported;
    assert r in routes && forall x :: x in routes[1..] ==> x in routes;
    PrepareMeans(m, packs, before, p, r, path);
    PreparedIsRecordable(m, packs, before, p, r, path);
    ImportStepKeeps(m, packs, before, p, r);
    var (known, e) := Prepare(m, r, path).value;
    var i := if known.Some? then known.value else p.nextId;
    FoldKeepsSeen(m, packs, before, ImportStep(m, p, r).value, routes[1..], i);
    assert i in after && after[i] == e;
  }

  lemma ImportedCons(base: string, packId: Id, before: Endpoints, routes: seq<Route>, seen: set<string>,
                     check: Validation, after: Endpoints, key: string)
    requires routes != [] && Compose(base, routes[0].path).Some?
    requires key == RouteKey(routes[0].verb, Compose(base, routes[0].path).value)
    requires key !in seen ==> IsImported(base, packId, before, routes, 0, check, after)
    requires AllImported(base, packId, before, routes[1..], seen + {key}, check, after)
    ensures AllImported(base, packId, before, routes, seen, check, after)
  {
    FirstUnseenTail(base, routes, seen, key);
    var rest, seen' := routes[1..], seen + {key};
    forall k: nat | FirstUnseen(base, routes, seen, k)
      ensures IsImported(base, packId, before, routes, k, check, after)
    {
      hide Compose, RouteKey, IsImported, FirstUnseen;
      if k > 0 {
        assert FirstUnseen(base, rest, seen', k - 1);
        ImportedLater(base, packId, before, routes, k, check, after);
      }
    }
  }

  lemma ImportedLater(base: string, packId: Id, before: Endpoints, routes: seq<Route>, k: nat, check: Validation,
                      after: Endpoints)
    requires 0 < k < |routes| && Compose(base, routes[k].path).Some?
    ensures IsImported(base, packId, before, routes[1..], k - 1, check, after)
            <==> IsImported(base, packId, before, routes, k, check, after)
  {
    hide Compose, Imported;
    assert routes[1..][k - 1] == routes[k];
  }

  /** Importing settled routes: nothing is created and no endpoint changes. */
  lemma {:induction false} SettledImportChangesNothing(m: Import, packs: map<Id, Pack>, before: Endpoints, p: Progress,
                                                       routes: seq<Route>)
    requires InImport(m, packs, before, p) && forall x :: x in routes ==> NormalVerb(x.verb)
    requires p.eps == before && AllSettled(m, before, routes, p.seen)
    ensures var (p', error) := ImportFold(m, p, routes);
            && error.None? && p'.eps == p.eps && p'.nextId == p.nextId && p'.created == p.created
            && p'.updated == p.updated + NewKeys(m.basePath, routes, p.seen)
    decreases |routes|
  {
    hide Compose, RouteKey, NormalVerb, InImport, Rewrite, Prepare;
    if routes != [] {
      var r := routes[0];
      assert r in routes && forall x :: x in routes[1..] ==> x in routes;
      var path := Compose(m.basePath, r.path).value;
      var key := RouteKey(r.verb, path);
      if key in p.seen {
        assert p.seen + {key} == p.seen;
      } else {
        SettledStep(m, packs, before, p, r, path);
      }
      ImportStepKeeps(m, packs, before, p, r);
      SettledImportChangesNothing(m, packs, before, ImportStep(m, p, r).value, routes[1..]);
    }
  }

  lemma SettledIsIndexed(m: Import, packs: map<Id, Pack>, before: Endpoints, p: Progress, i: Id, verb: string,
                         path: string)
    requires InImport(m, packs, before, p) && NormalVerb(verb) && NormalPath(path) && p.eps == before
    requires RouteKey(verb, path) !in p.seen
    requires i in before && before[i].packId == m.packId && SameRoute(before[i], verb, path)
    ensures var key := RouteKey(verb, path);
            && key in m.existing && m.existing[key] == Known(i, before[i])
            && key in m.owners && m.owners[key] == m.packId
  {
    hide NormalVerb, NormalPath, UnderBase, RouteKey, GoodTable;
    assert KeyOf(before[i]) == RouteKey(verb, path);
    UnseenRoute(m, packs, before, p, verb, path);
  }

  lemma SettledIsPrepared(m: Import, packs: map<Id, Pack>, before: Endpoints, p: Progress, i: Id, r: Route,
                          path: string)
    requires InImport(m, packs, before, p) && NormalVerb(r.verb) && NormalPath(path) && p.eps == before
    requires SettledAt(before, i, m.packId, r, path, m.check) && RouteKey(r.verb, path) !in p.seen
    ensures Prepare(m, r, path) == Ok((Some(i), before[i]))
  {
    hide NormalVerb, NormalPath, RouteKey, InImport, Rewrite;
    SettledIsIndexed(m, packs, before, p, i, r.verb, path);
  }

  lemma SettledStep(m: Import, packs: map<Id, Pack>, before: Endpoints, p: Progress, r: Route, path: string)
    requires InImport(m, packs, before, p) && NormalVerb(r.verb) && p.eps == before
    requires Compose(m.basePath, r.path) == Some(path) && Settled(m, before, r) && RouteKey(r.verb, path) !in p.seen
    ensures ImportStep(m, p, r) == Ok(p.(seen := p.seen + {RouteKey(r.verb, path)}, updated := p.updated + 1))
  {
    hide Compose, NormalVerb, NormalPath, RouteKey, InImport, Prepare, Rewrite, UnderBase;
    var i :| SettledAt(before, i, m.packId, r, path, m.check);
    ComposeLandsUnderBase(m.basePath, r.path);
    SettledIsPrepared(m, packs, before, p, i, r, path);
    assert p.eps[i := before[i]] == p.eps;
  }

  /**
    Importing the same routes once more, with the same validators: on the table the
    first import left, the second changes nothing exactly if the scenarios of every
    endpoint with one of these routes are such that validating them again does not.
   */
  lemma ReimportIsIdentityIff(m: Import, packs: map<Id, Pack>, before: Endpoints, nextId: Id, routes: seq<Route>,
                              again: Import)
    requires GoodTable(packs, before, nextId) && Indexed(m, before)
    requires m.packId in packs && m.basePath == packs[m.packId].basePath
    requires forall r :: r in routes ==> NormalVerb(r.verb)
    requires var (p, error) := ImportFold(m, StartImport(before, nextId), routes);
             error.None? && Indexed(again, p.eps) && again == m.(existing := again.existing, owners := again.owners)
    ensures var p := ImportFold(m, StartImport(before, nextId), routes).0;
            var (p', error) := ImportFold(again, StartImport(p.eps, p.nextId), routes);
            && (error.None? && p'.eps == p.eps <==> StableKeys(m, p.eps, routes, {}))
            && (error.None? && p'.eps == p.eps ==>
                  && p'.nextId == p.nextId && p'.created == 0
                  && p'.updated == p.created + p.updated && p'.skipped == p.skipped)
  {
    hide Indexed, NormalVerb, GoodTable, AllSettled, AllWritten, NewKeys, Frame, ImportFold, StableKeys, DistinctKeys;
    var start := StartImport(before, nextId);
    var p := ImportFold(m, start, routes).0;
    StartIsInImport(m, packs, before, nextId);
    ImportFoldKeeps(m, packs, before, start, routes);
    FoldWrites(m, packs, before, start, routes);
    assert GoodTable(packs, p.eps, p.nextId);
    GoodTableHasDistinctKeys(packs, p.eps, p.nextId);
    SettledIffStableKeys(m, p.eps, routes, {});
    assert start.seen == {} && start.created == start.updated == start.skipped == 0;
    var start' := StartImport(p.eps, p.nextId);
    assert start'.seen == {} && start'.created == start'.updated == start'.skipped == 0;
    StartIsInImport(again, packs, p.eps, p.nextId);
    hide InImport;
    var (p', error) := ImportFold(again, start', routes);
    if AllSettled(m, p.eps, routes, {}) {
      AllSettledIgnoresIndexes(m, again, p.eps, routes, {});
      SettledImportChangesNothing(again, packs, p.eps, start', routes);
      ImportFoldKeeps(again, packs, p.eps, start', routes);
    } else if error.None? && p'.eps == p.eps {
      UnchangedIsSettled(again, packs, p.eps, start', routes);
      AllSettledIgnoresIndexes(again, m, p.eps, routes, {});
    }
  }

  lemma {:induction false} CanonicalKeysAreStable(m: Import, eps: Endpoints, routes: seq<Route>, seen: set<string>)
    requires AllWritten(m, eps, routes, seen) && DistinctKeys(eps) && CanonicalScenarios(m.check)
    ensures StableKeys(m, eps, routes, seen)
    decreases |routes|
  {
    hide Compose, RouteKey, Stable, WrittenAt, CanonicalScenarios;
    if routes != [] {
      var r := routes[0];
      var path := Compose(m.basePath, r.path).value;
      var key := RouteKey(r.verb, path);
      CanonicalKeysAreStable(m, eps, routes[1..], seen + {key});
      if key !in seen {
        var i :| WrittenAt(eps, i, m.packId, r, path, m.check);
        CanonicalIsStable(eps, i, m.packId, r, path, m.check);
        SettledOneIff(m, eps, r, path, i);
        assert StableKey(m, eps, key);
      }
      StableKeysSplit(m, eps, routes, seen, key);
    }
  }

  /** So it changes nothing whenever validating what validation returned does not. */
  lemma ReimportIsIdentity(m: Import, packs: map<Id, Pack>, before: Endpoints, nextId: Id, routes: seq<Route>,
                           again: Import)
    requires GoodTable(packs, before, nextId) && Indexed(m, before)
    requires m.packId in packs && m.basePath == packs[m.packId].basePath
    requires (forall r :: r in routes ==> NormalVerb(r.verb)) && CanonicalScenarios(m.check)
    requires var (p, error) := ImportFold(m, StartImport(before, nextId), routes);
             error.None? && Indexed(again, p.eps) && again == m.(existing := again.existing, owners := again.owners)
    ensures var p := ImportFold(m, StartImport(before, nextId), routes).0;
            var (p', error) := ImportFold(again, StartImport(p.eps, p.nextId), routes);
            && error.None? && p'.eps == p.eps && p'.nextId == p.nextId
            && p'.created == 0 && p'.updated == p.created + p.updated && p'.skipped == p.skipped
  {
    hide Indexed, NormalVerb, CanonicalScenarios, GoodTable, AllWritten, NewKeys, Frame, ImportFold, StableKeys;
    hide DistinctKeys;
    var start := StartImport(before, nextId);
    var p := ImportFold(m, start, routes).0;
    ReimportIsIdentityIff(m, packs, before, nextId, routes, again);
    StartIsInImport(m, packs, before, nextId);
    ImportFoldKeeps(m, packs, before, start, routes);
    FoldWrites(m, packs, before, start, routes);
    assert GoodTable(packs, p.eps, p.nextId) && start.seen == {};
    GoodTableHasDistinctKeys(packs, p.eps, p.nextId);
    CanonicalKeysAreStable(m, p.eps, routes, {});
  }

  function StartImport(eps: Endpoints, nextId: Id): Progress {
    Progress(eps, nextId, {}, 0, 0, 0)
  }

  lemma StartIsInImport(m: Import, packs: map<Id, Pack>, eps: Endpoints, nextId: Id)
    requires GoodTable(packs, eps, nextId) && Indexed(m, eps)
    requires m.packId in packs && m.basePath == packs[m.packId].basePath
    ensures InImport(m, packs, eps, StartImport(eps, nextId))
  {
  }

  lemma {:induction false} AllSettledIgnoresIndexes(m: Import, m': Import, eps: Endpoints, routes: seq<Route>,
                                                    seen: set<string>)
    requires m' == m.(existing := m'.existing, owners := m'.owners)
    requires AllSettled(m, eps, routes, seen)
    ensures AllSettled(m', eps, routes, seen)
    decreases |routes|
  {
    hide Compose, RouteKey, Rewrite;
    if routes != [] {
      AllSettledIgnoresIndexes(m, m', eps, routes[1..],
                               seen + {RouteKey(routes[0].verb, Compose(m.basePath, routes[0].path).value)});
    }
  }
}
