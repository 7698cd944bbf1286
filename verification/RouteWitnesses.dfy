/**
  Runs of overlapping route operations, from the empty tables, after which an
  endpoint no longer lies under the base path of its pack.
 */
module RouteWitnesses {
  import opened Wrappers
  import opened Text
  import opened PathTemplates
  import opened PackPaths
  import opened RouteTable
  import opened RouteTransactions
  import opened RouteRuns

  // -------- walking through a run --------

  ghost predicate Reached(ms: seq<Move>, w: World) {
    ProperRun(ms) && AfterMoves(NO_ROUTES, ms) == w
  }

  lemma Step1(ms: seq<Move>, w: World, m: Move, w': World)
    requires Reached(ms, w) && Proper(m) && MoveTo(w, m) == w'
    ensures Reached(ms + [m], w')
  {
    hide MoveTo, Proper;
    assert (ms + [m])[..|ms|] == ms;
    assert forall x :: x in ms + [m] <==> x in ms || x == m;
  }

  // -------- one pack and one route --------

  const PACK := Pack("p", "p", "/a", "ACTIVE", false, "{}")

  const ROUTE := Route("GET", "/x", "")

  const CHECK := Validation(_ => Some("{}"), _ => Some("[]"), "{}", (_, _) => "[]")

  const PACKING := [Begin(NewPack(PACK)), Finish(0)]

  const IMPORT := ImportRoutes(0, [ROUTE], CHECK)

  function Packed(base: string): Table {
    Table(map[0 := PACK.(basePath := base)], map[], 1)
  }

  lemma OneLetterPath(s: string, path: string)
    requires |s| == 1 && 'a' <= s[0] <= 'z' && path == "/" + s
    ensures NormalPath(path) && SegmentsOf(path) == Some([s])
  {
    OneLetter(s);
    hide GoodSegment, NormalizePath, SegmentsOf;
    assert Render([s]) == path;
    GoodRender([s], path);
  }

  lemma BaseIsNormal()
    ensures NormalPath("/a") && NormalPath("/b") && NormalPath("/x")
    ensures SegmentsOf("/a") == Some(["a"]) && SegmentsOf("/b") == Some(["b"]) && SegmentsOf("/x") == Some(["x"])
  {
    hide NormalPath, SegmentsOf;
    OneLetterPath("a", "/a");
    OneLetterPath("b", "/b");
    OneLetterPath("x", "/x");
  }

  /** Where the route lands, and that this is not under the other base. */
  lemma ComposedPaths()
    ensures Compose("/a", "/x").Some? && Compose("/b", "/x").Some?
    ensures !UnderBase(Compose("/a", "/x").value, "/b") && !UnderBase(Compose("/b", "/x").value, "/a")
  {
    BaseIsNormal();
    hide NormalPath, SegmentsOf, Compose;
    ComposeOnSegments("/a", "/x");
    ComposeOnSegments("/b", "/x");
    assert ["a"] + ["x"] == ["a", "x"] && ["b"] + ["x"] == ["b", "x"];
  }

  lemma PackingReaches()
    ensures Reached(PACKING, World(Packed("/a"), []))
  {
    BaseIsNormal();
    hide NormalPath, SegmentsOf;
    assert Reached([], NO_ROUTES);
    hide Reached;
    var ready := Ready(AddPack(PACK), "/a");
    Step1([], NO_ROUTES, Begin(NewPack(PACK)), World(NO_ROUTES.t, [ready]));
    assert Outcome(NO_ROUTES.t, AddPack(PACK)) == Ok(Packed("/a"));
    assert Replaced([ready], 0, None) == [];
    Step1([] + [Begin(NewPack(PACK))], World(NO_ROUTES.t, [ready]), Finish(0), World(Packed("/a"), []));
    assert PACKING == [] + [Begin(NewPack(PACK))] + [Finish(0)];
  }

  // -------- the import --------

  const IMPORTING := [Begin(IMPORT), Read(1), Read(1), Read(1), Finish(1)]

  /** What the import has read of the tables without endpoints. */
  function Reading(base: string): Import {
    Import(0, base, map[], map[], CHECK)
  }

  lemma NothingIndexed()
    ensures ExistingIn(map[]) == map[] && OwnersIn(map[]) == map[] && OwnOf(map[], 0) == map[]
  {
    assert KeysOf(map[]) == {};
  }

  lemma VerbIsNormal()
    ensures NormalVerb("GET")
  {
    TrimmedIsFixed("GET");
    hide TrimSpace;
    assert ToUpper("GET") == "GET";
  }

  lemma RouteIsWritten(base: string) returns (e: Endpoint)
    requires Compose(base, "/x").Some?
    ensures TurnStep(Reading(base), {}, ROUTE) == Ok(Some(Write(None, e)))
    ensures e.packId == 0 && e.verb == "GET" && e.path == Compose(base, "/x").value
  {
    hide Compose, RouteKey, TrimSpace;
    var path := Compose(base, "/x").value;
    assert Prepare(Reading(base), ROUTE, path).Ok?;
    PreparedShape(Reading(base), ROUTE, path);
    e := Prepare(Reading(base), ROUTE, path).value.1;
    hide Prepare;
  }

  lemma ImportIsProper()
    ensures Proper(Begin(IMPORT))
  {
    VerbIsNormal();
    hide NormalVerb;
  }

  lemma ImportAnswers(t: Table, base: string)
    requires t.eps == map[] && 0 in t.packs && t.packs[0].basePath == base
    ensures Answer(t, FindPack(IMPORT)) == Some(ListExisting(IMPORT, base))
    ensures Answer(t, ListExisting(IMPORT, base)) == Some(ListOwners(IMPORT, base, map[]))
    ensures Answer(t, ListOwners(IMPORT, base, map[])) == Some(Importing(Reading(base), [ROUTE], {}))
  {
    NothingIndexed();
    hide ExistingIn, OwnersIn, OwnOf;
  }

  /** Beside another operation, the import of the route into the pack, up to its only write. */
  lemma ImportingReaches(ms: seq<Move>, p: Pending, pack: Pack) returns (e: Endpoint, left: Pending)
    requires Reached(ms, World(Table(map[0 := pack], map[], 1), [p])) && Compose(pack.basePath, "/x").Some?
    ensures Reached(ms + IMPORTING, World(Table(map[0 := pack], map[1 := e], 2), [p, left]))
    ensures e.packId == 0 && e.path == Compose(pack.basePath, "/x").value
  {
    hide Reached, Compose, TurnStep, Answer, Written, LeftToDo, MoveTo, Proper;
    var t, base := Table(map[0 := pack], map[], 1), pack.basePath;
    e := RouteIsWritten(base);
    ImportIsProper();
    ImportAnswers(t, base);
    var q1, q2, q3 := FindPack(IMPORT), ListExisting(IMPORT, base), ListOwners(IMPORT, base, map[]);
    var turn, one := Importing(Reading(base), [ROUTE], {}), ms + [Begin(IMPORT)];
    Step1(ms, World(t, [p]), Begin(IMPORT), MoveTo(World(t, [p]), Begin(IMPORT)));
    ImportBegins(t, p);
    ReadSecond(one, t, p, q1, q2);
    ReadSecond(one + [Read(1)], t, p, q2, q3);
    ReadSecond(one + [Read(1)] + [Read(1)], t, p, q3, turn);
    left := TurnEnds(t, base, e);
    FinishSecond(one + [Read(1)] + [Read(1)] + [Read(1)], t, p, turn, left);
    assert ms + IMPORTING == one + [Read(1)] + [Read(1)] + [Read(1)] + [Finish(1)];
  }

  lemma ImportBegins(t: Table, p: Pending)
    ensures MoveTo(World(t, [p]), Begin(IMPORT)) == World(t, [p, FindPack(IMPORT)])
  {
  }

  lemma ReadSecond(ms: seq<Move>, t: Table, p: Pending, q: Pending, q': Pending)
    requires Reached(ms, World(t, [p, q])) && IsQuery(q) && Answer(t, q) == Some(q')
    ensures Reached(ms + [Read(1)], World(t, [p, q']))
  {
    hide Reached, Answer;
    assert [p, q][1 := q'] == [p, q'];
    Step1(ms, World(t, [p, q]), Read(1), World(t, [p, q']));
  }

  lemma FinishSecond(ms: seq<Move>, t: Table, p: Pending, q: Pending, left: Pending)
    requires Reached(ms, World(t, [p, q])) && !IsQuery(q) && LeftToDo(t, q) == Some(left)
    ensures Reached(ms + [Finish(1)], World(Written(t, q), [p, left]))
  {
    hide Reached, Written, LeftToDo;
    assert [p, q][1 := left] == [p, left];
    Step1(ms, World(t, [p, q]), Finish(1), World(Written(t, q), [p, left]));
  }

  lemma TurnEnds(t: Table, base: string, e: Endpoint) returns (left: Pending)
    requires TurnStep(Reading(base), {}, ROUTE) == Ok(Some(Write(None, e)))
    requires t.eps == map[] && t.nextId == 1 && e.packId in t.packs
    ensures var turn := Importing(Reading(base), [ROUTE], {});
            Written(t, turn) == Table(t.packs, map[1 := e], 2) && LeftToDo(t, turn) == Some(left)
  {
    hide TurnStep, SeenAfter;
    var turn := Importing(Reading(base), [ROUTE], {});
    assert Holder(t.eps, e.verb, e.path) == None;
    assert Outcome(t, Write(None, e)) == Ok(Table(t.packs, map[1 := e], 2));
    left := Importing(Reading(base), [ROUTE][1..], SeenAfter(Reading(base), {}, ROUTE));
  }

  // -------- pack edits --------

  const NO_INPUT := PackInput(None, None, None, None, None, None)

  /** The pack is moved to another base. */
  const REBASE := EditPack(0, NO_INPUT.(basePath := Some("/b")), [])

  /** Only its name is changed. */
  const RENAME := EditPack(0, NO_INPUT.(name := Some("q")), [])

  const REBASED := PACK.(basePath := "/b")

  const RENAMED := PACK.(name := "q")

  lemma EditedPacks()
    ensures EditedPack(PACK, REBASE.input) == Ok(REBASED) && EditedPack(PACK, RENAME.input) == Ok(RENAMED)
  {
    BaseIsNormal();
    TrimmedIsFixed("q");
    hide SegmentsOf, TrimSpace;
  }

  /** The three queries of the rebase, in tables without endpoints. */
  lemma RebaseReads(ms: seq<Move>, pending: seq<Pending>)
    requires Reached(ms, World(Packed("/a"), pending))
    ensures Reached(ms + [Begin(REBASE), Read(|pending|), Read(|pending|), Read(|pending|)],
                    World(Packed("/a"), pending + [Ready(PutPack(0, REBASED, []), "/a")]))
  {
    EditedPacks();
    NothingIndexed();
    hide Reached, EditedPack, OwnOf;
    var t, n := Packed("/a"), |pending|;
    var q1, q2, q3 := FindPack(REBASE), ListOwn(REBASE, REBASED, "/a"), ListAll(REBASE, REBASED, "/a", map[]);
    var ready := Ready(PutPack(0, REBASED, []), "/a");
    Step1(ms, World(t, pending), Begin(REBASE), World(t, pending + [q1]));
    assert Answer(t, q1) == Some(q2) && (pending + [q1])[n := q2] == pending + [q2];
    Step1(ms + [Begin(REBASE)], World(t, pending + [q1]), Read(n), World(t, pending + [q2]));
    assert Answer(t, q2) == Some(q3) && (pending + [q2])[n := q3] == pending + [q3];
    Step1(ms + [Begin(REBASE)] + [Read(n)], World(t, pending + [q2]), Read(n), World(t, pending + [q3]));
    assert Answer(t, q3) == Some(ready) && (pending + [q3])[n := ready] == pending + [ready];
    Step1(ms + [Begin(REBASE)] + [Read(n)] + [Read(n)], World(t, pending + [q3]), Read(n), World(t, pending + [ready]));
    assert ms + [Begin(REBASE), Read(n), Read(n), Read(n)] == ms + [Begin(REBASE)] + [Read(n)] + [Read(n)] + [Read(n)];
  }

  /** The transaction of either edit, which has no rows to move. */
  lemma PutPackEnds(t: Table, pack: Pack)
    requires t.packs.Keys == {0}
    ensures Take(t, PutPack(0, pack, [])) == t.(packs := map[0 := pack])
  {
    assert !PackSlugTaken(t.packs, pack.slug, Some(0));
    assert t.packs[0 := pack] == map[0 := pack];
  }

  const MISSING := PACKING + [Begin(REBASE), Read(0), Read(0), Read(0)] + IMPORTING

  /**
    A rebase lists its pack, an import adds a route, the rebase is carried out: the
    route stays where it was, outside of the new base.
   */
  lemma RebaseMissesEndpoint()
    ensures ProperRun(MISSING + [Finish(0)])
    ensures var t := AfterMoves(NO_ROUTES, MISSING + [Finish(0)]).t;
            && t.packs == map[0 := REBASED] && t.eps.Keys == {1} && t.eps[1].packId == 0
            && Some(t.eps[1].path) == Compose("/a", "/x")
            && !UnderBase(t.eps[1].path, "/b") && !GoodTable(t.packs, t.eps, t.nextId)
  {
    PackingReaches();
    ComposedPaths();
    hide Reached, Compose, UnderBase, Take;
    RebaseReads(PACKING, []);
    var ready := Ready(PutPack(0, REBASED, []), "/a");
    assert [] + [ready] == [ready];
    var e, left := ImportingReaches(PACKING + [Begin(REBASE), Read(0), Read(0), Read(0)], ready, PACK);
    assert Packed("/a").packs == map[0 := PACK];
    PutPackEnds(Table(map[0 := PACK], map[1 := e], 2), REBASED);
    assert Replaced([ready, left], 0, None) == [left];
    var t := Table(map[0 := REBASED], map[1 := e], 2);
    Step1(MISSING, World(Table(map[0 := PACK], map[1 := e], 2), [ready, left]), Finish(0), World(t, [left]));
    ReachedIs(MISSING + [Finish(0)], World(t, [left]));
    assert !GoodTable(t.packs, t.eps, t.nextId) by { OutsideIsNotGood(t, 1); }
  }

  lemma ReachedIs(ms: seq<Move>, w: World)
    requires Reached(ms, w)
    ensures ProperRun(ms) && AfterMoves(NO_ROUTES, ms) == w
  {
  }

  lemma OutsideIsNotGood(t: Table, id: Id)
    requires id in t.eps && t.eps[id].packId in t.packs
    requires !UnderBase(t.eps[id].path, t.packs[t.eps[id].packId].basePath)
    ensures !GoodTable(t.packs, t.eps, t.nextId)
  {
    assert !GoodEndpoint(t.eps[id], t.packs);
  }

  const RENAMING := PACKING + [Begin(RENAME), Read(0)]

  const STALE := RENAMING + [Begin(REBASE), Read(1), Read(1), Read(1), Finish(1)] + IMPORTING

  lemma RenamingReaches()
    ensures Reached(RENAMING, World(Packed("/a"), [Ready(PutPack(0, RENAMED, []), "/a")]))
  {
    PackingReaches();
    EditedPacks();
    hide Reached, EditedPack;
    var q, ready := FindPack(RENAME), Ready(PutPack(0, RENAMED, []), "/a");
    Step1(PACKING, World(Packed("/a"), []), Begin(RENAME), World(Packed("/a"), [q]));
    assert Answer(Packed("/a"), q) == Some(ready) && [q][0 := ready] == [ready];
    Step1(PACKING + [Begin(RENAME)], World(Packed("/a"), [q]), Read(0), World(Packed("/a"), [ready]));
    assert RENAMING == PACKING + [Begin(RENAME)] + [Read(0)];
  }

  /**
    A change of the pack's name is overtaken by a rebase and an import: it writes the
    whole pack, and with it the old base back, under which the new route is not.
   */
  lemma RenameRestoresOldBase()
    ensures ProperRun(STALE + [Finish(0)])
    ensures var t := AfterMoves(NO_ROUTES, STALE + [Finish(0)]).t;
            && t.packs == map[0 := RENAMED] && t.eps.Keys == {1} && t.eps[1].packId == 0
            && Some(t.eps[1].path) == Compose("/b", "/x")
            && !UnderBase(t.eps[1].path, "/a") && !GoodTable(t.packs, t.eps, t.nextId)
  {
    RenamingReaches();
    ComposedPaths();
    hide Reached, Compose, UnderBase, Take;
    var name, base := Ready(PutPack(0, RENAMED, []), "/a"), Ready(PutPack(0, REBASED, []), "/a");
    RebaseReads(RENAMING, [name]);
    var ms := RENAMING + [Begin(REBASE), Read(1), Read(1), Read(1)];
    assert [name] + [base] == [name, base] && Replaced([name, base], 1, None) == [name];
    PutPackEnds(Packed("/a"), REBASED);
    Step1(ms, World(Packed("/a"), [name, base]), Finish(1), World(Table(map[0 := REBASED], map[], 1), [name]));
    var e, left := ImportingReaches(ms + [Finish(1)], name, REBASED);
    assert STALE == ms + [Finish(1)] + IMPORTING;
    PutPackEnds(Table(map[0 := REBASED], map[1 := e], 2), RENAMED);
    assert Replaced([name, left], 0, None) == [left];
    var t := Table(map[0 := RENAMED], map[1 := e], 2);
    Step1(STALE, World(Table(map[0 := REBASED], map[1 := e], 2), [name, left]), Finish(0), World(t, [left]));
    ReachedIs(STALE + [Finish(0)], World(t, [left]));
    assert !GoodTable(t.packs, t.eps, t.nextId) by { OutsideIsNotGood(t, 1); }
  }
}
