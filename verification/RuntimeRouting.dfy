/**
  Finding the endpoint of a request: the path helpers and the resolver of
  apps/api/internal/core/usecase/runtime_gateway_service.go.
 */
module RuntimeRouting {
  import opened Wrappers
  import opened Text
  import opened Sorting
  import Seqs

  // -------- the segments of a path --------

  /** The pieces that are not blank, trimmed. */
  function Words(parts: seq<string>): seq<string> {
    if parts == [] then []
    else if TrimSpace(parts[0]) == "" then Words(parts[1..])
    else [TrimSpace(parts[0])] + Words(parts[1..])
  }

  /** The segments of any string, as a reader of the path would list them. */
  function PathWords(path: string): seq<string> {
    Words(Split(path))
  }

  /** What normalizeRuntimePath returns. */
  function RuntimePath(value: string): string {
    var trimmed := TrimSpace(value);
    if trimmed == "" then "/"
    else
      var collapsed := Collapse(if trimmed[0] == '/' then trimmed else "/" + trimmed);
      if collapsed != "/" && collapsed != "" && collapsed[|collapsed| - 1] == '/' then collapsed[..|collapsed| - 1]
      else collapsed
  }

  /** normalizeRuntimePath. */
  method NormalizeRuntimePath(value: string) returns (r: string)
    ensures r == RuntimePath(value)
  {
    r := TrimSpace(value);
    if r == "" {
      return "/";
    }
    if r[0] != '/' {
      r := "/" + r;
    }
    r := CollapseSlashes(r);
    if r != "/" && r != "" && r[|r| - 1] == '/' {
      r := r[..|r| - 1];
    }
  }

  /** What splitPathSegments returns for a normalised path. */
  function Segments(path: string): seq<string> {
    if path == "/" then [] else PathWords(if path != "" && path[0] == '/' then path[1..] else path)
  }

  /** splitPathSegments. */
  method SplitPathSegments(path: string) returns (r: seq<string>)
    ensures r == Segments(path)
  {
    r := [];
    if path == "/" {
      return;
    }
    hide TrimSpace;
    var parts := Split(if path != "" && path[0] == '/' then path[1..] else path);
    for i := 0 to |parts|
      invariant r + Words(parts[i..]) == Words(parts)
    {
      var trimmed := TrimSpace(parts[i]);
      assert parts[i..][1..] == parts[i + 1..];
      if trimmed != "" {
        Seqs.Assoc(r, [trimmed], Words(parts[i + 1..]));
        r := r + [trimmed];
      }
    }
    Seqs.EmptyRight(r);
  }

  lemma {:induction false} WordsAppend(a: seq<string>, b: seq<string>)
    ensures Words(a + b) == Words(a) + Words(b)
  {
    hide TrimSpace;
    if a == [] {
      Seqs.EmptyLeft(b);
    } else {
      assert (a + b)[1..] == a[1..] + b;
      WordsAppend(a[1..], b);
    }
  }

  lemma {:induction false} WordsSkipEmpty(parts: seq<string>)
    ensures Words(NonEmpty(parts)) == Words(parts)
  {
    if parts != [] {
      WordsSkipEmpty(parts[1..]);
      assert TrimSpace("") == "";
      hide TrimSpace;
      if parts[0] != "" { Seqs.Cons(parts[0], NonEmpty(parts[1..])); }
    }
  }

  lemma PathWordsOfPieces(s: string)
    ensures PathWords(s) == Words(Pieces(s))
  {
    WordsSkipEmpty(Split(s));
  }

  lemma PathWordsSpaceBefore(c: char, s: string)
    requires IsSpace(c)
    ensures PathWords([c] + s) == PathWords(s)
  {
    var rest := Split(s);
    assert ([c] + s)[1..] == s;
    Seqs.Cons([c] + rest[0], rest[1..]);
    TrimSpaceCons(c, rest[0]);
    hide TrimSpace, IsSpace;
  }

  lemma PathWordsSpaceBehind(s: string, c: char)
    requires IsSpace(c)
    ensures PathWords(s + [c]) == PathWords(s)
  {
    SplitSnoc(s, c);
    var p := Split(s);
    var front, last := p[..|p| - 1], p[|p| - 1];
    TrimSpaceSnoc(last, c);
    hide TrimSpace, IsSpace;
    Seqs.Unsnoc(p);
    WordsAppend(front, [last]);
    WordsAppend(front, [last + [c]]);
  }

  lemma {:induction false} PathWordsTrimLeft(s: string)
    ensures PathWords(TrimLeft(s)) == PathWords(s)
  {
    hide PathWords;
    if s != "" && IsSpace(s[0]) {
      PathWordsTrimLeft(s[1..]);
      PathWordsSpaceBefore(s[0], s[1..]);
      Seqs.Uncons(s);
    }
  }

  lemma {:induction false} PathWordsTrimRight(s: string)
    ensures PathWords(TrimRight(s)) == PathWords(s)
  {
    hide PathWords;
    if s != "" && IsSpace(s[|s| - 1]) {
      PathWordsTrimRight(s[..|s| - 1]);
      PathWordsSpaceBehind(s[..|s| - 1], s[|s| - 1]);
      Seqs.Unsnoc(s);
    }
  }

  lemma PathWordsSlashBefore(s: string)
    ensures PathWords("/" + s) == PathWords(s)
  {
    PathWordsOfPieces("/" + s);
    PathWordsOfPieces(s);
    PiecesLeadingSlash(s);
  }

  /** Normalising a path keeps its segments. */
  lemma RuntimePathKeepsWords(p: string)
    ensures PathWords(RuntimePath(p)) == PathWords(p)
    ensures RuntimePath(p) != "" && RuntimePath(p)[0] == '/'
  {
    var trimmed := TrimSpace(p);
    PathWordsTrimLeft(p);
    PathWordsTrimRight(TrimLeft(p));
    assert PathWords(trimmed) == PathWords(p);
    hide PathWords;
    PathWordsSlashBefore("");
    if trimmed == "" {
      assert "/" + "" == "/";
    } else {
      var slashed := if trimmed[0] == '/' then trimmed else "/" + trimmed;
      PathWordsSlashBefore(trimmed);
      var collapsed := Collapse(slashed);
      CollapseHead(slashed);
      PathWordsOfPieces(slashed);
      PathWordsOfPieces(collapsed);
      PiecesCollapse(slashed);
      if collapsed != "/" && collapsed[|collapsed| - 1] == '/' {
        var r := collapsed[..|collapsed| - 1];
        Seqs.Unsnoc(collapsed);
        PiecesTrailingSlash(r);
        PathWordsOfPieces(r);
      }
    }
  }

  /** For every string, the segments the gateway works with are its non-blank trimmed pieces. */
  lemma SegmentsOfRuntimePath(p: string)
    ensures Segments(RuntimePath(p)) == PathWords(p)
  {
    RuntimePathKeepsWords(p);
    var n := RuntimePath(p);
    hide RuntimePath, PathWords;
    PathWordsSlashBefore(n[1..]);
    assert "/" + n[1..] == n;
    if n == "/" { assert PathWords("/") == [] by { EmptyPathWords(); } }
  }

  lemma EmptyPathWords()
    ensures PathWords("/") == []
  {
    PathWordsSlashBefore("");
    assert "/" + "" == "/";
  }

  method PathSegments(path: string) returns (r: seq<string>)
    ensures r == PathWords(path)
  {
    hide RuntimePath, Segments, PathWords;
    var normal := NormalizeRuntimePath(path);
    r := SplitPathSegments(normal);
    SegmentsOfRuntimePath(path);
  }

  // -------- template segments --------

  /** pathTemplateParamName: the name in ":name" or "{name}", "" for a literal segment. */
  function ParamName(value: string): string {
    var trimmed := TrimSpace(value);
    if trimmed == "" then ""
    else if trimmed[0] == ':' then TrimSpace(trimmed[1..])
    else if trimmed[0] == '{' && trimmed[|trimmed| - 1] == '}' then TrimSpace(trimmed[1..|trimmed| - 1])
    else ""
  }

  /** isTemplateSegment. */
  predicate IsTemplate(segment: string) {
    ParamName(segment) != ""
  }

  /** A template segment is ":name" or "{name}" with a name that is not blank, and this is its trimmed name. */
  lemma TemplateIff(segment: string)
    ensures IsTemplate(segment)
            <==> exists n :: TrimSpace(n) != ""
                             && (TrimSpace(segment) == ":" + n || TrimSpace(segment) == "{" + n + "}")
    ensures forall n :: TrimSpace(segment) == ":" + n || TrimSpace(segment) == "{" + n + "}" ==>
                          ParamName(segment) == TrimSpace(n)
  {
    var trimmed := TrimSpace(segment);
    hide TrimSpace;
    if trimmed != "" && trimmed[0] == ':' {
      assert trimmed == ":" + trimmed[1..];
    } else if |trimmed| >= 2 && trimmed[0] == '{' && trimmed[|trimmed| - 1] == '}' {
      assert trimmed == "{" + trimmed[1..|trimmed| - 1] + "}";
    }
    forall n | trimmed == ":" + n || trimmed == "{" + n + "}" ensures ParamName(segment) == TrimSpace(n) {
      if trimmed == ":" + n {
        assert trimmed[1..] == n;
      } else {
        assert trimmed[1..|trimmed| - 1] == n;
      }
    }
  }

  ghost predicate Matches(template: seq<string>, request: seq<string>) {
    && |template| == |request|
    && forall i :: 0 <= i < |template| ==> template[i] == request[i] || IsTemplate(template[i])
  }

  /** matchesPathTemplate. */
  method MatchesPathTemplate(templatePath: string, requestPath: string) returns (r: bool)
    ensures r <==> Matches(PathWords(templatePath), PathWords(requestPath))
  {
    hide PathWords, IsTemplate;
    var template := PathSegments(templatePath);
    var request := PathSegments(requestPath);
    if |template| != |request| {
      return false;
    }
    for i := 0 to |template|
      invariant forall j :: 0 <= j < i ==> template[j] == request[j] || IsTemplate(template[j])
    {
      if template[i] != request[i] && !IsTemplate(template[i]) {
        return false;
      }
    }
    return true;
  }

  /** The value of every parameter name: that of its last place in the template. */
  ghost predicate LastValues(params: map<string, string>, template: seq<string>, request: seq<string>)
    requires |template| == |request|
  {
    && (forall i :: 0 <= i < |template| && IsTemplate(template[i]) ==> ParamName(template[i]) in params)
    && (forall name :: name in params ==> exists i: nat :: LastPlace(template, name, i) && params[name] == request[i])
  }

  ghost predicate LastPlace(template: seq<string>, name: string, i: nat) {
    && i < |template| && name != "" && ParamName(template[i]) == name
    && forall j :: i < j < |template| ==> ParamName(template[j]) != name
  }

  /** extractPathParams. */
  method ExtractPathParams(templatePath: string, requestPath: string) returns (params: map<string, string>)
    ensures var template, request := PathWords(templatePath), PathWords(requestPath);
            if |template| == |request| then LastValues(params, template, request) else params == map[]
  {
    hide PathWords, ParamName;
    var template := PathSegments(templatePath);
    var request := PathSegments(requestPath);
    params := map[];
    if |template| != |request| {
      return;
    }
    for i := 0 to |template|
      invariant LastValues(params, template[..i], request[..i])
    {
      var name := ParamName(template[i]);
      LastValuesGrow(params, template, request, i);
      if name != "" {
        params := params[name := request[i]];
      }
    }
    assert template[..|template|] == template && request[..|request|] == request;
  }

  lemma LastValuesGrow(params: map<string, string>, template: seq<string>, request: seq<string>, n: nat)
    requires |template| == |request| && n < |template|
    requires LastValues(params, template[..n], request[..n])
    ensures var name := ParamName(template[n]);
            LastValues(if name == "" then params else params[name := request[n]], template[..n + 1], request[..n + 1])
  {
    hide ParamName;
    var name := ParamName(template[n]);
    var t, q := template[..n + 1], request[..n + 1];
    var params' := if name == "" then params else params[name := request[n]];
    forall x | x in params' ensures exists i: nat :: LastPlace(t, x, i) && params'[x] == q[i] {
      if x == name && name != "" {
        assert LastPlace(t, x, n);
      } else {
        var i: nat :| LastPlace(template[..n], x, i) && params[x] == request[..n][i];
        assert LastPlace(t, x, i);
      }
    }
  }

  /** The template with its parameters filled in. */
  function Substitute(template: seq<string>, params: map<string, string>): (r: seq<string>)
    ensures |r| == |template|
    ensures forall i :: 0 <= i < |r| ==>
              r[i] == if IsTemplate(template[i]) && ParamName(template[i]) in params then params[ParamName(template[i])]
                      else template[i]
  {
    if template == [] then []
    else
      var name := ParamName(template[0]);
      [if name != "" && name in params then params[name] else template[0]] + Substitute(template[1..], params)
  }

  /** A parameter name that occurs twice meets the same request segment both times. */
  ghost predicate RepeatsAgree(template: seq<string>, request: seq<string>)
    requires |template| == |request|
  {
    forall i, j :: 0 <= i < j < |template| && IsTemplate(template[i])
                   && ParamName(template[i]) == ParamName(template[j]) ==>
      request[i] == request[j]
  }

  /**
    Filling the extracted parameters into a matching template gives the request
    back exactly if repeated names agree. Distinct names always do.
   */
  lemma ExtractThenSubstituteIff(template: seq<string>, request: seq<string>, params: map<string, string>)
    requires Matches(template, request) && LastValues(params, template, request)
    ensures Substitute(template, params) == request <==> RepeatsAgree(template, request)
  {
    hide ParamName, Substitute;
    var s := Substitute(template, params);
    if s == request {
      forall i, j | 0 <= i < j < |template| && IsTemplate(template[i])
             && ParamName(template[i]) == ParamName(template[j])
        ensures request[i] == request[j]
      {
        assert s[i] == s[j];
      }
    }
    if RepeatsAgree(template, request) {
      forall i | 0 <= i < |template| ensures s[i] == request[i] {
        FilledIn(template, request, params, i);
      }
      assert s == request;
    }
  }

  lemma FilledIn(template: seq<string>, request: seq<string>, params: map<string, string>, i: nat)
    requires Matches(template, request) && LastValues(params, template, request) && RepeatsAgree(template, request)
    requires i < |template|
    ensures Substitute(template, params)[i] == request[i]
  {
    hide ParamName, Substitute;
    var name := ParamName(template[i]);
    if name != "" {
      var k: nat :| LastPlace(template, name, k) && params[name] == request[k];
      assert i <= k;
      hide LastPlace, LastValues, Matches;
      if i < k { assert request[i] == request[k]; }
    }
  }

  // -------- specificity --------

  function Literals(segments: seq<string>): nat {
    if segments == [] then 0
    else Literals(segments[..|segments| - 1]) + if IsTemplate(segments[|segments| - 1]) then 0 else 1
  }

  /** Literal segments are counted by their places. */
  lemma {:induction false} LiteralsArePlaces(segments: seq<string>)
    ensures Literals(segments) == |set i | 0 <= i < |segments| && !IsTemplate(segments[i])|
  {
    hide IsTemplate;
    if segments != [] {
      var front, n := segments[..|segments| - 1], |segments| - 1;
      LiteralsArePlaces(front);
      var a, b := set i | 0 <= i < |front| && !IsTemplate(front[i]),
                  set i | 0 <= i < |segments| && !IsTemplate(segments[i]);
      assert b == if IsTemplate(segments[n]) then a else a + {n};
    }
  }

  function Score(path: string): nat {
    10 * Literals(PathWords(path)) + |PathWords(path)|
  }

  /** routeSpecificityScore. */
  method RouteSpecificityScore(path: string) returns (score: nat)
    ensures score == Score(path)
  {
    hide PathWords, IsTemplate;
    var segments := PathSegments(path);
    score := 0;
    for i := 0 to |segments|
      invariant score == 10 * Literals(segments[..i])
    {
      assert segments[..i + 1][..i] == segments[..i];
      if !IsTemplate(segments[i]) {
        score := score + 10;
      }
    }
    assert segments[..|segments|] == segments;
    score := score + |segments|;
  }

  /** Among the templates that match one request, the score orders by the number of literal segments. */
  lemma ScoreCountsLiterals(a: string, b: string, request: string)
    requires Matches(PathWords(a), PathWords(request)) && Matches(PathWords(b), PathWords(request))
    ensures Score(a) < Score(b) <==> Literals(PathWords(a)) < Literals(PathWords(b))
  {
    hide PathWords, Literals;
  }

  // -------- the resolver --------

  datatype Route = Route(id: nat, verb: string, path: string)

  /** The route has the method, and its path is the requested one. */
  predicate Exact(route: Route, verb: string, requestPath: string) {
    ToUpper(TrimSpace(route.verb)) == verb && RuntimePath(route.path) == requestPath
  }

  /** The route has the method, and its path matches as a template. */
  ghost predicate Applies(route: Route, verb: string, requestPath: string) {
    ToUpper(TrimSpace(route.verb)) == verb && Matches(PathWords(route.path), PathWords(requestPath))
  }

  /** An exact route also matches as a template. */
  lemma ExactApplies(route: Route, verb: string, requestPath: string)
    requires Exact(route, verb, requestPath)
    ensures Applies(route, verb, requestPath)
  {
    RuntimePathKeepsWords(route.path);
    hide PathWords, RuntimePath, IsTemplate, TrimSpace, ToUpper;
  }

  /** Places in the list are in order. */
  ghost predicate Increasing(places: seq<nat>) {
    forall i, j :: 0 <= i < j < |places| ==> places[i] < places[j]
  }

  lemma {:induction false} ClassHeadIsFirst(places: seq<nat>, key: nat -> int, k: int)
    requires Increasing(places) && Class(places, key, k) != []
    ensures Class(places, key, k)[0] in places
    ensures forall x :: x in places && key(x) == k ==> Class(places, key, k)[0] <= x
  {
    if key(places[0]) != k {
      ClassHeadIsFirst(places[1..], key, k);
      assert places == [places[0]] + places[1..];
    }
  }

  /** A stable sort puts in front the least key, and of those the first place. */
  lemma HeadOfStableSort(places: seq<nat>, key: nat -> int)
    requires Increasing(places) && places != []
    ensures var s := StableSort(places, key);
            && s != [] && s[0] in places
            && (forall x :: x in places ==> key(s[0]) <= key(x))
            && (forall x :: x in places && key(x) == key(s[0]) ==> s[0] <= x)
  {
    StableSortFacts(places, key);
    var s := StableSort(places, key);
    var k := key(s[0]);
    assert Class(s, key, k)[0] == s[0];
    assert Class(s, key, k) == Class(places, key, k);
    ClassHeadIsFirst(places, key, k);
    forall x | x in places ensures key(s[0]) <= key(x) {
      assert x in s;
    }
  }

  /** A matching template with the most literal segments, the first of these in the list. */
  ghost predicate BestTemplate(routes: seq<Route>, verb: string, requestPath: string, i: nat) {
    && i < |routes| && Applies(routes[i], verb, requestPath)
    && (forall j :: 0 <= j < |routes| && Applies(routes[j], verb, requestPath) ==>
          LiteralsOf(routes[j]) <= LiteralsOf(routes[i]))
    && (forall j :: 0 <= j < i && Applies(routes[j], verb, requestPath) ==>
          LiteralsOf(routes[j]) < LiteralsOf(routes[i]))
  }

  ghost function LiteralsOf(route: Route): nat {
    Literals(PathWords(route.path))
  }

  function Weight(routes: seq<Route>, i: nat): int {
    var score: int := if i < |routes| then Score(routes[i].path) else 0;
    -score
  }

  /** The sort key of a candidate: routes of higher score come first. */
  function ScoreKey(routes: seq<Route>): nat -> int {
    (i: nat) => Weight(routes, i)
  }

  lemma HeadIsBestTemplate(routes: seq<Route>, verb: string, requestPath: string, candidates: seq<nat>)
    requires Increasing(candidates) && candidates != []
    requires forall i :: i in candidates <==> 0 <= i < |routes| && Applies(routes[i], verb, requestPath)
    ensures var s := StableSort(candidates, ScoreKey(routes)); s != [] && BestTemplate(routes, verb, requestPath, s[0])
  {
    var key := ScoreKey(routes);
    HeadOfStableSort(candidates, key);
    var h := StableSort(candidates, key)[0];
    hide StableSort, PathWords, TrimSpace, ToUpper, Score, Literals, IsTemplate;
    assert h in candidates;
    forall j | 0 <= j < |routes| && Applies(routes[j], verb, requestPath)
      ensures LiteralsOf(routes[j]) <= LiteralsOf(routes[h])
      ensures j < h ==> LiteralsOf(routes[j]) < LiteralsOf(routes[h])
    {
      assert j in candidates && key(h) <= key(j);
      ScoreCountsLiterals(routes[h].path, routes[j].path, requestPath);
      ScoreCountsLiterals(routes[j].path, routes[h].path, requestPath);
    }
  }

  /**
    The place of the route that answers, over the routes whose method, trimmed and in
    upper case, is that of the request. Its path matches. If a path is the requested
    one, the answer is the first such route; else no matching path has more literal
    segments, and none before it as many. None only if no path matches.
   */
  ghost predicate Answers(routes: seq<Route>, verb: string, requestPath: string, r: Option<nat>) {
    && (r.Some? ==>
          && r.value < |routes| && ToUpper(TrimSpace(routes[r.value].verb)) == verb
          && Matches(PathWords(routes[r.value].path), PathWords(requestPath)))
    && (forall i: nat :: i < |routes| && ToUpper(TrimSpace(routes[i].verb)) == verb
                         && RuntimePath(routes[i].path) == requestPath ==>
          r.Some? && r.value <= i && RuntimePath(routes[r.value].path) == requestPath)
    && (forall i: nat :: i < |routes| && ToUpper(TrimSpace(routes[i].verb)) == verb
                         && Matches(PathWords(routes[i].path), PathWords(requestPath)) ==>
          && r.Some?
          && (RuntimePath(routes[r.value].path) == requestPath
              || LiteralsOf(routes[i]) < LiteralsOf(routes[r.value])
              || (LiteralsOf(routes[i]) == LiteralsOf(routes[r.value]) && r.value <= i)))
  }

  /** There is one answer. */
  lemma AnswerIsUnique(routes: seq<Route>, verb: string, requestPath: string, r: Option<nat>, r': Option<nat>)
    requires Answers(routes, verb, requestPath, r) && Answers(routes, verb, requestPath, r')
    ensures r == r'
  {
    hide PathWords, RuntimePath, Matches, TrimSpace, ToUpper, LiteralsOf;
  }

  /** Where a place of the list is when the route at k is taken out. */
  function Shifted(r: Option<nat>, k: nat): Option<nat> {
    if r.None? || r.value < k then r else if r.value == k then None else Some(r.value - 1)
  }

  /** A route of another method never changes the answer, wherever it stands in the list. */
  lemma OtherMethodsDoNotMatter(routes: seq<Route>, k: nat, verb: string, requestPath: string, r: Option<nat>)
    requires k < |routes| && ToUpper(TrimSpace(routes[k].verb)) != verb
    ensures Answers(routes, verb, requestPath, r)
            <==> r != Some(k) && Answers(routes[..k] + routes[k + 1..], verb, requestPath, Shifted(r, k))
  {
    hide PathWords, RuntimePath, Matches, TrimSpace, ToUpper, LiteralsOf, Answers, Shifted;
    var rest := routes[..k] + routes[k + 1..];
    if Answers(routes, verb, requestPath, r) { OtherMethodRemoved(routes, k, verb, requestPath, r); }
    if r != Some(k) && Answers(rest, verb, requestPath, Shifted(r, k)) {
      OtherMethodAdded(routes, k, verb, requestPath, r);
    }
  }

  lemma OtherMethodRemoved(routes: seq<Route>, k: nat, verb: string, requestPath: string, r: Option<nat>)
    requires k < |routes| && ToUpper(TrimSpace(routes[k].verb)) != verb && Answers(routes, verb, requestPath, r)
    ensures r != Some(k) && Answers(routes[..k] + routes[k + 1..], verb, requestPath, Shifted(r, k))
  {
    hide PathWords, RuntimePath, Matches, TrimSpace, ToUpper, LiteralsOf;
    var rest, r' := routes[..k] + routes[k + 1..], Shifted(r, k);
    forall i: nat | i < |rest| ensures var j := if i < k then i else i + 1; j < |routes| && rest[i] == routes[j] {
    }
  }

  lemma OtherMethodAdded(routes: seq<Route>, k: nat, verb: string, requestPath: string, r: Option<nat>)
    requires k < |routes| && ToUpper(TrimSpace(routes[k].verb)) != verb && r != Some(k)
    requires Answers(routes[..k] + routes[k + 1..], verb, requestPath, Shifted(r, k))
    ensures Answers(routes, verb, requestPath, r)
  {
    hide PathWords, RuntimePath, Matches, TrimSpace, ToUpper, LiteralsOf;
    var rest, r' := routes[..k] + routes[k + 1..], Shifted(r, k);
    forall i: nat | i < |routes| && i != k
      ensures var j := if i < k then i else i - 1; 0 <= j < |rest| && rest[j] == routes[i]
    {
    }
  }

  lemma BestTemplateAnswers(routes: seq<Route>, verb: string, requestPath: string, r: nat)
    requires BestTemplate(routes, verb, requestPath, r)
    requires forall i :: 0 <= i < |routes| ==> !Exact(routes[i], verb, requestPath)
    ensures Answers(routes, verb, requestPath, Some(r))
  {
    hide PathWords, RuntimePath, Matches, TrimSpace, ToUpper, LiteralsOf;
    forall i: nat | i < |routes|
      ensures Exact(routes[i], verb, requestPath)
              == (ToUpper(TrimSpace(routes[i].verb)) == verb && RuntimePath(routes[i].path) == requestPath)
    {
    }
    forall i: nat | i < |routes| && ToUpper(TrimSpace(routes[i].verb)) == verb
                    && Matches(PathWords(routes[i].path), PathWords(requestPath))
      ensures LiteralsOf(routes[i]) < LiteralsOf(routes[r])
              || (LiteralsOf(routes[i]) == LiteralsOf(routes[r]) && r <= i)
    {
      assert Applies(routes[i], verb, requestPath);
    }
  }

  lemma FirstExactAnswers(routes: seq<Route>, verb: string, requestPath: string, r: nat)
    requires r < |routes| && Exact(routes[r], verb, requestPath)
    requires forall i :: 0 <= i < r ==> !Exact(routes[i], verb, requestPath)
    ensures Answers(routes, verb, requestPath, Some(r))
  {
    ExactApplies(routes[r], verb, requestPath);
    hide PathWords, RuntimePath, Matches, TrimSpace, ToUpper, LiteralsOf;
    forall i: nat | i < r
      ensures Exact(routes[i], verb, requestPath)
              == (ToUpper(TrimSpace(routes[i].verb)) == verb && RuntimePath(routes[i].path) == requestPath)
    {
    }
  }

  lemma NothingAnswers(routes: seq<Route>, verb: string, requestPath: string)
    requires forall i :: 0 <= i < |routes| ==> !Applies(routes[i], verb, requestPath)
    ensures Answers(routes, verb, requestPath, None)
  {
    forall i: nat | i < |routes|
      ensures ToUpper(TrimSpace(routes[i].verb)) == verb && RuntimePath(routes[i].path) == requestPath ==>
                Applies(routes[i], verb, requestPath)
    {
      if Exact(routes[i], verb, requestPath) { ExactApplies(routes[i], verb, requestPath); }
    }
    hide PathWords, RuntimePath, Matches, TrimSpace, ToUpper;
    forall i: nat | i < |routes|
      ensures Applies(routes[i], verb, requestPath)
              == (ToUpper(TrimSpace(routes[i].verb)) == verb
                  && Matches(PathWords(routes[i].path), PathWords(requestPath)))
    {
    }
  }

  /** resolveRuntimeEndpoint: the place in the list of the route that answers. */
  method ResolveRuntimeEndpoint(routes: seq<Route>, verb: string, requestPath: string) returns (r: Option<nat>)
    ensures Answers(routes, verb, requestPath, r)
    ensures r.Some? ==> r.value < |routes| && ToUpper(TrimSpace(routes[r.value].verb)) == verb
  {
    hide Matches, RuntimePath, TrimSpace, ToUpper, StableSort, PathWords;
    var candidates: seq<nat> := [];
    for i := 0 to |routes|
      invariant Increasing(candidates)
      invariant forall j :: j in candidates <==> 0 <= j < i && Applies(routes[j], verb, requestPath)
      invariant forall j :: 0 <= j < i ==> !Exact(routes[j], verb, requestPath)
    {
      if ToUpper(TrimSpace(routes[i].verb)) == verb {
        var normal := NormalizeRuntimePath(routes[i].path);
        if normal == requestPath {
          FirstExactAnswers(routes, verb, requestPath, i);
          return Some(i);
        }
        var matches := MatchesPathTemplate(routes[i].path, requestPath);
        if matches {
          assert forall j :: 0 <= j < |candidates| ==> candidates[j] in candidates;
          candidates := candidates + [i];
        }
      }
    }
    if |candidates| == 0 {
      NothingAnswers(routes, verb, requestPath);
      return None;
    }
    HeadIsBestTemplate(routes, verb, requestPath, candidates);
    BestTemplateAnswers(routes, verb, requestPath, StableSort(candidates, ScoreKey(routes))[0]);
    return Some(StableSort(candidates, ScoreKey(routes))[0]);
  }
}
