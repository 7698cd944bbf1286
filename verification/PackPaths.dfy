/**
  Composing endpoint paths with the base path of a pack, and taking the base
  path off again (apps/api/internal/core/usecase/integration_service.go).
 */
module PackPaths {
  import opened Wrappers
  import opened Text
  import opened PathTemplates
  import Seqs

  // -------- the code, on strings --------

  /** The path is the base itself or continues it with a slash. */
  predicate StartsAtBase(path: string, base: string) {
    path == base || base + "/" <= path
  }

  function TrimPrefix(s: string, prefix: string): string {
    if prefix <= s then s[|prefix|..] else s
  }

  /** composePackEndpointPath. */
  function Compose(basePath: string, endpointPath: string): Option<string> {
    match (NormalizePath(basePath), NormalizePath(endpointPath))
    case (Some(base), Some(path)) =>
      if base == "/" then Some(path)
      else if StartsAtBase(path, base) then Some(path)
      else
        var relative := TrimPrefix(path, "/");
        if relative == "" then Some(base) else Some(base + "/" + relative)
    case _ => None
  }

  /** includesPackBasePath. */
  predicate IncludesBase(relativePath: string, basePath: string) {
    match (NormalizePath(basePath), NormalizePath(relativePath))
    case (Some(base), Some(path)) => base != "/" && StartsAtBase(path, base)
    case _ => false
  }

  /** toRelativeEndpointPath. */
  function ToRelative(fullPath: string, basePath: string): Option<string> {
    match (NormalizePath(basePath), NormalizePath(fullPath))
    case (Some(base), Some(path)) =>
      if base == "/" then Some(path)
      else if path == base then Some("/")
      else if base + "/" <= path then Some("/" + TrimPrefix(path, base + "/"))
      else Some(path)
    case _ => None
  }

  // -------- the same on segments --------

  function ComposeSegs(base: seq<string>, path: seq<string>): seq<string> {
    if base <= path then path else base + path
  }

  function RelativeSegs(path: seq<string>, base: seq<string>): seq<string> {
    if base <= path then path[|base|..] else path
  }

  lemma {:induction false} SplitAppend(a: string, b: string)
    ensures Split(a + "/" + b) == Split(a) + Split(b)
  {
    if a == "" {
      assert a + "/" + b == "/" + b && ("/" + b)[1..] == b;
    } else {
      assert (a + "/" + b)[1..] == a[1..] + "/" + b;
      SplitAppend(a[1..], b);
      var rest := Split(a[1..]);
      var whole := a + "/" + b;
      assert whole[0] == a[0] && Split(whole[1..]) == rest + Split(b);
      if a[0] == '/' {
        Seqs.Assoc([""], rest, Split(b));
      } else {
        assert (rest + Split(b))[0] == rest[0] && (rest + Split(b))[1..] == rest[1..] + Split(b);
        Seqs.Assoc([[a[0]] + rest[0]], rest[1..], Split(b));
      }
    }
  }

  lemma RenderRoot(segs: seq<string>)
    requires GoodSegments(segs)
    ensures Render(segs) == "/" <==> segs == []
  {
    assert Render([]) == "/";
    RenderInjective(segs, []);
  }

  lemma RenderAppend(a: seq<string>, b: seq<string>)
    requires a != [] && b != []
    ensures Render(a + b) == Render(a) + "/" + Join(b)
  {
    JoinAppend(a, b);
    Seqs.Assoc("/", Join(a) + "/", Join(b));
    Seqs.Assoc("/", Join(a), "/");
  }

  lemma SplitIsSegments(segs: seq<string>)
    requires GoodSegments(segs) && segs != []
    ensures Split(Join(segs)) == segs
  {
    forall p | p in segs ensures '/' !in p { assert GoodSegment(p); }
    SplitJoin(segs);
  }

  /** Textual prefix at a slash is prefix on segments. */
  lemma StartsAtBaseIsPrefix(path: seq<string>, base: seq<string>)
    requires GoodSegments(path) && GoodSegments(base) && base != []
    ensures StartsAtBase(Render(path), Render(base)) <==> base <= path
    ensures Render(base) + "/" <= Render(path) <==> base < path
  {
    var p, b := Render(path), Render(base);
    RenderInjective(path, base);
    if base <= path {
      var rest := path[|base|..];
      assert path == base + rest;
      if rest != [] {
        RenderAppend(base, rest);
        assert p == b + "/" + Join(rest);
      } else {
        assert path == base;
      }
    }
    if b + "/" <= p {
      var rest := p[|b| + 1..];
      assert p == b + "/" + rest;
      assert p[1..] == Join(path) && b[1..] == Join(base);
      assert p[1..] == Join(base) + "/" + rest;
      SplitAppend(Join(base), rest);
      SplitIsSegments(base);
      RenderRoot(path);
      SplitIsSegments(path);
      assert path == base + Split(rest);
    }
  }

  lemma GoodParts(a: seq<string>, b: seq<string>)
    requires GoodSegments(a) && GoodSegments(b)
    ensures GoodSegments(a + b)
    ensures forall n :: 0 <= n <= |a| ==> GoodSegments(a[n..])
  {
    forall s | s in a + b ensures GoodSegment(s) {
      if s !in a { assert s in b; }
    }
    forall n | 0 <= n <= |a| ensures GoodSegments(a[n..]) {
      forall s | s in a[n..] ensures GoodSegment(s) { assert s in a; }
    }
  }

  lemma ComposeOnSegments(base: string, path: string)
    requires NormalizePath(base).Some? && NormalizePath(path).Some?
    ensures var c := ComposeSegs(SegmentsOf(base).value, SegmentsOf(path).value);
            GoodSegments(c) && Compose(base, path) == Some(Render(c))
    ensures Compose(base, path).Some? && NormalPath(Compose(base, path).value)
    ensures SegmentsOf(Compose(base, path).value) == Some(ComposeSegs(SegmentsOf(base).value, SegmentsOf(path).value))
  {
    var b, p := SegmentsOf(base).value, SegmentsOf(path).value;
    SegmentsOfAreGood(base);
    SegmentsOfAreGood(path);
    GoodParts(b, p);
    RenderRoot(b);
    RenderRoot(p);
    if b != [] {
      StartsAtBaseIsPrefix(p, b);
      if !(b <= p) {
        assert TrimPrefix(Render(p), "/") == Join(p);
        if p == [] {
          Seqs.EmptyRight(b);
        } else {
          RenderAppend(b, p);
          SplitIsSegments(p);
          assert Join(p) != "" by { JoinChars(p); }
        }
      }
    }
    SegmentsOfRender(ComposeSegs(b, p));
  }

  lemma IncludesOnSegments(path: string, base: string)
    requires NormalizePath(base).Some? && NormalizePath(path).Some?
    ensures IncludesBase(path, base)
            <==> SegmentsOf(base).value != [] && SegmentsOf(base).value <= SegmentsOf(path).value
  {
    var b, p := SegmentsOf(base).value, SegmentsOf(path).value;
    SegmentsOfAreGood(base);
    SegmentsOfAreGood(path);
    RenderRoot(b);
    if b != [] { StartsAtBaseIsPrefix(p, b); }
  }

  lemma RelativeOnSegments(path: string, base: string)
    requires NormalizePath(base).Some? && NormalizePath(path).Some?
    ensures var r := RelativeSegs(SegmentsOf(path).value, SegmentsOf(base).value);
            GoodSegments(r) && ToRelative(path, base) == Some(Render(r))
    ensures ToRelative(path, base).Some? && NormalPath(ToRelative(path, base).value)
    ensures SegmentsOf(ToRelative(path, base).value)
            == Some(RelativeSegs(SegmentsOf(path).value, SegmentsOf(base).value))
  {
    var b, p := SegmentsOf(base).value, SegmentsOf(path).value;
    SegmentsOfAreGood(base);
    SegmentsOfAreGood(path);
    GoodParts(p, b);
    RenderRoot(b);
    if b != [] {
      StartsAtBaseIsPrefix(p, b);
      RenderInjective(p, b);
      if b <= p {
        var rest := p[|b|..];
        assert p == b + rest;
        if rest == [] {
          assert Render(rest) == "/";
        } else {
          RenderAppend(b, rest);
          assert TrimPrefix(Render(p), Render(b) + "/") == Join(rest);
        }
      }
    }
    SegmentsOfRender(RelativeSegs(p, b));
  }

  // -------- the laws --------

  /** The path lies at or under the base, at a segment boundary. Every path lies under "/". */
  ghost predicate UnderBase(path: string, base: string) {
    SegmentsOf(base).Some? && SegmentsOf(path).Some? && SegmentsOf(base).value <= SegmentsOf(path).value
  }

  /** A composed path is normal and lies under the base. */
  lemma ComposeLandsUnderBase(base: string, path: string)
    requires Compose(base, path).Some?
    ensures NormalPath(Compose(base, path).value)
    ensures UnderBase(Compose(base, path).value, base)
  {
    ComposeOnSegments(base, path);
  }

  /** Composing again changes nothing, for every base and path. */
  lemma ComposeIdempotent(base: string, path: string)
    requires Compose(base, path).Some?
    ensures Compose(base, Compose(base, path).value) == Compose(base, path)
  {
    ComposeOnSegments(base, path);
    ComposeOnSegments(base, Compose(base, path).value);
  }

  /**
    Two paths compose to the same one exactly when they normalise to the same, or one is the other
    put under the base.
   */
  lemma ComposeEqualIff(base: string, p: string, q: string)
    requires NormalizePath(base).Some? && NormalizePath(p).Some? && NormalizePath(q).Some?
    ensures Compose(base, p) == Compose(base, q)
       <==> || NormalizePath(p) == NormalizePath(q)
            || (!IncludesBase(p, base) && NormalizePath(q) == Compose(base, p))
            || (!IncludesBase(q, base) && NormalizePath(p) == Compose(base, q))
  {
    ComposeOnSegments(base, p);
    ComposeOnSegments(base, q);
    IncludesOnSegments(p, base);
    IncludesOnSegments(q, base);
    SegmentsOfAreGood(base);
    SegmentsOfAreGood(p);
    SegmentsOfAreGood(q);
    var b, x, y := SegmentsOf(base).value, SegmentsOf(p).value, SegmentsOf(q).value;
    RenderInjective(x, y);
    RenderInjective(ComposeSegs(b, x), ComposeSegs(b, y));
    RenderInjective(y, ComposeSegs(b, x));
    RenderInjective(x, ComposeSegs(b, y));
    if !(b <= x) && !(b <= y) && b + x == b + y {
      assert x == (b + x)[|b|..] && y == (b + y)[|b|..];
    }
  }

  /** In particular, composition is injective on paths that do not already include the base. */
  lemma ComposeInjective(base: string, p: string, q: string)
    requires NormalizePath(base).Some? && NormalizePath(p).Some? && NormalizePath(q).Some?
    requires !IncludesBase(p, base) && !IncludesBase(q, base)
    requires Compose(base, p) == Compose(base, q)
    ensures NormalizePath(p) == NormalizePath(q)
  {
    ComposeEqualIff(base, p, q);
    IncludesOnSegments(p, base);
    IncludesOnSegments(q, base);
    ComposeOnSegments(base, p);
    ComposeOnSegments(base, q);
    if NormalizePath(q) == Compose(base, p) { NormalizeIdempotent(q); }
    if NormalizePath(p) == Compose(base, q) { NormalizeIdempotent(p); }
  }

  lemma ComposeRestOnSegments(b: seq<string>, p: seq<string>)
    requires b <= p
    ensures ComposeSegs(b, RelativeSegs(p, b)) == p <==> !(b != [] && b <= RelativeSegs(p, b))
  {
    assert p == b + p[|b|..];
  }

  /** What is left of a path when its base is taken off composes to the path again, unless the base repeats in it. */
  lemma ComposeUndoesRelativeIff(path: string, base: string)
    requires NormalPath(path) && UnderBase(path, base)
    ensures ToRelative(path, base).Some?
    ensures Compose(base, ToRelative(path, base).value) == Some(path)
            <==> !IncludesBase(ToRelative(path, base).value, base)
  {
    RelativeOnSegments(path, base);
    var rel := ToRelative(path, base).value;
    ComposeOnSegments(base, rel);
    IncludesOnSegments(rel, base);
    SegmentsOfAreGood(path);
    var b, p := SegmentsOf(base).value, SegmentsOf(path).value;
    ComposeRestOnSegments(b, p);
    RenderInjective(p, ComposeSegs(b, RelativeSegs(p, b)));
  }

  /** One rebase of a path, as UpdatePack does it. */
  function Rebase(path: string, oldBase: string, newBase: string): Option<string> {
    match ToRelative(path, oldBase)
    case None => None
    case Some(relative) => Compose(newBase, relative)
  }

  /** A rebased path is normal and lies under the new base. */
  lemma RebaseLandsUnderBase(path: string, oldBase: string, newBase: string)
    requires NormalizePath(path).Some? && NormalizePath(oldBase).Some? && NormalizePath(newBase).Some?
    ensures Rebase(path, oldBase, newBase).Some?
    ensures NormalPath(Rebase(path, oldBase, newBase).value)
    ensures UnderBase(Rebase(path, oldBase, newBase).value, newBase)
  {
    RelativeOnSegments(path, oldBase);
    ComposeOnSegments(newBase, ToRelative(path, oldBase).value);
    ComposeLandsUnderBase(newBase, ToRelative(path, oldBase).value);
  }

  lemma MoveThereAndBackOnSegments(p: seq<string>, a: seq<string>, b: seq<string>)
    requires a <= p
    ensures var rel := RelativeSegs(p, a);
            ComposeSegs(a, RelativeSegs(ComposeSegs(b, rel), b)) == p
            <==> !(a != [] && a <= rel) && !(b != [] && b <= rel)
  {
    var rel := p[|a|..];
    assert p == a + rel;
    if b <= rel {
      assert |RelativeSegs(rel, b)| == |rel| - |b|;
      if b == [] { assert RelativeSegs(rel, b) == rel; }
    } else {
      assert (b + rel)[|b|..] == rel;
    }
  }

  /**
    Moving a pack from base a to base b and back to a restores a path if and
    only if its relative part lies under neither base.
   */
  lemma MoveThereAndBackIff(path: string, a: string, b: string)
    requires NormalPath(path) && UnderBase(path, a) && NormalizePath(b).Some?
    ensures Rebase(path, a, b).Some? && ToRelative(path, a).Some?
    ensures var relative := ToRelative(path, a).value;
            Rebase(Rebase(path, a, b).value, b, a) == Some(path)
            <==> !IncludesBase(relative, a) && !IncludesBase(relative, b)
  {
    RelativeOnSegments(path, a);
    var relative := ToRelative(path, a).value;
    ComposeOnSegments(b, relative);
    var there := Compose(b, relative).value;
    RelativeOnSegments(there, b);
    var relative' := ToRelative(there, b).value;
    ComposeOnSegments(a, relative');
    IncludesOnSegments(relative, a);
    IncludesOnSegments(relative, b);
    SegmentsOfAreGood(path);
    var sa, sb, p := SegmentsOf(a).value, SegmentsOf(b).value, SegmentsOf(path).value;
    MoveThereAndBackOnSegments(p, sa, sb);
    RenderInjective(p, ComposeSegs(sa, RelativeSegs(ComposeSegs(sb, RelativeSegs(p, sa)), sb)));
  }

  /** So whatever is moved from "/" to a base it already lies under comes back without that base. */
  lemma MoveFromRootLosesBase(path: string, base: string)
    requires NormalPath(path) && UnderBase(path, base) && SegmentsOf(base) != Some([])
    ensures UnderBase(path, "/") && Rebase(path, "/", base) == Some(path)
    ensures Rebase(path, base, "/") == ToRelative(path, base) != Some(path)
  {
    assert Render([]) == "/";
    SegmentsOfRender([]);
    RelativeOnSegments(path, "/");
    RelativeOnSegments(path, base);
    SegmentsOfAreGood(path);
    var b, p := SegmentsOf(base).value, SegmentsOf(path).value;
    var rest := RelativeSegs(p, b);
    ComposeOnSegments(base, path);
    ComposeOnSegments("/", Render(rest));
    SegmentsOfRender(rest);
    RenderInjective(p, rest);
    hide Render, SegmentsOf, NormalizePath, Compose, ToRelative;
    assert RelativeSegs(p, []) == p;
    assert ComposeSegs([], rest) == rest && |rest| < |p|;
  }

  /** For one, "/a/x" moved from "/" to "/a" and back is "/x". */
  lemma MoveThereAndBackLosesBase()
    ensures NormalPath("/a/x") && UnderBase("/a/x", "/a") && SegmentsOf("/a") == Some(["a"])
    ensures Rebase("/a/x", "/", "/a") == Some("/a/x") && Rebase("/a/x", "/a", "/") == Some("/x")
  {
    OneLetter("a");
    OneLetter("x");
    hide NormalizePath, SegmentsOf, ToRelative, GoodSegment;
    GoodRender(["a"], "/a");
    GoodRender(["a", "x"], "/a/x");
    GoodRender(["x"], "/x");
    hide Render;
    MoveFromRootLosesBase("/a/x", "/a");
    RelativeOnSegments("/a/x", "/a");
    assert RelativeSegs(["a", "x"], ["a"]) == ["x"];
  }

  lemma OneLetter(s: string)
    requires |s| == 1 && 'a' <= s[0] <= 'z'
    ensures GoodSegment(s)
  {
  }

  lemma GoodRender(segs: seq<string>, path: string)
    requires GoodSegments(segs) && Render(segs) == path
    ensures SegmentsOf(path) == Some(segs) && NormalPath(path)
  {
    SegmentsOfRender(segs);
  }
}
