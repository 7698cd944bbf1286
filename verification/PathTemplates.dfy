/**
  Normalisation of endpoint path templates
  (apps/api/internal/core/usecase/integration_service.go).
 */
module PathTemplates {
  import opened Wrappers
  import opened Text
  import Seqs

  // -------- parameter names --------

  predicate IsNameChar(c: char) {
    'a' <= c <= 'z' || 'A' <= c <= 'Z' || '0' <= c <= '9'
  }

  /** Letters and digits stay, every run of anything else becomes one underscore. */
  function Squeeze(s: string, lastUnderscore: bool): string {
    if s == "" then ""
    else if IsNameChar(s[0]) then [s[0]] + Squeeze(s[1..], false)
    else (if lastUnderscore then "" else "_") + Squeeze(s[1..], true)
  }

  function TrimLeftUnderscore(s: string): string {
    if s != "" && s[0] == '_' then TrimLeftUnderscore(s[1..]) else s
  }

  function TrimRightUnderscore(s: string): string {
    if s != "" && s[|s| - 1] == '_' then TrimRightUnderscore(s[..|s| - 1]) else s
  }

  function ParamName(value: string): string {
    TrimRightUnderscore(TrimLeftUnderscore(Squeeze(TrimSpace(value), false)))
  }

  /** normalizePathParamName: the loop over a string builder. */
  method NormalizeParamName(value: string) returns (r: string)
    ensures r == ParamName(value)
  {
    var trimmed := TrimSpace(value);
    if trimmed == "" {
      return "";
    }
    var builder, lastUnderscore := "", false;
    for i := 0 to |trimmed|
      invariant Squeeze(trimmed, false) == builder + Squeeze(trimmed[i..], lastUnderscore)
    {
      var character := trimmed[i];
      ghost var rest := trimmed[i..];
      ghost var was := builder;
      assert rest[1..] == trimmed[i + 1..];
      if IsNameChar(character) {
        builder := builder + [character];
        lastUnderscore := false;
        Seqs.Assoc(was, [character], Squeeze(rest[1..], false));
      } else if !lastUnderscore {
        builder := builder + "_";
        lastUnderscore := true;
        Seqs.Assoc(was, "_", Squeeze(rest[1..], true));
      } else {
        Seqs.EmptyLeft(Squeeze(rest[1..], true));
      }
    }
    Seqs.EmptyRight(builder);
    r := TrimRightUnderscore(TrimLeftUnderscore(builder));
  }

  ghost predicate Words(s: string) {
    (forall c :: c in s ==> IsNameChar(c) || c == '_') && !HasDoubleUnderscore(s)
  }

  /** Letters, digits and single inner underscores. */
  ghost predicate IsParamName(s: string) {
    Words(s) && (s != "" ==> s[0] != '_' && s[|s| - 1] != '_')
  }

  lemma {:induction false} SqueezeIsWords(s: string, lastUnderscore: bool)
    ensures Words(Squeeze(s, lastUnderscore))
    ensures lastUnderscore && Squeeze(s, lastUnderscore) != "" ==> Squeeze(s, lastUnderscore)[0] != '_'
  {
    if s != "" {
      var r := Squeeze(s[1..], !IsNameChar(s[0]));
      SqueezeIsWords(s[1..], !IsNameChar(s[0]));
      Seqs.EmptyLeft(r);
      Seqs.Cons('_', r);
      Seqs.Cons(s[0], r);
    }
  }

  lemma {:induction false} SqueezeFixes(s: string, lastUnderscore: bool)
    requires Words(s) && (lastUnderscore && s != "" ==> s[0] != '_')
    ensures Squeeze(s, lastUnderscore) == s
  {
    if s != "" {
      assert s[0] in s && forall c :: c in s[1..] ==> c in s;
      SqueezeFixes(s[1..], s[0] == '_');
      Seqs.Uncons(s);
    }
  }

  lemma {:induction false} TrimLeftKeepsWords(s: string)
    requires Words(s)
    ensures Words(TrimLeftUnderscore(s)) && (TrimLeftUnderscore(s) != "" ==> TrimLeftUnderscore(s)[0] != '_')
  {
    if s != "" && s[0] == '_' {
      assert forall c :: c in s[1..] ==> c in s;
      TrimLeftKeepsWords(s[1..]);
    }
  }

  lemma {:induction false} PrefixHasNoDouble(s: string, n: nat)
    requires n <= |s| && !HasDoubleUnderscore(s)
    ensures !HasDoubleUnderscore(s[..n])
  {
    if n >= 2 {
      assert s[..n][1..] == s[1..][..n - 1];
      PrefixHasNoDouble(s[1..], n - 1);
    }
  }

  lemma {:induction false} TrimRightUnderscoreFacts(s: string)
    ensures TrimRightUnderscore(s) <= s
    ensures TrimRightUnderscore(s) != "" ==> TrimRightUnderscore(s)[|TrimRightUnderscore(s)| - 1] != '_'
  {
    if s != "" && s[|s| - 1] == '_' { TrimRightUnderscoreFacts(s[..|s| - 1]); }
  }

  lemma ParamNameIsName(value: string)
    ensures IsParamName(ParamName(value))
  {
    var squeezed := Squeeze(TrimSpace(value), false);
    SqueezeIsWords(TrimSpace(value), false);
    TrimLeftKeepsWords(squeezed);
    var left := TrimLeftUnderscore(squeezed);
    TrimRightUnderscoreFacts(left);
    var n := |TrimRightUnderscore(left)|;
    assert TrimRightUnderscore(left) == left[..n];
    PrefixHasNoDouble(left, n);
  }

  lemma ParamNameFixes(s: string)
    requires IsParamName(s)
    ensures ParamName(s) == s
  {
    if s != "" { assert s[0] in s && s[|s| - 1] in s; }
    SqueezeFixes(s, false);
  }

  // -------- segments --------

  /** normalizePathTemplateSegment. */
  function NormalizeSegment(segment: string): Option<string> {
    var trimmed := TrimSpace(segment);
    if trimmed == "" then None
    else if trimmed[0] == ':' then
      var name := ParamName(trimmed[1..]);
      if name == "" then None else Some(":" + name)
    else if trimmed[0] == '{' && trimmed[|trimmed| - 1] == '}' then
      var name := ParamName(trimmed[1..|trimmed| - 1]);
      if name == "" then None else Some(":" + name)
    else if '{' in trimmed || '}' in trimmed then None
    else Some(trimmed)
  }

  /** The segments that normalisation leaves alone and a path can hold. */
  ghost predicate GoodSegment(s: string) {
    && s != "" && Trimmed(s) && '/' !in s && '?' !in s
    && (if s[0] == ':' then s[1..] != "" && IsParamName(s[1..]) else '{' !in s && '}' !in s)
  }

  lemma ParamSegmentIsGood(name: string)
    requires name != "" && IsParamName(name)
    ensures GoodSegment(":" + name)
  {
    var s := ":" + name;
    assert s[1..] == name;
    assert forall c :: c in s ==> c == ':' || IsNameChar(c) || c == '_';
    assert s[|s| - 1] in s;
  }

  lemma NormalizedSegmentIsGood(segment: string)
    requires '/' !in segment && '?' !in segment
    ensures NormalizeSegment(segment).Some? ==> GoodSegment(NormalizeSegment(segment).value)
  {
    TrimSpaceFacts(segment);
    var trimmed := TrimSpace(segment);
    if NormalizeSegment(segment).Some? {
      if trimmed[0] == ':' {
        ParamNameIsName(trimmed[1..]);
        ParamSegmentIsGood(ParamName(trimmed[1..]));
      } else if trimmed[0] == '{' && trimmed[|trimmed| - 1] == '}' {
        ParamNameIsName(trimmed[1..|trimmed| - 1]);
        ParamSegmentIsGood(ParamName(trimmed[1..|trimmed| - 1]));
      }
    }
  }

  lemma GoodSegmentIsFixed(s: string)
    requires GoodSegment(s)
    ensures NormalizeSegment(s) == Some(s)
  {
    if s[0] == ':' {
      ParamNameFixes(s[1..]);
      Seqs.Uncons(s);
    } else {
      assert s[0] in s;
    }
  }

  function NormalizeSegments(parts: seq<string>): (r: Option<seq<string>>)
    ensures r.Some? ==> |r.value| == |parts|
  {
    if parts == [] then Some([])
    else match (NormalizeSegment(parts[0]), NormalizeSegments(parts[1..]))
      case (Some(s), Some(rest)) => Some([s] + rest)
      case _ => None
  }

  ghost predicate GoodSegments(segs: seq<string>) {
    forall s :: s in segs ==> GoodSegment(s)
  }

  lemma {:induction false} NormalizeSegmentsFacts(parts: seq<string>)
    requires forall p :: p in parts ==> '/' !in p && '?' !in p
    ensures NormalizeSegments(parts).Some? ==> GoodSegments(NormalizeSegments(parts).value)
    ensures GoodSegments(parts) ==> NormalizeSegments(parts) == Some(parts)
  {
    if parts != [] {
      assert parts[0] in parts && forall p :: p in parts[1..] ==> p in parts;
      NormalizeSegmentsFacts(parts[1..]);
      NormalizedSegmentIsGood(parts[0]);
      if GoodSegments(parts) {
        GoodSegmentIsFixed(parts[0]);
        Seqs.Uncons(parts);
      }
    }
  }

  lemma {:induction false} NormalizeSegmentsSnoc(parts: seq<string>, p: string)
    ensures NormalizeSegments(parts + [p])
         == match (NormalizeSegments(parts), NormalizeSegment(p))
            case (Some(segs), Some(s)) => Some(segs + [s])
            case _ => None
  {
    if parts == [] {
      assert parts + [p] == [p] && [p][1..] == [];
      assert NormalizeSegments([]) == Some([]);
      if NormalizeSegment(p).Some? { assert [NormalizeSegment(p).value] + [] == [] + [NormalizeSegment(p).value]; }
    } else {
      assert (parts + [p])[1..] == parts[1..] + [p] && (parts + [p])[0] == parts[0];
      NormalizeSegmentsSnoc(parts[1..], p);
      match (NormalizeSegment(parts[0]), NormalizeSegments(parts[1..]), NormalizeSegment(p))
      case (Some(first), Some(rest), Some(s)) => Seqs.Assoc([first], rest, [s]);
      case _ =>
    }
  }

  lemma {:induction false} NormalizeSegmentsPrefix(parts: seq<string>, n: nat)
    requires 0 < n <= |parts| && NormalizeSegments(parts[..n]).None?
    ensures NormalizeSegments(parts).None?
  {
    assert parts[..n][0] == parts[0] && parts[..n][1..] == parts[1..][..n - 1];
    if NormalizeSegment(parts[0]).Some? && n > 1 {
      NormalizeSegmentsPrefix(parts[1..], n - 1);
    }
  }

  // -------- whole paths --------

  function Render(segs: seq<string>): string {
    "/" + Join(segs)
  }

  /** The meaning of a template: its non-empty pieces, each normalised. */
  function SegmentsOf(value: string): Option<seq<string>> {
    var trimmed := TrimSpace(value);
    if trimmed == "" || '?' in trimmed then None else NormalizeSegments(Pieces(trimmed))
  }

  function NormalizePath(value: string): Option<string> {
    match SegmentsOf(value)
    case None => None
    case Some(segs) => Some(Render(segs))
  }

  function TrimRightSlash(s: string): string {
    if s != "" && s[|s| - 1] == '/' then TrimRightSlash(s[..|s| - 1]) else s
  }

  lemma {:induction false} NoDoubleInit(s: string)
    requires s != "" && !HasDoubleSlash(s)
    ensures !HasDoubleSlash(s[..|s| - 1])
    ensures |s| >= 2 && s[|s| - 1] == '/' ==> s[|s| - 2] != '/'
  {
    if |s| >= 2 {
      NoDoubleInit(s[1..]);
      assert s[..|s| - 1][1..] == s[1..][..|s| - 2];
    }
  }

  /**
    The textual part of the normaliser, on a path without "//": what is left after the first slash
    splits into Pieces.
   */
  lemma TrimmedPathPieces(x: string)
    requires x != "" && x[0] == '/' && !HasDoubleSlash(x)
    ensures var y := if |x| > 1 then TrimRightSlash(x) else x;
            && y != "" && y[0] == '/'
            && (y == "/" ==> Pieces(x) == [])
            && (y != "/" ==> Split(y[1..]) == Pieces(x))
  {
    if |x| == 1 {
      assert x[1..] == "";
      Seqs.Cons("", [""]);
      assert Split(x) == [""] + [""];
      assert NonEmpty([""]) == [];
    } else {
      NoDoubleInit(x);
      var y := TrimRightSlash(x);
      if x[|x| - 1] == '/' {
        var z := x[..|x| - 1];
        assert z[|z| - 1] == x[|x| - 2];
        assert TrimRightSlash(z) == z;
        Seqs.Unsnoc(x);
        PiecesTrailingSlash(y);
      }
      assert y != "/" && y[|y| - 1] != '/';
      var z := y[1..];
      assert y == "/" + z;
      PiecesLeadingSlash(z);
      assert z != "" && z[|z| - 1] != '/' && z[0] != '/';
      SplitHasNoEmpty(z);
      var parts := Split(z);
      Seqs.Uncons(parts);
      NonEmptyFacts(parts);
    }
  }

  /** The slashed and collapsed text keeps the pieces, and has the form TrimmedPathPieces asks for. */
  lemma CollapsedPieces(trimmed: string)
    requires trimmed != ""
    ensures var slashed := if trimmed[0] != '/' then "/" + trimmed else trimmed;
            var x := Collapse(slashed);
            x != "" && x[0] == '/' && Pieces(x) == Pieces(trimmed)
  {
    PiecesLeadingSlash(trimmed);
    PiecesCollapse("/" + trimmed);
    PiecesCollapse(trimmed);
    CollapseHead("/" + trimmed);
    CollapseHead(trimmed);
  }

  method NormalizeEach(segments: seq<string>) returns (r: Option<seq<string>>)
    ensures r == NormalizeSegments(segments)
  {
    var normalized: seq<string> := [];
    for i := 0 to |segments|
      invariant NormalizeSegments(segments[..i]) == Some(normalized)
    {
      assert segments[..i + 1] == segments[..i] + [segments[i]];
      NormalizeSegmentsSnoc(segments[..i], segments[i]);
      var next := NormalizeSegment(segments[i]);
      if next.None? {
        NormalizeSegmentsPrefix(segments, i + 1);
        return None;
      }
      normalized := normalized + [next.value];
    }
    assert segments[..|segments|] == segments;
    return Some(normalized);
  }

  /** normalizePathTemplate computes NormalizePath. */
  method NormalizePathTemplate(value: string) returns (r: Option<string>)
    ensures r == NormalizePath(value)
  {
    var trimmed := TrimSpace(value);
    if trimmed == "" {
      return None;
    }
    if '?' in trimmed {
      return None;
    }
    CollapsedPieces(trimmed);
    if trimmed[0] != '/' {
      trimmed := "/" + trimmed;
    }
    trimmed := CollapseSlashes(trimmed);
    TrimmedPathPieces(trimmed);
    if |trimmed| > 1 {
      trimmed := TrimRightSlash(trimmed);
    }
    if trimmed == "/" {
      Seqs.EmptyRight("/");
      return Some("/");
    }
    var normalized := NormalizeEach(Split(trimmed[1..]));
    if normalized.None? {
      return None;
    }
    return Some("/" + Join(normalized.value));
  }

  // -------- normal paths --------

  ghost predicate NormalPath(p: string) {
    NormalizePath(p) == Some(p)
  }

  lemma {:induction false} JoinChars(segs: seq<string>)
    requires GoodSegments(segs)
    ensures '?' !in Join(segs)
    ensures segs != [] ==> Join(segs) != "" && !IsSpace(Join(segs)[|Join(segs)| - 1])
  {
    if segs != [] {
      assert GoodSegment(segs[0]) && forall s :: s in segs[1..] ==> s in segs;
      JoinChars(segs[1..]);
    }
  }

  lemma PiecesRender(segs: seq<string>)
    requires GoodSegments(segs)
    ensures Pieces(Render(segs)) == segs
  {
    PiecesLeadingSlash(Join(segs));
    if segs == [] {
      assert Split("") == [""];
    } else {
      forall p | p in segs ensures '/' !in p { assert GoodSegment(p); }
      SplitJoin(segs);
      forall p | p in segs ensures p != "" { assert GoodSegment(p); }
      NonEmptyFacts(segs);
    }
  }

  /** Rendered good segments are read back as they are. */
  lemma SegmentsOfRender(segs: seq<string>)
    requires GoodSegments(segs)
    ensures SegmentsOf(Render(segs)) == Some(segs)
    ensures NormalPath(Render(segs))
  {
    JoinChars(segs);
    var p := Render(segs);
    assert Trimmed(p);
    TrimmedIsFixed(p);
    PiecesRender(segs);
    forall s | s in segs ensures '/' !in s && '?' !in s { assert GoodSegment(s); }
    NormalizeSegmentsFacts(segs);
  }

  lemma SegmentsOfAreGood(value: string)
    requires SegmentsOf(value).Some?
    ensures GoodSegments(SegmentsOf(value).value)
  {
    var trimmed := TrimSpace(value);
    SplitPieces(trimmed);
    NonEmptyFacts(Split(trimmed));
    NormalizeSegmentsFacts(Pieces(trimmed));
  }

  /** Normalisation is idempotent on everything it accepts. */
  lemma NormalizeIdempotent(value: string)
    requires NormalizePath(value).Some?
    ensures NormalPath(NormalizePath(value).value)
    ensures SegmentsOf(NormalizePath(value).value) == SegmentsOf(value)
  {
    SegmentsOfAreGood(value);
    SegmentsOfRender(SegmentsOf(value).value);
  }

  /** Normal paths and lists of good segments are the same thing. */
  lemma RenderInjective(a: seq<string>, b: seq<string>)
    requires GoodSegments(a) && GoodSegments(b)
    ensures Render(a) == Render(b) <==> a == b
  {
    SegmentsOfRender(a);
    SegmentsOfRender(b);
  }
}
