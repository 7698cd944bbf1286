/** The paths the integration service stores are those the gateway reads back. */
module StoredRoutes {
  import opened Wrappers
  import opened Text
  import opened PathTemplates
  import Routing = RuntimeRouting
  import Seqs

  lemma {:induction false} WordsOfGoodSegments(segs: seq<string>)
    requires GoodSegments(segs)
    ensures Routing.Words(segs) == segs
  {
    if segs != [] {
      assert GoodSegment(segs[0]) && forall s :: s in segs[1..] ==> s in segs;
      TrimmedIsFixed(segs[0]);
      hide TrimSpace;
      WordsOfGoodSegments(segs[1..]);
      Seqs.Uncons(segs);
    }
  }

  lemma {:induction false} WordThenSlash(s: string, rest: string)
    requires '/' !in s && !HasDoubleSlash("/" + rest)
    ensures !HasDoubleSlash(s + "/" + rest)
  {
    if s == "" {
      assert s + "/" + rest == "/" + rest;
    } else {
      assert (s + "/" + rest)[1..] == s[1..] + "/" + rest;
      WordThenSlash(s[1..], rest);
    }
  }

  lemma {:induction false} PlainHasNoDouble(s: string)
    requires '/' !in s
    ensures !HasDoubleSlash(s)
  {
    if s != "" { PlainHasNoDouble(s[1..]); }
  }

  lemma {:induction false} RenderHasNoDouble(segs: seq<string>)
    requires GoodSegments(segs)
    ensures !HasDoubleSlash("/" + Join(segs))
  {
    hide IsSpace;
    if segs != [] {
      assert GoodSegment(segs[0]) && forall s :: s in segs[1..] ==> s in segs;
      RenderHasNoDouble(segs[1..]);
      var j := Join(segs);
      if |segs| == 1 {
        PlainHasNoDouble(j);
      } else {
        WordThenSlash(segs[0], Join(segs[1..]));
      }
      assert ("/" + j)[1..] == j;
      assert j[0] == segs[0][0];
    }
  }

  lemma {:induction false} JoinEnds(segs: seq<string>)
    requires GoodSegments(segs) && segs != []
    ensures Join(segs) != "" && Join(segs)[|Join(segs)| - 1] != '/'
  {
    hide IsSpace;
    assert GoodSegment(segs[0]);
    if |segs| > 1 {
      assert forall s :: s in segs[1..] ==> s in segs;
      JoinEnds(segs[1..]);
    }
  }

  /** The gateway leaves a stored path as it is, and sees the segments it was stored with. */
  lemma StoredPathIsRuntimePath(p: string)
    requires NormalPath(p)
    ensures Routing.RuntimePath(p) == p
    ensures Some(Routing.PathWords(p)) == SegmentsOf(p)
  {
    SegmentsOfAreGood(p);
    var segs := SegmentsOf(p).value;
    assert p == Render(segs);
    PiecesRender(segs);
    Routing.PathWordsOfPieces(p);
    WordsOfGoodSegments(segs);
    JoinChars(segs);
    assert Trimmed(p);
    TrimmedIsFixed(p);
    RenderHasNoDouble(segs);
    CollapseFixed(p);
    if segs != [] { JoinEnds(segs); }
  }

  /** Any path as the gateway sees it: its non-empty pieces, as they stand, with one slash before each. */
  lemma RuntimePathIsJoin(value: string)
    ensures Routing.RuntimePath(value) == "/" + Join(Pieces(TrimSpace(value)))
  {
    hide TrimSpace;
    var trimmed := TrimSpace(value);
    if trimmed == "" {
      assert Pieces("") == [];
      Seqs.EmptyRight("/");
    } else {
      var slashed := if trimmed[0] == '/' then trimmed else "/" + trimmed;
      CollapsedPieces(trimmed);
      CollapseHasNoDouble(slashed);
      var x := Collapse(slashed);
      hide Collapse;
      TrimmedPathPieces(x);
      if |x| > 1 { SlashAtEnd(x); }
      hide Pieces;
      var y := if |x| > 1 then TrimRightSlash(x) else x;
      assert Routing.RuntimePath(value) == y;
      JoinSplit(y[1..]);
      assert y == "/" + y[1..];
      if y == "/" { Seqs.EmptyRight("/"); }
    }
  }

  /** Without "//" there is at most one slash to drop. */
  lemma SlashAtEnd(x: string)
    requires x != "" && x[0] == '/' && !HasDoubleSlash(x) && |x| > 1
    ensures TrimRightSlash(x) == if x[|x| - 1] == '/' then x[..|x| - 1] else x
  {
    NoDoubleInit(x);
  }
}
