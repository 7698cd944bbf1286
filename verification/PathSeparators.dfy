/**
  Keeping path parameters apart: normalizeAdjacentPathParamTokens
  (apps/web/src/features/endpoint-editor/path-template.ts).
 */
module PathSeparators {
  import opened PathTokens
  import Seqs

  /** A separator that was emptied between two parameters becomes a slash. */
  function FilledAt(ts: seq<Token>, i: nat): Token
    requires i < |ts|
  {
    if ts[i] == Text("") && 0 < i < |ts| - 1 && ts[i - 1].Param? && ts[i + 1].Param? then Text("/") else ts[i]
  }

  function Filled(ts: seq<Token>): (r: seq<Token>)
    ensures |r| == |ts| && forall i :: 0 <= i < |r| ==> r[i] == FilledAt(ts, i)
  {
    seq(|ts|, i requires 0 <= i < |ts| => FilledAt(ts, i))
  }

  predicate AdjacentParams(ts: seq<Token>, i: nat) {
    i + 1 < |ts| && ts[i].Param? && ts[i + 1].Param?
  }

  /** A slash between parameters that follow each other directly. */
  function Separated(ts: seq<Token>): seq<Token> {
    if ts == [] then []
    else [ts[0]] + (if AdjacentParams(ts, 0) then [Text("/")] else []) + Separated(ts[1..])
  }

  function NormalizeAdjacent(ts: seq<Token>): seq<Token> {
    Separated(Filled(ts))
  }

  /** normalizeAdjacentPathParamTokens computes NormalizeAdjacent. */
  method NormalizeAdjacentParams(tokens: seq<Token>) returns (normalized: seq<Token>)
    ensures normalized == NormalizeAdjacent(tokens)
  {
    var filled := Filled(tokens);
    normalized := [];
    for i := 0 to |filled|
      invariant normalized + Separated(filled[i..]) == Separated(filled)
    {
      var rest := filled[i..];
      assert rest[1..] == filled[i + 1..];
      var more := if AdjacentParams(filled, i) then [Text("/")] else [];
      Seqs.Assoc(normalized, [filled[i]] + more, Separated(filled[i + 1..]));
      Seqs.Assoc(normalized, [filled[i]], more);
      normalized := normalized + [filled[i]];
      if filled[i].Param? && i + 1 < |filled| && filled[i + 1].Param? {
        normalized := normalized + [Text("/")];
      } else {
        Seqs.EmptyRight(normalized);
      }
    }
    Seqs.EmptyRight(normalized);
  }

  /** No two parameters follow each other, and no empty text stands alone between two. */
  ghost predicate Parted(ts: seq<Token>) {
    && (forall i :: 0 <= i < |ts| ==> !AdjacentParams(ts, i))
    && (forall i :: 0 <= i < |ts| ==> FilledAt(ts, i) == ts[i])
  }

  lemma {:induction false} SeparatedParts(ts: seq<Token>)
    requires forall i :: 0 <= i < |ts| ==> FilledAt(ts, i) == ts[i]
    ensures Parted(Separated(ts))
    ensures ts != [] ==> Separated(ts) != [] && Separated(ts)[0] == ts[0]
    ensures |ts| >= 2 && !AdjacentParams(ts, 0) ==> |Separated(ts)| >= 2 && Separated(ts)[1] == ts[1]
    ensures |ts| >= 3 && !AdjacentParams(ts, 0) && !AdjacentParams(ts, 1) ==>
              |Separated(ts)| >= 3 && Separated(ts)[2] == ts[2]
    ensures |ts| == 1 ==> |Separated(ts)| == 1
    ensures |ts| == 2 && !AdjacentParams(ts, 0) ==> |Separated(ts)| == 2
  {
    if ts != [] {
      var t := ts[1..];
      forall i | 0 <= i < |t| ensures FilledAt(t, i) == t[i] {
        assert FilledAt(ts, i + 1) == ts[i + 1];
      }
      SeparatedParts(t);
      var r, s := Separated(t), Separated(ts);
      if AdjacentParams(ts, 0) {
        assert s == [ts[0], Text("/")] + r;
        PartedBehind([ts[0], Text("/")], r, s);
      } else {
        assert s == [ts[0]] + r;
        assert AdjacentParams(t, 0) == AdjacentParams(ts, 1);
        assert |ts| >= 3 ==> FilledAt(ts, 1) == ts[1];
        PartedBehind([ts[0]], r, s);
      }
    }
  }

  /** Putting tokens in front of a parted list only matters at the seam. */
  lemma PartedBehind(front: seq<Token>, r: seq<Token>, s: seq<Token>)
    requires s == front + r && Parted(r) && 1 <= |front| <= 2
    requires forall i :: 0 <= i < |front| ==> !AdjacentParams(s, i)
    requires forall i :: 0 <= i <= |front| && i < |s| ==> FilledAt(s, i) == s[i]
    ensures Parted(s)
  {
    var n := |front|;
    forall i | 0 <= i < |s| ensures !AdjacentParams(s, i) {
      if i >= n { assert !AdjacentParams(r, i - n); }
    }
    forall i | 0 <= i < |s| ensures FilledAt(s, i) == s[i] {
      if i > n { assert FilledAt(r, i - n) == r[i - n]; }
    }
  }

  lemma FilledIsFilled(ts: seq<Token>)
    ensures forall i :: 0 <= i < |ts| ==> FilledAt(Filled(ts), i) == Filled(ts)[i]
  {
  }

  lemma {:induction false} SeparatedIsLonger(ts: seq<Token>)
    ensures |Separated(ts)| >= |ts|
    ensures Separated(ts) == ts <==> forall i :: 0 <= i < |ts| ==> !AdjacentParams(ts, i)
  {
    if ts != [] {
      var t := ts[1..];
      SeparatedIsLonger(t);
      assert forall i :: 0 <= i < |t| ==> AdjacentParams(t, i) == AdjacentParams(ts, i + 1);
      assert ts == [ts[0]] + t;
      if AdjacentParams(ts, 0) {
        assert |Separated(ts)| > |ts|;
      } else {
        assert Separated(ts) == [ts[0]] + Separated(t);
        assert Separated(ts)[1..] == Separated(t);
        if forall i :: 0 <= i < |ts| ==> !AdjacentParams(ts, i) {
          forall i | 0 <= i < |t| ensures !AdjacentParams(t, i) { assert !AdjacentParams(ts, i + 1); }
        } else {
          var i :| 0 <= i < |ts| && AdjacentParams(ts, i);
          assert i > 0 && AdjacentParams(t, i - 1);
        }
      }
    }
  }

  /** The parted lists are exactly what normalising produces and exactly what it leaves alone; so it is idempotent. */
  lemma NormalizeAdjacentParts(ts: seq<Token>)
    ensures Parted(NormalizeAdjacent(ts))
    ensures NormalizeAdjacent(ts) == ts <==> Parted(ts)
    ensures NormalizeAdjacent(NormalizeAdjacent(ts)) == NormalizeAdjacent(ts)
  {
    FilledIsFilled(ts);
    SeparatedParts(Filled(ts));
    if Parted(ts) { FixedIfParted(ts); }
    FixedIfParted(NormalizeAdjacent(ts));
  }

  lemma FixedIfParted(ts: seq<Token>)
    requires Parted(ts)
    ensures NormalizeAdjacent(ts) == ts
  {
    assert Filled(ts) == ts;
    SeparatedIsLonger(ts);
  }

  // -------- nothing else is changed --------

  predicate Separator(t: Token) {
    t == Text("") || t == Text("/")
  }

  predicate SeparatorSecond(ts: seq<Token>) {
    |ts| >= 3 && ts[0].Param? && Separator(ts[1]) && ts[2].Param?
  }

  /** The list without what stands alone between two parameters and is empty or a slash. */
  function Bare(ts: seq<Token>): (r: seq<Token>)
    ensures r != [] <==> ts != []
    ensures ts != [] ==> r[0] == ts[0]
  {
    if ts == [] then []
    else [ts[0]] + Bare(if SeparatorSecond(ts) then ts[2..] else ts[1..])
  }

  lemma FilledCons(ts: seq<Token>)
    requires ts != []
    ensures Filled(ts)[0] == ts[0]
    ensures SeparatorSecond(ts) ==> SeparatorSecond(Filled(ts)) && Filled(ts)[2..] == Filled(ts[2..])
    ensures !SeparatorSecond(ts) ==> !SeparatorSecond(Filled(ts)) && Filled(ts)[1..] == Filled(ts[1..])
  {
    if SeparatorSecond(ts) {
      forall i | 0 <= i < |ts| - 2 ensures Filled(ts)[2..][i] == Filled(ts[2..])[i] {
        assert ts[2..][i] == ts[i + 2];
      }
    } else {
      forall i | 0 <= i < |ts| - 1 ensures Filled(ts)[1..][i] == Filled(ts[1..])[i] {
        assert ts[1..][i] == ts[i + 1];
      }
    }
  }

  lemma {:induction false} FilledBare(ts: seq<Token>)
    ensures Bare(Filled(ts)) == Bare(ts)
    decreases |ts|
  {
    if ts != [] {
      FilledCons(ts);
      FilledBare(if SeparatorSecond(ts) then ts[2..] else ts[1..]);
    }
  }

  lemma SeparatedHead(ts: seq<Token>)
    ensures ts != [] ==> Separated(ts) != [] && Separated(ts)[0] == ts[0]
    ensures |ts| >= 2 && !ts[0].Param? ==> Separated(ts) == [ts[0]] + Separated(ts[1..])
  {
  }

  lemma {:induction false} SeparatedBare(ts: seq<Token>)
    ensures Bare(Separated(ts)) == Bare(ts)
    decreases |ts|
  {
    if ts != [] {
      var rest := ts[1..];
      var r, s := Separated(rest), Separated(ts);
      SeparatedBare(rest);
      SeparatedHead(rest);
      if AdjacentParams(ts, 0) {
        assert s == [ts[0], Text("/")] + r && s[2..] == r && s[2] == r[0] == rest[0] == ts[1];
      } else if SeparatorSecond(ts) {
        assert rest[1..] == ts[2..];
        SeparatedHead(ts[2..]);
        SeparatedBare(ts[2..]);
        assert s == [ts[0], ts[1]] + Separated(ts[2..]) && s[2..] == Separated(ts[2..]);
      } else {
        assert s == [ts[0]] + r && s[1..] == r;
        if |ts| >= 3 { SeparatedHead(rest[1..]); }
        assert !SeparatorSecond(s);
      }
    }
  }

  lemma PartedTail(ts: seq<Token>, n: nat)
    requires Parted(ts) && n <= |ts|
    ensures Parted(ts[n..])
  {
    forall i | 0 <= i < |ts| - n ensures !AdjacentParams(ts[n..], i) && FilledAt(ts[n..], i) == ts[n..][i] {
      assert !AdjacentParams(ts, i + n) && FilledAt(ts, i + n) == ts[i + n];
    }
  }

  lemma {:induction false} PartedIsUnique(x: seq<Token>, y: seq<Token>)
    requires Parted(x) && Parted(y) && Bare(x) == Bare(y)
    ensures x == y
    decreases |x|
  {
    if x != [] {
      var m, n := if SeparatorSecond(x) then 2 else 1, if SeparatorSecond(y) then 2 else 1;
      assert !AdjacentParams(x, 0) && !AdjacentParams(y, 0);
      assert Bare(x)[1..] == Bare(x[m..]) && Bare(y)[1..] == Bare(y[n..]);
      assert m == 2 ==> FilledAt(x, 1) == x[1] == Text("/");
      assert n == 2 ==> FilledAt(y, 1) == y[1] == Text("/");
      PartedTail(x, m);
      PartedTail(y, n);
      PartedIsUnique(x[m..], y[n..]);
      hide Parted, Bare;
      assert x == x[..m] + x[m..] && y == y[..n] + y[n..];
    }
  }

  /** The result is the one parted list that differs from the given one in nothing but lone separators. */
  lemma OnlySeparatorsChange(ts: seq<Token>, r: seq<Token>)
    ensures r == NormalizeAdjacent(ts) <==> Parted(r) && Bare(r) == Bare(ts)
  {
    NormalizeAdjacentParts(ts);
    FilledBare(ts);
    SeparatedBare(Filled(ts));
    if Parted(r) && Bare(r) == Bare(ts) { PartedIsUnique(r, NormalizeAdjacent(ts)); }
  }
}
