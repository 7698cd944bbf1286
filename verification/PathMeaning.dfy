/**
  What the normaliser of path templates does to any text: which paths it accepts,
  what it makes of a parameter, and that both ways to write one are the same
  (apps/api/internal/core/usecase/integration_service.go).
 */
module PathMeaning {
  import opened Wrappers
  import opened Text
  import opened PathTemplates
  import opened PackPaths
  import Tokens = PathTokens
  import Seqs

  // -------- parameter names --------

  predicate LetterOrDigit(c: char) {
    'a' <= c <= 'z' || 'A' <= c <= 'Z' || '0' <= c <= '9'
  }

  function IfRun(run: string): seq<string> {
    if run == "" then [] else [run]
  }

  /** The maximal runs of letters and digits, when `run` is the one under way. */
  function Runs(s: string, run: string): seq<string> {
    if s == "" then IfRun(run)
    else if LetterOrDigit(s[0]) then Runs(s[1..], run + [s[0]])
    else IfRun(run) + Runs(s[1..], "")
  }

  function Underscored(runs: seq<string>): string {
    if runs == [] then "" else if |runs| == 1 then runs[0] else runs[0] + "_" + Underscored(runs[1..])
  }

  lemma UnderscoredCons(run: string, runs: seq<string>)
    ensures Underscored([run] + runs) == if runs == [] then run else run + "_" + Underscored(runs)
  {
    assert ([run] + runs)[1..] == runs;
  }

  lemma WordsTail(u: string)
    requires Words(u) && u != ""
    ensures Words(u[1..]) && (LetterOrDigit(u[0]) || u[0] == '_')
    ensures u[0] == '_' && u[1..] != "" ==> u[1..][0] != '_'
  {
    assert u[0] in u && forall c :: c in u[1..] ==> c in u;
  }

  /** A text of single inner underscores is its runs. */
  lemma {:induction false} WordsAreRuns(u: string, run: string)
    requires Words(u) && (u != "" ==> u[|u| - 1] != '_') && (run == "" && u != "" ==> u[0] != '_')
    ensures Underscored(Runs(u, run)) == run + u
  {
    hide Words;
    if u == "" {
      Seqs.EmptyRight(run);
    } else {
      WordsTail(u);
      assert u == [u[0]] + u[1..];
      if LetterOrDigit(u[0]) {
        WordsAreRuns(u[1..], run + [u[0]]);
        Seqs.Assoc(run, [u[0]], u[1..]);
      } else {
        WordsAreRuns(u[1..], "");
        Seqs.EmptyLeft(u[1..]);
        RunBefore(run, u[1..]);
        Seqs.Assoc(run, "_", u[1..]);
      }
    }
  }

  lemma RunBefore(run: string, rest: string)
    requires run != "" && rest != "" && Underscored(Runs(rest, "")) == rest
    ensures Underscored([run] + Runs(rest, "")) == run + "_" + rest
  {
    hide Runs;
    UnderscoredCons(run, Runs(rest, ""));
    assert Underscored([]) == "";
  }

  lemma {:induction false} SqueezeKeepsRuns(s: string, last: bool, run: string)
    requires last ==> run == ""
    ensures Runs(Squeeze(s, last), run) == Runs(s, run)
  {
    if s != "" {
      if LetterOrDigit(s[0]) {
        SqueezeKeepsRuns(s[1..], false, run + [s[0]]);
        assert ([s[0]] + Squeeze(s[1..], false))[1..] == Squeeze(s[1..], false);
      } else {
        SqueezeKeepsRuns(s[1..], true, "");
        Seqs.EmptyLeft(Squeeze(s[1..], true));
        Seqs.EmptyLeft(Runs(s[1..], ""));
        assert ("_" + Squeeze(s[1..], true))[1..] == Squeeze(s[1..], true);
      }
    }
  }

  /** A separator at either end does not matter. */
  lemma SeparatorBefore(c: char, s: string)
    requires !LetterOrDigit(c)
    ensures Runs([c] + s, "") == Runs(s, "")
  {
    assert ([c] + s)[1..] == s;
    Seqs.EmptyLeft(Runs(s, ""));
  }

  lemma {:induction false} SeparatorBehind(s: string, c: char, run: string)
    requires !LetterOrDigit(c)
    ensures Runs(s + [c], run) == Runs(s, run)
  {
    if s == "" {
      assert s + [c] == [c] && [c][1..] == "";
      Seqs.EmptyRight(IfRun(run));
    } else {
      assert (s + [c])[1..] == s[1..] + [c] && (s + [c])[0] == s[0];
      SeparatorBehind(s[1..], c, if LetterOrDigit(s[0]) then run + [s[0]] else "");
    }
  }

  lemma {:induction false} TrimKeepsRuns(s: string)
    ensures Runs(TrimLeft(s), "") == Runs(s, "") && Runs(TrimLeftUnderscore(s), "") == Runs(s, "")
    ensures Runs(TrimRight(s), "") == Runs(s, "") && Runs(TrimRightUnderscore(s), "") == Runs(s, "")
  {
    if s != "" {
      assert s == [s[0]] + s[1..] && s == s[..|s| - 1] + [s[|s| - 1]];
      if !LetterOrDigit(s[0]) {
        SeparatorBefore(s[0], s[1..]);
        TrimKeepsRuns(s[1..]);
      }
      if !LetterOrDigit(s[|s| - 1]) {
        SeparatorBehind(s[..|s| - 1], s[|s| - 1], "");
        TrimKeepsRuns(s[..|s| - 1]);
      }
    }
  }

  /** The name of a parameter is the runs of letters and digits of the given text, with underscores between them. */
  lemma ParamNameIsRuns(value: string)
    ensures ParamName(value) == Underscored(Runs(value, ""))
  {
    var squeezed := Squeeze(TrimSpace(value), false);
    TrimKeepsRuns(value);
    TrimKeepsRuns(TrimLeft(value));
    SqueezeKeepsRuns(TrimSpace(value), false, "");
    TrimKeepsRuns(squeezed);
    TrimKeepsRuns(TrimLeftUnderscore(squeezed));
    ParamNameIsName(value);
    hide Runs, TrimSpace, Squeeze, TrimLeftUnderscore, TrimRightUnderscore;
    WordsAreRuns(ParamName(value), "");
    Seqs.EmptyLeft(ParamName(value));
  }

  ghost predicate HasName(s: string) {
    exists c :: c in s && LetterOrDigit(c)
  }

  lemma {:induction false} RunsIff(s: string, run: string)
    ensures Runs(s, run) != [] <==> run != "" || HasName(s)
  {
    if s != "" {
      assert forall c :: c in s <==> c == s[0] || c in s[1..];
      RunsIff(s[1..], if LetterOrDigit(s[0]) then run + [s[0]] else "");
    }
  }

  lemma {:induction false} RunsAreNotEmpty(s: string, run: string)
    ensures forall r :: r in Runs(s, run) ==> r != ""
  {
    if s != "" { RunsAreNotEmpty(s[1..], if LetterOrDigit(s[0]) then run + [s[0]] else ""); }
  }

  /** It is empty exactly if the text has neither letter nor digit. */
  lemma ParamNameIff(value: string)
    ensures ParamName(value) != "" <==> HasName(value)
  {
    ParamNameIsRuns(value);
    RunsIff(value, "");
    RunsAreNotEmpty(value, "");
    hide ParamName, Runs;
    var runs := Runs(value, "");
    if runs != [] { assert runs[0] in runs; }
  }

  // -------- parameter names in the editor --------

  lemma {:induction false} LowerHasNoCapitals(s: string)
    ensures forall c :: c in Tokens.ToLower(s) ==> !('A' <= c <= 'Z')
  {
    if s != "" { LowerHasNoCapitals(s[1..]); }
  }

  lemma {:induction false} SameSqueeze(s: string, inRun: bool)
    requires forall c :: c in s ==> !('A' <= c <= 'Z')
    ensures Tokens.Squeeze(s, inRun) == Squeeze(s, inRun)
  {
    if s != "" {
      assert s[0] in s && forall c :: c in s[1..] ==> c in s;
      SameSqueeze(s[1..], !LetterOrDigit(s[0]));
    }
  }

  lemma {:induction false} SqueezeEnds(s: string, last: bool)
    requires s != ""
    ensures var r := Squeeze(s, last);
            if r == "" then last && !LetterOrDigit(s[|s| - 1])
            else (r[|r| - 1] == '_' <==> !LetterOrDigit(s[|s| - 1]))
    ensures !last ==> Squeeze(s, last) != "" && (Squeeze(s, last)[0] == '_' <==> !LetterOrDigit(s[0]))
  {
    if |s| > 1 {
      SqueezeEnds(s[1..], !LetterOrDigit(s[0]));
    } else {
      assert s[1..] == "";
    }
  }

  /**
    The editor's name of a parameter is the runs of letters and digits of the text in lower case, with
    underscores between them, and one at an end where the text has something else.
   */
  lemma EditorNameIsRuns(value: string)
    ensures var name, low := Tokens.ReplaceChain(value), Tokens.ToLower(value);
            && TrimRightUnderscore(TrimLeftUnderscore(name)) == Underscored(Runs(low, ""))
            && (name == "" <==> low == "")
            && (name != "" ==> (name[0] == '_' <==> !LetterOrDigit(low[0])))
            && (name != "" ==> (name[|name| - 1] == '_' <==> !LetterOrDigit(low[|low| - 1])))
  {
    Tokens.ReplaceChainIsNormalName(value);
    LowerHasNoCapitals(value);
    hide Tokens.ReplaceChain, Tokens.ToLower, Tokens.Squeeze, Squeeze, Runs, Underscored;
    hide TrimRightUnderscore, TrimLeftUnderscore, LetterOrDigit;
    var low := Tokens.ToLower(value);
    SameSqueeze(low, false);
    if low != "" { SqueezeEnds(low, false); }
    SqueezedIsRuns(low);
    assert Tokens.Squeeze("", false) == "" by { NothingSqueezed(); }
  }

  lemma NothingSqueezed()
    ensures Tokens.Squeeze("", false) == ""
  {
  }

  lemma SqueezedIsRuns(s: string)
    ensures TrimRightUnderscore(TrimLeftUnderscore(Squeeze(s, false))) == Underscored(Runs(s, ""))
  {
    SqueezeKeepsRuns(s, false, "");
    var name := Squeeze(s, false);
    SqueezeIsWords(s, false);
    hide Squeeze, Runs;
    TrimKeepsRuns(name);
    TrimKeepsRuns(TrimLeftUnderscore(name));
    TrimLeftKeepsWords(name);
    var left := TrimLeftUnderscore(name);
    TrimRightUnderscoreFacts(left);
    var trimmed := TrimRightUnderscore(left);
    hide TrimRightUnderscore, TrimLeftUnderscore;
    assert trimmed == left[..|trimmed|];
    PrefixHasNoDouble(left, |trimmed|);
    assert trimmed != "" ==> trimmed[0] == left[0];
    WordsAreRuns(trimmed, "");
    Seqs.EmptyLeft(trimmed);
  }

  lemma EditorNameExample()
    ensures Tokens.ReplaceChain("U-\U{212A}") == "u_k" && Tokens.ReplaceChain("\U{130}") == "i_"
  {
    Tokens.ReplaceChainIsNormalName("\U{130}");
    assert Tokens.ToLower("\U{130}") == ['i', '\U{307}'] && ['i', '\U{307}'][1..] == ['\U{307}'];
    Tokens.ReplaceChainIsNormalName("U-\U{212A}");
    assert "U-\U{212A}"[1..] == "-\U{212A}" && "-\U{212A}"[1..] == "\U{212A}" && "\U{212A}"[1..] == "";
    assert Tokens.ToLower("\U{212A}") == "k";
    assert Tokens.ToLower("U-\U{212A}") == "u-k";
    assert "u-k"[1..] == "-k" && "-k"[1..] == "k" && "k"[1..] == "";
  }

  // -------- which paths are accepted --------

  /** A trimmed piece: a colon or braces around a text with a letter or digit, or neither colon in front nor braces. */
  ghost predicate AcceptedPiece(t: string) {
    && t != ""
    && (|| (t[0] == ':' && HasName(t[1..]))
        || (|t| >= 2 && t[0] == '{' && t[|t| - 1] == '}' && HasName(t[1..|t| - 1]))
        || (t[0] != ':' && '{' !in t && '}' !in t))
  }

  lemma SegmentAcceptedIff(segment: string)
    ensures NormalizeSegment(segment).Some? <==> AcceptedPiece(TrimSpace(segment))
  {
    hide TrimSpace, ParamName, HasName;
    var t := TrimSpace(segment);
    if t != "" {
      ParamNameIff(t[1..]);
      if |t| >= 2 { ParamNameIff(t[1..|t| - 1]); }
      assert t[0] in t && t[|t| - 1] in t;
      if |t| == 1 { assert t[0] == t[|t| - 1]; }
    }
  }

  lemma {:induction false} SegmentsAcceptedIff(parts: seq<string>)
    ensures NormalizeSegments(parts).Some? <==> forall p :: p in parts ==> AcceptedPiece(TrimSpace(p))
  {
    hide TrimSpace, AcceptedPiece, NormalizeSegment;
    if parts != [] {
      SegmentAcceptedIff(parts[0]);
      SegmentsAcceptedIff(parts[1..]);
      assert forall p :: p in parts <==> p == parts[0] || p in parts[1..];
    }
  }

  /** A path is accepted exactly if it is not blank, has no question mark, and every non-empty piece is accepted. */
  lemma PathAcceptedIff(value: string)
    ensures NormalizePath(value).Some?
            <==> TrimSpace(value) != "" && '?' !in TrimSpace(value)
                 && forall p :: p in Pieces(TrimSpace(value)) ==> AcceptedPiece(TrimSpace(p))
  {
    SegmentsAcceptedIff(Pieces(TrimSpace(value)));
    hide TrimSpace, Pieces, NormalizeSegments, AcceptedPiece;
  }

  // -------- both ways to write a parameter --------

  /** What an accepted piece becomes: a colon and the name, or itself. */
  ghost function Meaning(t: string): string
    requires t != ""
  {
    if t[0] == ':' then ":" + Underscored(Runs(t[1..], ""))
    else if |t| >= 2 && t[0] == '{' && t[|t| - 1] == '}' then ":" + Underscored(Runs(t[1..|t| - 1], ""))
    else t
  }

  lemma SegmentMeaning(segment: string)
    requires AcceptedPiece(TrimSpace(segment))
    ensures NormalizeSegment(segment) == Some(Meaning(TrimSpace(segment)))
  {
    SegmentAcceptedIff(segment);
    hide TrimSpace, ParamName, HasName, Runs, Underscored;
    var t := TrimSpace(segment);
    ParamNameIsRuns(t[1..]);
    if |t| >= 2 { ParamNameIsRuns(t[1..|t| - 1]); }
    if |t| == 1 { assert t[0] == t[|t| - 1]; }
  }

  lemma {:induction false} SegmentsMeaning(parts: seq<string>)
    requires NormalizeSegments(parts).Some?
    ensures var r := NormalizeSegments(parts).value;
            && |r| == |parts|
            && forall k :: 0 <= k < |parts| ==> TrimSpace(parts[k]) != "" && r[k] == Meaning(TrimSpace(parts[k]))
  {
    hide TrimSpace, AcceptedPiece, NormalizeSegment, Meaning;
    if parts != [] {
      SegmentsAcceptedIff(parts);
      assert parts[0] in parts;
      SegmentMeaning(parts[0]);
      assert TrimSpace(parts[0]) != "" by { AcceptedIsNotBlank(TrimSpace(parts[0])); }
      SegmentsMeaning(parts[1..]);
    }
  }

  lemma AcceptedIsNotBlank(t: string)
    requires AcceptedPiece(t)
    ensures t != ""
  {
  }

  /** The normal form of an accepted path: a slash, and what its pieces become with slashes between them. */
  lemma PathMeans(value: string, pieces: seq<string>)
    requires NormalizePath(value).Some? && pieces == Pieces(TrimSpace(value))
    ensures forall k :: 0 <= k < |pieces| ==> TrimSpace(pieces[k]) != ""
    ensures NormalizePath(value)
            == Some("/" + Join(seq(|pieces|, k requires 0 <= k < |pieces| && TrimSpace(pieces[k]) != "" =>
                                     Meaning(TrimSpace(pieces[k])))))
  {
    SegmentsMeaning(pieces);
    hide TrimSpace, Pieces, NormalizeSegments, Meaning, Join;
    var segs := NormalizeSegments(pieces).value;
    assert segs
           == seq(|pieces|,
                  k requires 0 <= k < |pieces| && TrimSpace(pieces[k]) != "" => Meaning(TrimSpace(pieces[k])));
  }

  lemma {:induction false} TrimLeftAround(x: string, y: string)
    requires y != "" && !IsSpace(y[0])
    ensures TrimLeft(x + y) == TrimLeft(x) + y
  {
    if x == "" {
      assert x + y == y;
      Seqs.EmptyLeft(y);
    } else if IsSpace(x[0]) {
      assert (x + y)[1..] == x[1..] + y;
      TrimLeftAround(x[1..], y);
    }
  }

  lemma {:induction false} TrimRightAround(x: string, y: string)
    requires x != "" && !IsSpace(x[|x| - 1])
    ensures TrimRight(x + y) == x + TrimRight(y)
  {
    if y == "" {
      assert x + y == x;
      Seqs.EmptyRight(x);
    } else if IsSpace(y[|y| - 1]) {
      assert (x + y)[..|x + y| - 1] == x + y[..|y| - 1];
      TrimRightAround(x, y[..|y| - 1]);
    }
  }

  /** Trimming around a text with nothing to trim only trims what is around it. */
  lemma TrimAround(a: string, m: string, b: string)
    requires m != "" && Trimmed(m)
    ensures TrimSpace(a + m + b) == TrimLeft(a) + m + TrimRight(b)
  {
    Seqs.Assoc(a, m, b);
    TrimLeftAround(a, m + b);
    Seqs.Assoc(TrimLeft(a), m, b);
    TrimRightAround(TrimLeft(a) + m, b);
  }

  /** A text that ends where a piece ends, or starts where one starts. */
  predicate EndsPiece(a: string) {
    a == "" || a[|a| - 1] == '/'
  }

  predicate StartsPiece(b: string) {
    b == "" || b[0] == '/'
  }

  lemma PiecesOfOne(m: string)
    requires m != "" && '/' !in m
    ensures Pieces(m) == [m]
  {
    SplitPlain(m);
    assert NonEmpty([m]) == [m] by { assert [m][1..] == []; }
  }

  lemma PiecesAround(a: string, m: string, b: string)
    requires EndsPiece(a) && StartsPiece(b) && m != "" && '/' !in m
    ensures Pieces(a + m + b) == Pieces(a) + [m] + Pieces(b)
  {
    PiecesBefore(a, m);
    if b == "" {
      assert a + m + b == a + m;
      assert Pieces("") == [];
      Seqs.EmptyRight(Pieces(a) + [m]);
    } else {
      assert b == "/" + b[1..];
      assert a + m + b == a + m + "/" + b[1..];
      SplitAppend(a + m, b[1..]);
      NonEmptyAppend(Split(a + m), Split(b[1..]));
      PiecesLeadingSlash(b[1..]);
    }
  }

  lemma PiecesBefore(a: string, m: string)
    requires EndsPiece(a) && m != "" && '/' !in m
    ensures Pieces(a + m) == Pieces(a) + [m]
  {
    PiecesOfOne(m);
    if a == "" {
      assert a + m == m && Pieces("") == [];
      Seqs.EmptyLeft([m]);
    } else {
      var x := a[..|a| - 1];
      assert a == x + "/" && a + m == x + "/" + m;
      SplitAppend(x, m);
      NonEmptyAppend(Split(x), Split(m));
      PiecesTrailingSlash(x);
    }
  }

  lemma {:induction false} ReplacedPiece(p: seq<string>, s: string, s': string, q: seq<string>)
    requires NormalizeSegment(s) == NormalizeSegment(s')
    ensures NormalizeSegments(p + [s] + q) == NormalizeSegments(p + [s'] + q)
  {
    hide NormalizeSegment;
    if p == [] {
      assert ([] + [s] + q)[1..] == q && ([] + [s'] + q)[1..] == q;
    } else {
      assert (p + [s] + q)[1..] == p[1..] + [s] + q && (p + [s'] + q)[1..] == p[1..] + [s'] + q;
      assert (p + [s] + q)[0] == p[0] == (p + [s'] + q)[0];
      ReplacedPiece(p[1..], s, s', q);
    }
  }

  /** A path with {n} for a piece and the path with :n in its place normalise alike, or are both refused. */
  lemma BracesAreColon(a: string, n: string, b: string)
    requires EndsPiece(a) && StartsPiece(b) && '/' !in n
    ensures NormalizePath(a + "{" + n + "}" + b) == NormalizePath(a + ":" + n + b)
  {
    hide TrimSpace, TrimLeft, TrimRight, Pieces, NormalizeSegments, NormalizeSegment, EndsPiece, StartsPiece;
    var braced, x, y := "{" + n + "}", TrimLeft(a), TrimRight(b);
    assert a + "{" + n + "}" + b == a + braced + b;
    assert Trimmed(braced) && '/' !in braced;
    TrimAround(a, braced, b);
    var after := TrimmedColon(a, n, b);
    TrimLeftEnds(a);
    TrimRightStarts(b);
    SameName(n, after);
    PiecesAround(x, braced, y);
    PiecesAround(x, after, y);
    ReplacedPiece(Pieces(x), braced, after, Pieces(y));
    SameQuestion(x, n, after, y);
  }

  /** The path with the colon, trimmed: the piece may lose the spaces behind the name. */
  lemma TrimmedColon(a: string, n: string, b: string) returns (after: string)
    requires EndsPiece(a) && StartsPiece(b) && '/' !in n
    ensures TrimSpace(a + ":" + n + b) == TrimLeft(a) + after + TrimRight(b)
    ensures (after == ":" + TrimRight(n) || after == ":" + n) && '/' !in after
  {
    var colon := ":" + TrimRight(n);
    var rest := RestIsSpace(n);
    TrimRightFacts(n);
    hide TrimSpace, TrimLeft, TrimRight;
    assert a + ":" + n + b == a + colon + (rest + b);
    TrimAround(a, colon, rest + b);
    TrimmedRest(rest, b);
    after := if b == "" then colon else ":" + n;
    assert b == "" ==> TrimRight(b) == "" by { TrimSpaces(""); }
    AfterTrim(TrimLeft(a), colon, rest, n, b);
  }

  lemma AfterTrim(x: string, colon: string, rest: string, n: string, b: string)
    requires colon + rest == ":" + n
    ensures x + colon + (if b == "" then "" else rest + TrimRight(b))
            == x + (if b == "" then colon else ":" + n) + TrimRight(b)
  {
    if b == "" {
      Seqs.EmptyRight(x + colon);
    } else {
      assert x + colon + (rest + TrimRight(b)) == x + (colon + rest) + TrimRight(b);
    }
  }

  /** The spaces behind a name go with the path if it ends there, and else stay with the piece. */
  lemma TrimmedRest(rest: string, b: string)
    requires StartsPiece(b) && forall c :: c in rest ==> IsSpace(c)
    ensures TrimRight(rest + b) == if b == "" then "" else rest + TrimRight(b)
  {
    if b == "" {
      assert rest + b == rest;
      TrimSpaces(rest);
    } else {
      var front, tail := rest + "/", b[1..];
      assert b == "/" + tail && rest + b == front + tail;
      hide IsSpace;
      assert !IsSpace('/') by { SlashIsNoSpace(); }
      TrimRightAround("/", tail);
      TrimRightAround(front, tail);
      Seqs.Assoc(rest, "/", TrimRight(tail));
    }
  }

  lemma SlashIsNoSpace()
    ensures !IsSpace('/')
  {
  }

  lemma {:induction false} RestIsSpace(n: string) returns (rest: string)
    ensures n == TrimRight(n) + rest && forall c :: c in rest ==> IsSpace(c)
  {
    rest := "";
    if n != "" && IsSpace(n[|n| - 1]) {
      var before := RestIsSpace(n[..|n| - 1]);
      rest := before + [n[|n| - 1]];
    }
  }

  lemma {:induction false} TrimSpaces(s: string)
    requires forall c :: c in s ==> IsSpace(c)
    ensures TrimRight(s) == ""
  {
    if s != "" {
      assert s[|s| - 1] in s && forall c :: c in s[..|s| - 1] ==> c in s;
      TrimSpaces(s[..|s| - 1]);
    }
  }

  lemma {:induction false} TrimLeftEnds(a: string)
    requires EndsPiece(a)
    ensures EndsPiece(TrimLeft(a))
  {
    if a != "" && IsSpace(a[0]) { TrimLeftEnds(a[1..]); }
  }

  lemma {:induction false} TrimRightStarts(b: string)
    requires StartsPiece(b)
    ensures StartsPiece(TrimRight(b))
  {
    if b != "" && IsSpace(b[|b| - 1]) { TrimRightStarts(b[..|b| - 1]); }
  }

  lemma TrimColon(s: string)
    ensures TrimSpace(":" + s) == ":" + TrimRight(s)
  {
    TrimAround("", ":", s);
    assert "" + ":" + s == ":" + s && "" + ":" + TrimRight(s) == ":" + TrimRight(s);
  }

  lemma BracedSegment(n: string)
    ensures NormalizeSegment("{" + n + "}") == if ParamName(n) == "" then None else Some(":" + ParamName(n))
  {
    var braced := "{" + n + "}";
    TrimmedIsFixed(braced);
    assert braced[1..|braced| - 1] == n;
    hide TrimSpace, ParamName;
    assert braced[0] == '{' && braced[|braced| - 1] == '}';
  }

  lemma ColonSegment(s: string)
    ensures NormalizeSegment(":" + s) == if ParamName(s) == "" then None else Some(":" + ParamName(s))
  {
    TrimColon(s);
    assert (":" + TrimRight(s))[1..] == TrimRight(s);
    ParamNameIsRuns(s);
    ParamNameIsRuns(TrimRight(s));
    TrimKeepsRuns(s);
    hide TrimSpace, ParamName, TrimRight, Runs, Underscored;
  }

  /** Both pieces have the name of n. */
  lemma SameName(n: string, after: string)
    requires after == ":" + TrimRight(n) || after == ":" + n
    ensures NormalizeSegment("{" + n + "}") == NormalizeSegment(after)
  {
    BracedSegment(n);
    ColonSegment(n);
    ColonSegment(TrimRight(n));
    ParamNameIsRuns(n);
    ParamNameIsRuns(TrimRight(n));
    TrimKeepsRuns(n);
    hide NormalizeSegment, ParamName, TrimRight, Runs, Underscored;
  }

  lemma SameQuestion(x: string, n: string, after: string, y: string)
    requires after == ":" + TrimRight(n) || after == ":" + n
    ensures '?' in x + ("{" + n + "}") + y <==> '?' in x + after + y
  {
    var rest := RestIsSpace(n);
    var tail := TrimRight(n);
    assert '?' in n <==> '?' in tail || '?' in rest;
    assert '?' in x + ("{" + n + "}") + y <==> '?' in x || '?' in n || '?' in y;
    assert '?' in x + after + y <==> '?' in x || '?' in after || '?' in y;
  }

  lemma SegmentsAreGood()
    ensures GoodSegments(["users", ":id"])
  {
    assert ":id"[1..] == "id";
    assert GoodSegment("users") && GoodSegment(":id");
  }

  lemma RenderedExample()
    ensures Render(["users", ":id"]) == "/users/:id"
  {
    assert ["users", ":id"][1..] == [":id"];
    assert Join([":id"]) == ":id";
  }

  /** So a parameter in braces is one. */
  lemma BracesExample()
    ensures NormalizePath("/users/{id}") == Some("/users/:id") && NormalizePath("/users/:id") == Some("/users/:id")
  {
    SegmentsAreGood();
    RenderedExample();
    SegmentsOfRender(["users", ":id"]);
    hide *;
    BracesAreColon("/users/", "id", "") by { assert EndsPiece("/users/") && StartsPiece(""); }
    assert "/users/" + "{" + "id" + "}" + "" == "/users/{id}" && "/users/" + ":" + "id" + "" == "/users/:id";
  }

  /** Braces or a colon without a name are refused, and so is a lone brace. */
  lemma RefusedPieces()
    ensures !AcceptedPiece("") && !AcceptedPiece("{}") && !AcceptedPiece("{-}") && !AcceptedPiece(":")
    ensures !AcceptedPiece("{id") && !AcceptedPiece("id}") && AcceptedPiece("a:b") && AcceptedPiece("{ id }")
  {
    assert "{}"[1..1] == "" && "{-}"[1..2] == "-" && ":"[1..] == "" && "{ id }"[1..5][1] == 'i';
    assert "{id"[0] == '{' && "id}"[2] == '}' && "a:b"[0] == 'a';
    var name := "{ id }"[1..5];
    assert name[1] in name && LetterOrDigit(name[1]);
  }
}
