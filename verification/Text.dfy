/**
  The string operations the path code is built from: trimming, splitting and
  joining at '/', and the repeated replacement of "//" by "/".
 */
module Text {

  /** White space as unicode.IsSpace of the Go library has it. */
  predicate IsSpace(c: char) {
    || c == ' '
    || '\t' <= c <= '\r'
    || c == '\U{85}' || c == '\U{A0}' || c == '\U{1680}'
    || '\U{2000}' <= c <= '\U{200A}'
    || c == '\U{2028}' || c == '\U{2029}' || c == '\U{202F}' || c == '\U{205F}' || c == '\U{3000}'
  }

  function TrimLeft(s: string): string {
    if s != "" && IsSpace(s[0]) then TrimLeft(s[1..]) else s
  }

  function TrimRight(s: string): string {
    if s != "" && IsSpace(s[|s| - 1]) then TrimRight(s[..|s| - 1]) else s
  }

  function TrimSpace(s: string): string {
    TrimRight(TrimLeft(s))
  }

  /** No white space at either end. */
  predicate Trimmed(s: string) {
    s != "" ==> !IsSpace(s[0]) && !IsSpace(s[|s| - 1])
  }

  lemma {:induction false} TrimLeftFacts(s: string)
    ensures TrimLeft(s) != "" ==> !IsSpace(TrimLeft(s)[0])
    ensures forall c :: c in TrimLeft(s) ==> c in s
    ensures |TrimLeft(s)| <= |s|
  {
    if s != "" && IsSpace(s[0]) { TrimLeftFacts(s[1..]); }
  }

  lemma {:induction false} TrimRightFacts(s: string)
    ensures TrimRight(s) <= s
    ensures TrimRight(s) != "" ==> !IsSpace(TrimRight(s)[|TrimRight(s)| - 1])
  {
    if s != "" && IsSpace(s[|s| - 1]) { TrimRightFacts(s[..|s| - 1]); }
  }

  lemma TrimSpaceFacts(s: string)
    ensures Trimmed(TrimSpace(s))
    ensures forall c :: c in TrimSpace(s) ==> c in s
    ensures |TrimSpace(s)| <= |s|
  {
    TrimLeftFacts(s);
    TrimRightFacts(TrimLeft(s));
  }

  lemma TrimmedIsFixed(s: string)
    requires Trimmed(s)
    ensures TrimSpace(s) == s
  {
  }

  /** A leading space never matters to TrimSpace. */
  lemma TrimSpaceCons(c: char, s: string)
    requires IsSpace(c)
    ensures TrimSpace([c] + s) == TrimSpace(s)
  {
    assert ([c] + s)[1..] == s;
  }

  lemma {:induction false} TrimLeftSnoc(s: string, c: char)
    requires IsSpace(c)
    ensures TrimLeft(s + [c]) == if TrimLeft(s) == "" then "" else TrimLeft(s) + [c]
  {
    if s == "" {
      assert s + [c] == [c] && [c][1..] == "";
    } else if IsSpace(s[0]) {
      assert (s + [c])[1..] == s[1..] + [c];
      TrimLeftSnoc(s[1..], c);
    }
  }

  /** Nor does a trailing one. */
  lemma TrimSpaceSnoc(s: string, c: char)
    requires IsSpace(c)
    ensures TrimSpace(s + [c]) == TrimSpace(s)
  {
    TrimLeftSnoc(s, c);
    var t := TrimLeft(s);
    if t != "" { assert (t + [c])[..|t|] == t; }
  }

  /** strings.Split(s, "/"): always at least one piece. */
  function Split(s: string): (r: seq<string>)
    ensures |r| >= 1
  {
    if s == "" then [""]
    else if s[0] == '/' then [""] + Split(s[1..])
    else var rest := Split(s[1..]); [[s[0]] + rest[0]] + rest[1..]
  }

  /** strings.Join(parts, "/"). */
  function Join(parts: seq<string>): string {
    if |parts| == 0 then ""
    else if |parts| == 1 then parts[0]
    else parts[0] + "/" + Join(parts[1..])
  }

  lemma {:induction false} SplitPieces(s: string)
    ensures forall p :: p in Split(s) ==> '/' !in p
    ensures forall p, c :: p in Split(s) && c in p ==> c in s
  {
    if s != "" {
      SplitPieces(s[1..]);
      var rest := Split(s[1..]);
      assert forall p :: p in rest[1..] ==> p in rest;
      assert forall c :: c in s[1..] ==> c in s;
    }
  }

  lemma {:induction false} SplitWord(p: string, s: string)
    requires '/' !in p
    ensures Split(p + "/" + s) == [p] + Split(s)
  {
    if p == "" {
      assert p + "/" + s == ['/'] + s;
    } else {
      assert (p + "/" + s)[1..] == p[1..] + "/" + s;
      SplitWord(p[1..], s);
      assert [p[0]] + p[1..] == p;
    }
  }

  lemma {:induction false} SplitPlain(p: string)
    requires '/' !in p
    ensures Split(p) == [p]
  {
    if p != "" {
      SplitPlain(p[1..]);
      assert [p[0]] + p[1..] == p;
    }
  }

  /** Split undoes Join on pieces that hold no separator. */
  lemma {:induction false} SplitJoin(parts: seq<string>)
    requires |parts| >= 1 && forall p :: p in parts ==> '/' !in p
    ensures Split(Join(parts)) == parts
  {
    if |parts| == 1 {
      SplitPlain(parts[0]);
    } else {
      SplitJoin(parts[1..]);
      SplitWord(parts[0], Join(parts[1..]));
      assert [parts[0]] + parts[1..] == parts;
    }
  }

  lemma {:induction false} JoinSplit(s: string)
    ensures Join(Split(s)) == s
  {
    if s != "" {
      JoinSplit(s[1..]);
      var rest := Split(s[1..]);
      if s[0] == '/' {
        assert ([""] + rest)[1..] == rest;
        assert "" + "/" + s[1..] == s;
      } else {
        assert ([[s[0]] + rest[0]] + rest[1..])[1..] == rest[1..];
        assert [s[0]] + s[1..] == s;
        if |rest| > 1 { assert [s[0]] + (rest[0] + "/" + Join(rest[1..])) == [s[0]] + rest[0] + "/" + Join(rest[1..]); }
      }
    }
  }

  lemma {:induction false} JoinAppend(a: seq<string>, b: seq<string>)
    requires |a| >= 1 && |b| >= 1
    ensures Join(a + b) == Join(a) + "/" + Join(b)
  {
    if |a| == 1 {
      assert (a + b)[1..] == b;
    } else {
      JoinAppend(a[1..], b);
      assert (a + b)[1..] == a[1..] + b;
    }
  }

  lemma {:induction false} SplitSnocSlash(s: string)
    ensures Split(s + "/") == Split(s) + [""]
  {
    if s == "" {
      assert s + "/" == "/" && "/"[1..] == "";
    } else {
      assert (s + "/")[1..] == s[1..] + "/";
      SplitSnocSlash(s[1..]);
    }
  }

  /** A further character that is no separator lengthens the last piece. */
  lemma {:induction false} SplitSnoc(s: string, c: char)
    requires c != '/'
    ensures var p := Split(s); Split(s + [c]) == p[..|p| - 1] + [p[|p| - 1] + [c]]
  {
    if s == "" {
      SplitPlain([c]);
      assert s + [c] == [c];
    } else {
      assert (s + [c])[1..] == s[1..] + [c];
      SplitSnoc(s[1..], c);
      var p, rest := Split(s), Split(s[1..]);
      if s[0] == '/' {
        assert p == [""] + rest;
        assert p[..|p| - 1] == [""] + rest[..|rest| - 1];
      } else if |rest| > 1 {
        assert p[..|p| - 1] == [p[0]] + rest[1..][..|rest| - 2];
        assert rest[..|rest| - 1][1..] == rest[1..][..|rest| - 2];
      } else {
        assert [s[0]] + (rest[0] + [c]) == p[0] + [c];
      }
    }
  }

  /** Two underscores side by side. */
  predicate HasDoubleUnderscore(s: string) {
    |s| >= 2 && ((s[0] == '_' && s[1] == '_') || HasDoubleUnderscore(s[1..]))
  }

  // -------- "//" to "/" --------

  /** strings.Contains(s, "//"). */
  predicate HasDoubleSlash(s: string) {
    |s| >= 2 && ((s[0] == '/' && s[1] == '/') || HasDoubleSlash(s[1..]))
  }

  /** strings.ReplaceAll(s, "//", "/"): one pass over disjoint occurrences. */
  function ReplaceDoubleSlash(s: string): (r: string) {
    if |s| < 2 then s
    else if s[0] == '/' && s[1] == '/' then "/" + ReplaceDoubleSlash(s[2..])
    else [s[0]] + ReplaceDoubleSlash(s[1..])
  }

  /** Every run of '/' becomes one '/'. */
  function Collapse(s: string): string {
    if |s| < 2 then s
    else if s[0] == '/' && s[1] == '/' then Collapse(s[1..])
    else [s[0]] + Collapse(s[1..])
  }

  lemma {:induction false} CollapseHead(s: string)
    requires s != ""
    ensures Collapse(s) != "" && Collapse(s)[0] == s[0]
  {
    if |s| >= 2 && s[0] == '/' && s[1] == '/' { CollapseHead(s[1..]); }
  }

  lemma CollapseCons(c: char, s: string)
    ensures Collapse([c] + s) == if c == '/' && s != "" && s[0] == '/' then Collapse(s) else [c] + Collapse(s)
  {
    assert ([c] + s)[1..] == s;
  }

  lemma {:induction false} CollapseHasNoDouble(s: string)
    ensures !HasDoubleSlash(Collapse(s))
  {
    if |s| >= 2 {
      CollapseHasNoDouble(s[1..]);
      CollapseHead(s[1..]);
      var r := Collapse(s[1..]);
      assert ([s[0]] + r)[1..] == r;
    }
  }

  /** One replacement pass changes nothing that Collapse can see. */
  lemma {:induction false} ReplacePassKeepsCollapse(s: string)
    ensures Collapse(ReplaceDoubleSlash(s)) == Collapse(s)
    ensures s != "" ==> ReplaceDoubleSlash(s) != "" && ReplaceDoubleSlash(s)[0] == s[0]
    decreases |s|
  {
    if |s| >= 2 {
      if s[0] == '/' && s[1] == '/' {
        ReplacePassKeepsCollapse(s[2..]);
        var r := ReplaceDoubleSlash(s[2..]);
        CollapseCons('/', r);
        CollapseCons('/', s[2..]);
        assert s[1..] == ['/'] + s[2..];
      } else {
        ReplacePassKeepsCollapse(s[1..]);
        CollapseCons(s[0], ReplaceDoubleSlash(s[1..]));
      }
    }
  }

  lemma {:induction false} ReplacePassShrinks(s: string)
    ensures |ReplaceDoubleSlash(s)| <= |s|
    ensures HasDoubleSlash(s) ==> |ReplaceDoubleSlash(s)| < |s|
    decreases |s|
  {
    if |s| >= 2 {
      if s[0] == '/' && s[1] == '/' {
        ReplacePassShrinks(s[2..]);
      } else {
        ReplacePassShrinks(s[1..]);
      }
    }
  }

  lemma {:induction false} CollapseFixed(s: string)
    requires !HasDoubleSlash(s)
    ensures Collapse(s) == s
  {
    if |s| >= 2 { CollapseFixed(s[1..]); }
  }

  /** The loop of the two path normalisers: replace until no "//" is left. */
  method CollapseSlashes(s: string) returns (r: string)
    ensures r == Collapse(s)
    ensures !HasDoubleSlash(r)
  {
    r := s;
    while HasDoubleSlash(r)
      invariant Collapse(r) == Collapse(s)
      decreases |r|
    {
      ReplacePassKeepsCollapse(r);
      ReplacePassShrinks(r);
      r := ReplaceDoubleSlash(r);
    }
    CollapseFixed(r);
  }

  // -------- the non-empty pieces of a path --------

  function NonEmpty(parts: seq<string>): seq<string> {
    if |parts| == 0 then []
    else if parts[0] == "" then NonEmpty(parts[1..])
    else [parts[0]] + NonEmpty(parts[1..])
  }

  lemma {:induction false} NonEmptyAppend(a: seq<string>, b: seq<string>)
    ensures NonEmpty(a + b) == NonEmpty(a) + NonEmpty(b)
  {
    if a == [] {
      assert a + b == b;
    } else {
      assert (a + b)[1..] == a[1..] + b;
      NonEmptyAppend(a[1..], b);
    }
  }

  lemma {:induction false} NonEmptyFacts(parts: seq<string>)
    ensures forall p :: p in NonEmpty(parts) <==> p in parts && p != ""
    ensures (forall p :: p in parts ==> p != "") ==> NonEmpty(parts) == parts
  {
    if parts != [] {
      NonEmptyFacts(parts[1..]);
      assert parts == [parts[0]] + parts[1..];
      assert forall p :: p in parts[1..] ==> p in parts;
      assert parts[0] in parts;
    }
  }

  /** The pieces between slashes that are not empty. */
  function Pieces(s: string): seq<string> {
    NonEmpty(Split(s))
  }

  lemma PiecesLeadingSlash(s: string)
    ensures Pieces("/" + s) == Pieces(s)
  {
    assert ("/" + s)[1..] == s;
    assert Split("/" + s) == [""] + Split(s);
    assert ([""] + Split(s))[1..] == Split(s);
  }

  lemma PiecesTrailingSlash(s: string)
    ensures Pieces(s + "/") == Pieces(s)
  {
    SplitSnocSlash(s);
    NonEmptyAppend(Split(s), [""]);
  }

  lemma {:induction false} SplitCollapse(s: string)
    ensures Split(Collapse(s))[0] == Split(s)[0]
    ensures NonEmpty(Split(Collapse(s))[1..]) == NonEmpty(Split(s)[1..])
  {
    if |s| >= 2 {
      SplitCollapse(s[1..]);
      var t := s[1..];
      var rest, rest' := Split(t), Split(Collapse(t));
      if s[0] == '/' {
        assert Split(s)[1..] == rest;
        assert rest == [rest[0]] + rest[1..] && rest' == [rest'[0]] + rest'[1..];
        if s[1] != '/' {
          assert (['/'] + Collapse(t))[1..] == Collapse(t);
          assert Split(Collapse(s))[1..] == rest';
        }
      } else {
        assert ([s[0]] + Collapse(t))[1..] == Collapse(t);
        assert Split(Collapse(s))[1..] == rest'[1..];
        assert Split(s)[1..] == rest[1..];
      }
    }
  }

  lemma PiecesCollapse(s: string)
    ensures Pieces(Collapse(s)) == Pieces(s)
  {
    SplitCollapse(s);
    var a, b := Split(Collapse(s)), Split(s);
    assert a == [a[0]] + a[1..] && b == [b[0]] + b[1..];
  }

  /** Without "//" and without a slash at either end every piece is non-empty. */
  lemma {:induction false} SplitHasNoEmpty(s: string)
    requires s != "" && s[|s| - 1] != '/' && !HasDoubleSlash(s)
    ensures forall p :: p in Split(s)[1..] ==> p != ""
    ensures s[0] != '/' ==> Split(s)[0] != ""
  {
    if |s| > 1 {
      var t := s[1..];
      SplitHasNoEmpty(t);
      if s[0] == '/' {
        assert Split(s)[1..] == Split(t);
        var q := Split(t);
        assert q == [q[0]] + q[1..];
      }
    } else {
      assert s[1..] == "";
    }
  }

  // -------- letter case of ASCII text --------

  function UpperChar(c: char): char {
    if 'a' <= c <= 'z' then (c as int - 32) as char else c
  }

  function ToUpper(s: string): (r: string)
    ensures |r| == |s|
    ensures forall i :: 0 <= i < |s| ==> r[i] == UpperChar(s[i])
  {
    if s == "" then "" else [UpperChar(s[0])] + ToUpper(s[1..])
  }

  lemma ToUpperIdempotent(s: string)
    ensures ToUpper(ToUpper(s)) == ToUpper(s)
  {
  }

  function LowerChar(c: char): char {
    if 'A' <= c <= 'Z' then (c as int + 32) as char else c
  }

  function ToLower(s: string): (r: string)
    ensures |r| == |s|
    ensures forall i :: 0 <= i < |s| ==> r[i] == LowerChar(s[i])
  {
    if s == "" then "" else [LowerChar(s[0])] + ToLower(s[1..])
  }

  // -------- examples --------

  lemma CaseExamples()
    ensures ToUpper("get-Z9") == "GET-Z9" && ToLower("POST-z9") == "post-z9"
  {
  }

  lemma TrimExamples()
    ensures TrimSpace(" \t\na b\r\U{A0}") == "a b" && TrimSpace(" \n") == "" && TrimSpace("-a-") == "-a-"
  {
    assert " \t\na b\r\U{A0}"[1..] == "\t\na b\r\U{A0}";
    assert "\t\na b\r\U{A0}"[1..] == "\na b\r\U{A0}";
    assert "\na b\r\U{A0}"[1..] == "a b\r\U{A0}";
    assert "a b\r\U{A0}"[..4] == "a b\r" && "a b\r"[..3] == "a b";
    assert " \n"[1..] == "\n" && "\n"[1..] == "";
  }
}
