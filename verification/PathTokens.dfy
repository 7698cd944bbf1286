/**
  The path-template tokenizer and serializer of the endpoint editor
  (apps/web/src/features/endpoint-editor/path-template.ts). Token ids are left
  out: equality of tokens is equality up to ids.
 */
module PathTokens {
  import opened Wrappers
  import Seqs
  import Strings = Text

  datatype Token = Text(value: string) | Param(name: string)

  // -------- parameter names --------

  predicate IsWordChar(c: char) {
    'a' <= c <= 'z' || '0' <= c <= '9' || c == '_'
  }

  predicate NotWordChar(c: char) {
    !IsWordChar(c)
  }

  predicate IsUnderscore(c: char) {
    c == '_'
  }

  /** White space as \s of JavaScript has it, and the hyphen. */
  predicate IsSpaceOrHyphen(c: char) {
    || c == '-' || c == ' ' || '\t' <= c <= '\r'
    || c == '\U{A0}' || c == '\U{1680}' || '\U{2000}' <= c <= '\U{200A}'
    || c == '\U{2028}' || c == '\U{2029}' || c == '\U{202F}' || c == '\U{205F}' || c == '\U{3000}' || c == '\U{FEFF}'
  }

  /**
    toLowerCase, as far as a name can show it. The Kelvin sign and the dotted
    capital I are the only characters outside ASCII whose lower case holds an
    ASCII letter; any other such character ends up as an underscore.
   */
  function Lower(c: char): string {
    if 'A' <= c <= 'Z' then [(c as int + 32) as char]
    else if c == '\U{212A}' then "k"
    else if c == '\U{130}' then ['i', '\U{307}']
    else [c]
  }

  function ToLower(s: string): string {
    if s == "" then "" else Lower(s[0]) + ToLower(s[1..])
  }

  /** value.replace(/[p]+/g, "_"): each run of characters with p becomes one underscore. */
  function ReplaceRuns(s: string, p: char -> bool, inRun: bool): string {
    if s == "" then ""
    else if p(s[0]) then (if inRun then "" else "_") + ReplaceRuns(s[1..], p, true)
    else [s[0]] + ReplaceRuns(s[1..], p, false)
  }

  /** normalizePathParamName, as written: lower case, then a chain of three replacements. */
  function ReplaceChain(value: string): string {
    var spaced := ReplaceRuns(ToLower(value), IsSpaceOrHyphen, false);
    var words := ReplaceRuns(spaced, NotWordChar, false);
    ReplaceRuns(words, IsUnderscore, false)
  }

  /** Letters and digits stay, every run of anything else becomes one underscore. */
  function Squeeze(s: string, inRun: bool): string {
    if s == "" then ""
    else if IsWordChar(s[0]) && s[0] != '_' then [s[0]] + Squeeze(s[1..], false)
    else (if inRun then "" else "_") + Squeeze(s[1..], true)
  }

  function NormalName(value: string): string {
    Squeeze(ToLower(value), false)
  }

  /** Lower-case letters, digits and single underscores. */
  ghost predicate IsNormalName(s: string) {
    (forall c :: c in s ==> IsWordChar(c)) && !Strings.HasDoubleUnderscore(s)
  }

  lemma ReplaceRunsCons(c: char, s: string, p: char -> bool, inRun: bool)
    ensures ReplaceRuns([c] + s, p, inRun)
         == if p(c) then (if inRun then "" else "_") + ReplaceRuns(s, p, true) else [c] + ReplaceRuns(s, p, false)
  {
    assert ([c] + s)[1..] == s;
  }

  /** The three passes at once; each flag says that its pass is inside a run. */
  lemma {:induction false} PassesAreSqueeze(s: string, a: bool, b: bool, c: bool)
    requires (a ==> c) && (b ==> c)
    ensures ReplaceRuns(ReplaceRuns(ReplaceRuns(s, IsSpaceOrHyphen, a), NotWordChar, b), IsUnderscore, c)
            == Squeeze(s, c)
  {
    if s != "" {
      var x := s[0];
      if IsSpaceOrHyphen(x) {
        var spaced := ReplaceRuns(s[1..], IsSpaceOrHyphen, true);
        if a {
          assert "" + spaced == spaced;
          PassesAreSqueeze(s[1..], true, b, c);
        } else {
          PassesAreSqueeze(s[1..], true, false, true);
          ReplaceRunsCons('_', spaced, NotWordChar, b);
          ReplaceRunsCons('_', ReplaceRuns(spaced, NotWordChar, false), IsUnderscore, c);
        }
      } else {
        var spaced := ReplaceRuns(s[1..], IsSpaceOrHyphen, false);
        ReplaceRunsCons(x, spaced, NotWordChar, b);
        if NotWordChar(x) {
          var words := ReplaceRuns(spaced, NotWordChar, true);
          PassesAreSqueeze(s[1..], false, true, true);
          if b { assert "" + words == words; } else { ReplaceRunsCons('_', words, IsUnderscore, c); }
        } else {
          PassesAreSqueeze(s[1..], false, false, x == '_');
          ReplaceRunsCons(x, ReplaceRuns(spaced, NotWordChar, false), IsUnderscore, c);
        }
      }
      assert "" + Squeeze(s[1..], true) == Squeeze(s[1..], true);
    }
  }

  /** The chain of replacements computes NormalName. */
  lemma ReplaceChainIsNormalName(value: string)
    ensures ReplaceChain(value) == NormalName(value)
  {
    PassesAreSqueeze(ToLower(value), false, false, false);
  }

  lemma {:induction false} SqueezeIsNormal(s: string, inRun: bool)
    ensures IsNormalName(Squeeze(s, inRun))
    ensures inRun && Squeeze(s, inRun) != "" ==> Squeeze(s, inRun)[0] != '_'
  {
    if s != "" {
      var run := !(IsWordChar(s[0]) && s[0] != '_');
      SqueezeIsNormal(s[1..], run);
      var r := Squeeze(s[1..], run);
      assert ("_" + r)[1..] == r && ([s[0]] + r)[1..] == r && "" + r == r;
    }
  }

  lemma {:induction false} SqueezeFixes(s: string, inRun: bool)
    requires IsNormalName(s) && (inRun && s != "" ==> s[0] != '_')
    ensures Squeeze(s, inRun) == s
  {
    if s != "" {
      assert IsWordChar(s[0]) && forall c :: c in s[1..] ==> c in s;
      SqueezeFixes(s[1..], s[0] == '_');
      Seqs.Uncons(s);
    }
  }

  lemma {:induction false} ToLowerFixes(s: string)
    requires forall c :: c in s ==> IsWordChar(c)
    ensures ToLower(s) == s
  {
    if s != "" {
      assert IsWordChar(s[0]) && forall c :: c in s[1..] ==> c in s;
      assert Lower(s[0]) == [s[0]];
      hide IsWordChar, Lower;
      ToLowerFixes(s[1..]);
      Seqs.Uncons(s);
    }
  }

  lemma NormalNameIsNormal(value: string)
    ensures IsNormalName(NormalName(value))
  {
    SqueezeIsNormal(ToLower(value), false);
  }

  lemma NormalNameFixes(s: string)
    requires IsNormalName(s)
    ensures NormalName(s) == s
  {
    ToLowerFixes(s);
    SqueezeFixes(s, false);
  }

  /** The normal names are exactly the fixed points of the normalisation, which is idempotent. */
  lemma NormalNameFacts(value: string)
    ensures IsNormalName(ReplaceChain(value))
    ensures IsNormalName(value) <==> ReplaceChain(value) == value
    ensures ReplaceChain(ReplaceChain(value)) == ReplaceChain(value)
  {
    ReplaceChainIsNormalName(value);
    ReplaceChainIsNormalName(NormalName(value));
    NormalNameIsNormal(value);
    if IsNormalName(value) { NormalNameFixes(value); }
    NormalNameFixes(NormalName(value));
  }

  // -------- tokenizing --------

  function IndexOf(s: string, c: char): (r: Option<nat>)
    ensures r.Some? ==> r.value < |s|
  {
    if s == "" then None
    else if s[0] == c then Some(0)
    else match IndexOf(s[1..], c)
      case None => None
      case Some(i) => Some(i + 1)
  }

  /** How far consumeParamSegment reads: up to '/', '?' or the end. */
  function SegmentLength(s: string): (n: nat)
    ensures n <= |s|
  {
    if s == "" || s[0] == '/' || s[0] == '?' then 0 else 1 + SegmentLength(s[1..])
  }

  lemma {:induction false} IndexOfFinds(s: string, c: char)
    ensures match IndexOf(s, c)
            case Some(i) => s[i] == c && c !in s[..i]
            case None => c !in s
  {
    if s != "" && s[0] != c {
      IndexOfFinds(s[1..], c);
      if IndexOf(s, c).Some? { assert s[..IndexOf(s, c).value] == [s[0]] + s[1..][..IndexOf(s[1..], c).value]; }
    }
  }

  lemma {:induction false} SegmentEnds(s: string)
    ensures var n := SegmentLength(s);
            && (n < |s| ==> s[n] == '/' || s[n] == '?')
            && '/' !in s[..n] && '?' !in s[..n]
  {
    if s != "" && s[0] != '/' && s[0] != '?' {
      SegmentEnds(s[1..]);
      assert s[..SegmentLength(s)] == [s[0]] + s[1..][..SegmentLength(s[1..])];
    }
  }

  /** flushTextBuffer: an empty text is kept only as the very first token. */
  function Flush(buffer: string, first: bool): seq<Token> {
    if buffer == "" && !first then [] else [Text(buffer)]
  }

  /** Flush the pending text, then write the token. */
  function Emit(tokens: seq<Token>, buffer: string, token: Token): seq<Token> {
    tokens + Flush(buffer, tokens == []) + [token]
  }

  /**
    The tokens of what is left of the source, when `buffer` is the pending
    text, `first` says that no token has been written, and `atSegment` that the
    rest starts the source or follows a '/'.
   */
  function Scan(s: string, atSegment: bool, buffer: string, first: bool): seq<Token>
    decreases |s|
  {
    if s == "" then
      if first || buffer != "" then Flush(buffer, first) else []
    else if s[0] == '{' && IndexOf(s[1..], '}').Some? then
      var close := IndexOf(s[1..], '}').value;
      Flush(buffer, first) + [Param(NormalName(s[1..][..close]))] + Scan(s[close + 2..], false, "", false)
    else if s[0] == ':' && atSegment && NormalName(s[1..][..SegmentLength(s[1..])]) != "" then
      var n := SegmentLength(s[1..]);
      Flush(buffer, first) + [Param(NormalName(s[1..][..n]))] + Scan(s[1 + n..], false, "", false)
    else
      Scan(s[1..], s[0] == '/', buffer + [s[0]], first)
  }

  function Tokens(source: string): seq<Token> {
    Scan(source, true, "", true)
  }

  ghost predicate NoAdjacentTexts(ts: seq<Token>) {
    forall i :: 0 < i < |ts| ==> !(ts[i - 1].Text? && ts[i].Text?)
  }

  /** A text joins a text before it; any other token is added. */
  function Merged(ts: seq<Token>, t: Token): seq<Token> {
    var k := |ts| - 1;
    if t.Text? && ts != [] && ts[k].Text? then ts[..k] + [Text(ts[k].value + t.value)] else ts + [t]
  }

  lemma MergedShape(ts: seq<Token>, t: Token)
    requires NoAdjacentTexts(ts)
    ensures NoAdjacentTexts(Merged(ts, t))
    ensures NoAdjacentTexts(ts + [t]) ==> Merged(ts, t) == ts + [t]
  {
    if t.Text? && ts != [] && ts[|ts| - 1].Text? {
      assert (ts + [t])[|ts|] == t && (ts + [t])[|ts| - 1] == ts[|ts| - 1];
    }
  }

  lemma TextGrows(ts: seq<Token>, v: string, w: string)
    ensures Serialize(ts + [Text(v + w)]) == Serialize(ts + [Text(v)]) + w
  {
    SerializeSnoc(ts, Text(v));
    SerializeSnoc(ts, Text(v + w));
    Seqs.Assoc(Serialize(ts), v, w);
  }

  lemma MergedSerializes(ts: seq<Token>, t: Token)
    ensures Serialize(Merged(ts, t)) == Serialize(ts) + Show(t)
  {
    var k := |ts| - 1;
    if t.Text? && ts != [] && ts[k].Text? {
      TextGrows(ts[..k], ts[k].value, t.value);
      assert ts[..k] + [Text(ts[k].value)] == ts;
    } else {
      SerializeSnoc(ts, t);
    }
  }

  lemma PrefixHasNoAdjacentTexts(ts: seq<Token>, n: nat)
    requires NoAdjacentTexts(ts) && n <= |ts|
    ensures NoAdjacentTexts(ts[..n])
  {
  }

  /** One turn of the merging loop. */
  lemma MergeTurn(tokens: seq<Token>, n: nat, merged: seq<Token>)
    requires n < |tokens| && NoAdjacentTexts(merged)
    requires NoAdjacentTexts(tokens) ==> merged == tokens[..n]
    requires Serialize(merged) == Serialize(tokens[..n])
    ensures var next := Merged(merged, tokens[n]);
            && NoAdjacentTexts(next)
            && (NoAdjacentTexts(tokens) ==> next == tokens[..n + 1])
            && Serialize(next) == Serialize(tokens[..n + 1])
  {
    hide Serialize, Show, NoAdjacentTexts, Merged;
    MergedShape(merged, tokens[n]);
    MergedSerializes(merged, tokens[n]);
    SerializeSnoc(tokens[..n], tokens[n]);
    assert tokens[..n + 1] == tokens[..n] + [tokens[n]];
    if NoAdjacentTexts(tokens) { PrefixHasNoAdjacentTexts(tokens, n + 1); }
  }

  /** mergeAdjacentTextTokens, on values. */
  method MergeAdjacentTexts(tokens: seq<Token>) returns (merged: seq<Token>)
    ensures NoAdjacentTexts(merged)
    ensures NoAdjacentTexts(tokens) ==> merged == tokens
    ensures Serialize(merged) == Serialize(tokens)
  {
    merged := [];
    for i := 0 to |tokens|
      invariant NoAdjacentTexts(merged)
      invariant NoAdjacentTexts(tokens) ==> merged == tokens[..i]
      invariant Serialize(merged) == Serialize(tokens[..i])
    {
      hide Serialize, NoAdjacentTexts;
      var token := tokens[i];
      var k := |merged| - 1;
      MergeTurn(tokens, i, merged);
      if token.Text? && merged != [] && merged[k].Text? {
        merged := merged[..k] + [Text(merged[k].value + token.value)];
      } else {
        merged := merged + [token];
      }
    }
    assert tokens[..|tokens|] == tokens;
  }

  /** consumeParamSegment. */
  method ConsumeParamSegment(source: string, startIndex: nat) returns (r: Option<(string, nat)>)
    requires startIndex <= |source|
    ensures var n := SegmentLength(source[startIndex..]);
            var name := NormalName(source[startIndex..][..n]);
            r == if name == "" then None else Some((name, startIndex + n))
  {
    var end := startIndex;
    while end < |source| && source[end] != '/' && source[end] != '?'
      invariant startIndex <= end <= |source|
      invariant SegmentLength(source[startIndex..]) == end - startIndex + SegmentLength(source[end..])
    {
      assert source[end..][1..] == source[end + 1..];
      end := end + 1;
    }
    assert source[startIndex..end] == source[startIndex..][..end - startIndex];
    var name := NormalName(source[startIndex..end]);
    if name == "" {
      return None;
    }
    return Some((name, end));
  }

  /** What the tokens written so far and the rest of the source come to. */
  function Ahead(tokens: seq<Token>, source: string, index: nat, buffer: string): seq<Token>
    requires index <= |source|
  {
    tokens + Scan(source[index..], index == 0 || source[index - 1] == '/', buffer, tokens == [])
  }

  lemma Regroup(a: seq<Token>, b: seq<Token>, t: Token, c: seq<Token>)
    ensures a + (b + [t] + c) == a + b + [t] + c
  {
  }

  lemma AheadText(tokens: seq<Token>, source: string, index: nat, buffer: string)
    requires index < |source|
    requires source[index] == '{' ==> IndexOf(source[index + 1..], '}').None?
    requires source[index] == ':' && (index == 0 || source[index - 1] == '/')
         ==> NormalName(source[index + 1..][..SegmentLength(source[index + 1..])]) == ""
    ensures Ahead(tokens, source, index, buffer) == Ahead(tokens, source, index + 1, buffer + [source[index]])
  {
    assert source[index..][1..] == source[index + 1..];
  }

  lemma AheadEnd(tokens: seq<Token>, source: string, buffer: string)
    ensures Ahead(tokens, source, |source|, buffer)
         == if tokens == [] || buffer != "" then tokens + Flush(buffer, tokens == []) else tokens
  {
    assert source[|source|..] == "";
    assert tokens + [] == tokens;
  }

  lemma AheadBrace(tokens: seq<Token>, source: string, index: nat, buffer: string)
    requires index < |source| && source[index] == '{' && IndexOf(source[index + 1..], '}').Some?
    ensures var close := IndexOf(source[index + 1..], '}').value;
            var param := Param(NormalName(source[index + 1..][..close]));
            Ahead(tokens, source, index, buffer)
            == Ahead(Emit(tokens, buffer, param), source, index + close + 2, "")
  {
    var rest := source[index..];
    assert rest[1..] == source[index + 1..];
    var close := IndexOf(rest[1..], '}').value;
    assert rest[close + 2..] == source[index + close + 2..];
    IndexOfFinds(rest[1..], '}');
    assert source[index + close + 1] == rest[1..][close];
    Regroup(tokens, Flush(buffer, tokens == []), Param(NormalName(rest[1..][..close])),
            Scan(rest[close + 2..], false, "", false));
  }

  lemma AheadColon(tokens: seq<Token>, source: string, index: nat, buffer: string)
    requires index < |source| && source[index] == ':' && (index == 0 || source[index - 1] == '/')
    requires NormalName(source[index + 1..][..SegmentLength(source[index + 1..])]) != ""
    ensures var n := SegmentLength(source[index + 1..]);
            var param := Param(NormalName(source[index + 1..][..n]));
            Ahead(tokens, source, index, buffer)
            == Ahead(Emit(tokens, buffer, param), source, index + 1 + n, "")
  {
    var rest := source[index..];
    assert rest[1..] == source[index + 1..];
    var n := SegmentLength(rest[1..]);
    SegmentEnds(rest[1..]);
    assert NormalName("") == "" && rest[1..][..n] != "";
    assert rest[1 + n..] == source[index + 1 + n..];
    assert source[index + n] == rest[1..][n - 1];
    Regroup(tokens, Flush(buffer, tokens == []), Param(NormalName(rest[1..][..n])),
            Scan(rest[1 + n..], false, "", false));
  }

  /** The parameter that starts at the index, if one does, and the index behind it. */
  function ParamAt(source: string, index: nat): Option<(string, nat)>
    requires index < |source|
  {
    var rest := source[index + 1..];
    if source[index] == '{' && IndexOf(rest, '}').Some? then
      Some((NormalName(rest[..IndexOf(rest, '}').value]), index + IndexOf(rest, '}').value + 2))
    else if source[index] == ':' && (index == 0 || source[index - 1] == '/')
            && NormalName(rest[..SegmentLength(rest)]) != "" then
      Some((NormalName(rest[..SegmentLength(rest)]), index + 1 + SegmentLength(rest)))
    else None
  }

  /** One turn of the loop of tokenizePathTemplate. */
  lemma AheadTurn(tokens: seq<Token>, source: string, index: nat, buffer: string)
    requires index < |source|
    ensures match ParamAt(source, index)
            case Some((name, next)) =>
              && index < next <= |source|
              && Ahead(tokens, source, index, buffer) == Ahead(Emit(tokens, buffer, Param(name)), source, next, "")
            case None =>
              Ahead(tokens, source, index, buffer) == Ahead(tokens, source, index + 1, buffer + [source[index]])
  {
    hide Scan, NormalName, Ahead, Flush, Emit, SegmentLength, IndexOf;
    var rest := source[index + 1..];
    if source[index] == '{' && IndexOf(rest, '}').Some? {
      AheadBrace(tokens, source, index, buffer);
    } else if source[index] == ':' && (index == 0 || source[index - 1] == '/')
              && NormalName(rest[..SegmentLength(rest)]) != "" {
      AheadColon(tokens, source, index, buffer);
    } else {
      AheadText(tokens, source, index, buffer);
    }
  }

  /** The two branches of the loop that read a parameter. */
  method ReadParam(source: string, index: nat) returns (r: Option<(string, nat)>)
    requires index < |source|
    ensures r == ParamAt(source, index)
  {
    hide NormalName, IndexOf, SegmentLength;
    if source[index] == '{' {
      var close := IndexOf(source[index + 1..], '}');
      if close.Some? {
        return Some((NormalName(source[index + 1..][..close.value]), index + close.value + 2));
      }
    }
    if source[index] == ':' && (index == 0 || source[index - 1] == '/') {
      r := ConsumeParamSegment(source, index + 1);
      return;
    }
    return None;
  }

  /** The loop of tokenizePathTemplate. */
  method ScanSource(source: string) returns (tokens: seq<Token>)
    ensures tokens == Tokens(source)
  {
    var textBuffer, index := "", 0;
    tokens := [];
    assert Tokens(source) == Ahead(tokens, source, index, textBuffer) by { assert source[0..] == source; }
    hide Ahead, Tokens, Flush, Emit, ParamAt;
    while index < |source|
      invariant 0 <= index <= |source|
      invariant Tokens(source) == Ahead(tokens, source, index, textBuffer)
    {
      AheadTurn(tokens, source, index, textBuffer);
      var param := ReadParam(source, index);
      if param.Some? {
        tokens := Emit(tokens, textBuffer, Param(param.value.0));
        textBuffer := "";
        index := param.value.1;
      } else {
        textBuffer := textBuffer + [source[index]];
        index := index + 1;
      }
    }
    AheadEnd(tokens, source, textBuffer);
    if tokens == [] || textBuffer != "" {
      tokens := tokens + Flush(textBuffer, tokens == []);
    }
  }

  /** tokenizePathTemplate. */
  method Tokenize(source: string) returns (r: seq<Token>)
    ensures r == Tokens(source)
  {
    var tokens := ScanSource(source);
    ScanHasNoAdjacentTexts(source, true, "", true);
    r := MergeAdjacentTexts(tokens);
  }

  lemma {:induction false} ScanHasNoAdjacentTexts(s: string, atSegment: bool, buffer: string, first: bool)
    ensures NoAdjacentTexts(Scan(s, atSegment, buffer, first))
    decreases |s|
  {
    if s != "" {
      if s[0] == '{' && IndexOf(s[1..], '}').Some? {
        ScanHasNoAdjacentTexts(s[IndexOf(s[1..], '}').value + 2..], false, "", false);
      } else if s[0] == ':' && atSegment && NormalName(s[1..][..SegmentLength(s[1..])]) != "" {
        ScanHasNoAdjacentTexts(s[1 + SegmentLength(s[1..])..], false, "", false);
      } else {
        ScanHasNoAdjacentTexts(s[1..], s[0] == '/', buffer + [s[0]], first);
      }
    }
  }

  // -------- where parameters are --------

  /** A brace that is closed, or a colon at the start of a segment that is not empty. */
  predicate Opens(s: string, atSegment: bool, i: nat) {
    && i < |s|
    && (|| (s[i] == '{' && '}' in s[i + 1..])
        || (&& s[i] == ':' && (if i == 0 then atSegment else s[i - 1] == '/')
            && i + 1 < |s| && s[i + 1] != '/' && s[i + 1] != '?'))
  }

  /** Its text ends before j, at the first closing brace, or the first '/', '?' or the end; `next` is where to go on. */
  predicate ReadsTo(s: string, i: nat, j: nat, next: nat) {
    && i < j <= |s|
    && (if s[i] == '{' then j < |s| && s[j] == '}' && '}' !in s[i + 1..j] && next == j + 1
        else '/' !in s[i + 1..j] && '?' !in s[i + 1..j] && (j < |s| ==> s[j] == '/' || s[j] == '?') && next == j)
  }

  lemma NameIsEmptyIff(s: string)
    ensures NormalName(s) == "" <==> s == ""
  {
  }

  lemma {:induction false} IndexOfIs(s: string, c: char, n: nat)
    requires n < |s| && s[n] == c && c !in s[..n]
    ensures IndexOf(s, c) == Some(n)
  {
    if n > 0 {
      assert s[..n][0] == s[0] && s[..n][1..] == s[1..][..n - 1];
      IndexOfIs(s[1..], c, n - 1);
    }
  }

  lemma {:induction false} SegmentLengthIs(s: string, n: nat)
    requires n <= |s| && '/' !in s[..n] && '?' !in s[..n] && (n < |s| ==> s[n] == '/' || s[n] == '?')
    ensures SegmentLength(s) == n
  {
    if n > 0 {
      assert s[..n][0] == s[0] && s[..n][1..] == s[1..][..n - 1];
      SegmentLengthIs(s[1..], n - 1);
    }
  }

  lemma OpensLater(s: string, atSegment: bool, i: nat)
    requires 0 < i < |s|
    ensures Opens(s, atSegment, i) <==> Opens(s[1..], s[0] == '/', i - 1)
  {
    assert s[1..][i..] == s[i + 1..];
  }

  lemma NoneLater(s: string, atSegment: bool, i: nat, t: string, slash: bool)
    requires 0 < i <= |s| && forall k :: 0 <= k < i ==> !Opens(s, atSegment, k)
    requires t == s[1..] && slash == (s[0] == '/')
    ensures forall k :: 0 <= k < i - 1 ==> !Opens(t, slash, k)
  {
    hide Opens;
    forall k | 0 <= k < i - 1 ensures !Opens(t, slash, k) { OpensLater(s, atSegment, k + 1); }
  }

  /** A character that opens nothing is text. */
  lemma NextIsText(s: string, atSegment: bool, buffer: string, first: bool)
    requires s != "" && !Opens(s, atSegment, 0)
    ensures Scan(s, atSegment, buffer, first) == Scan(s[1..], s[0] == '/', buffer + [s[0]], first)
  {
    IndexOfFinds(s[1..], '}');
    NameIsEmptyIff(s[1..][..SegmentLength(s[1..])]);
    hide NormalName;
  }

  /** A rest without parameters is one text. */
  lemma {:induction false} NothingOpens(s: string, atSegment: bool, buffer: string, first: bool)
    requires forall i :: 0 <= i < |s| ==> !Opens(s, atSegment, i)
    ensures Scan(s, atSegment, buffer, first) == Flush(buffer + s, first)
    decreases |s|
  {
    if s == "" {
      Seqs.EmptyRight(buffer);
    } else {
      NextIsText(s, atSegment, buffer, first);
      hide Opens, Scan, Flush;
      var t, slash := s[1..], s[0] == '/';
      NoneLater(s, atSegment, |s|, t, slash);
      NothingOpens(t, slash, buffer + [s[0]], first);
      assert buffer + [s[0]] + t == buffer + s;
    }
  }

  lemma ReadsInside(s: string, i: nat, j: nat, next: nat)
    requires ReadsTo(s, i, j, next)
    ensures i < j <= |s| && next <= |s|
  {
  }

  /** The text before i, the parameter from there to j, and what the rest gives. */
  function Around(s: string, buffer: string, first: bool, i: nat, j: nat, next: nat): seq<Token>
    requires i < j <= |s| && next <= |s|
  {
    Flush(buffer + s[..i], first) + [Param(NormalName(s[i + 1..j]))] + Scan(s[next..], false, "", false)
  }

  lemma ParamOpens(s: string, atSegment: bool, buffer: string, first: bool, j: nat, next: nat)
    requires Opens(s, atSegment, 0) && ReadsTo(s, 0, j, next)
    ensures next <= |s|
    ensures j <= |s| && Scan(s, atSegment, buffer, first) == Around(s, buffer, first, 0, j, next)
  {
    hide NormalName;
    var rest := s[1..];
    assert rest[..j - 1] == s[0 + 1..j] && buffer + s[..0] == buffer;
    if s[0] == '{' {
      IndexOfIs(rest, '}', j - 1);
    } else {
      SegmentLengthIs(rest, j - 1);
      assert j > 1;
      NameIsEmptyIff(s[1..j]);
    }
  }

  lemma AroundLater(s: string, buffer: string, first: bool, i: nat, j: nat, next: nat, t: string)
    requires 0 < i && ReadsTo(s, i, j, next) && t == s[1..]
    ensures i < j <= |s| && 1 <= next <= |s| && ReadsTo(t, i - 1, j - 1, next - 1)
    ensures Around(t, buffer + [s[0]], first, i - 1, j - 1, next - 1) == Around(s, buffer, first, i, j, next)
  {
    hide Flush, Scan, NormalName;
    assert t[i - 1 + 1..j - 1] == s[i + 1..j] && t[next - 1..] == s[next..];
    assert buffer + [s[0]] + t[..i - 1] == buffer + s[..i];
  }

  /**
    The first place that opens a parameter ends the text before it, and reading goes on behind the parameter.
    With NothingOpens this says of every source what its tokens are.
   */
  lemma {:induction false} FirstOpens(s: string, atSegment: bool, buffer: string, first: bool, i: nat, j: nat,
                                      next: nat)
    requires Opens(s, atSegment, i) && (forall k :: 0 <= k < i ==> !Opens(s, atSegment, k)) && ReadsTo(s, i, j, next)
    ensures i < j <= |s| && next <= |s|
    ensures Scan(s, atSegment, buffer, first) == Around(s, buffer, first, i, j, next)
    decreases |s|
  {
    hide Opens, Scan, ReadsTo, Around;
    ReadsInside(s, i, j, next);
    if i == 0 {
      ParamOpens(s, atSegment, buffer, first, j, next);
    } else {
      var t, slash := s[1..], s[0] == '/';
      NextIsText(s, atSegment, buffer, first);
      OpensLater(s, atSegment, i);
      NoneLater(s, atSegment, i, t, slash);
      AroundLater(s, buffer, first, i, j, next, t);
      FirstOpens(t, slash, buffer + [s[0]], first, i - 1, j - 1, next - 1);
    }
  }

  // -------- serializing --------

  function Show(t: Token): string {
    match t
    case Text(value) => value
    case Param(name) => ":" + NormalName(name)
  }

  /** serializePathTemplate. */
  function Serialize(ts: seq<Token>): string {
    if ts == [] then "" else Show(ts[0]) + Serialize(ts[1..])
  }

  lemma {:induction false} SerializeSnoc(ts: seq<Token>, t: Token)
    ensures Serialize(ts + [t]) == Serialize(ts) + Show(t)
  {
    hide Show;
    if ts == [] {
      assert ts + [t] == [t] && [t][1..] == [];
      Seqs.EmptyRight(Show(t));
      Seqs.EmptyLeft(Show(t));
    } else {
      assert (ts + [t])[1..] == ts[1..] + [t];
      SerializeSnoc(ts[1..], t);
      Seqs.Assoc(Show(ts[0]), Serialize(ts[1..]), Show(t));
    }
  }

  // -------- the round trip --------

  predicate EndsInSlash(s: string) {
    s != "" && s[|s| - 1] == '/'
  }

  predicate StartsParamEnd(s: string) {
    s != "" && (s[0] == '/' || s[0] == '?')
  }

  /**
    The shape of tokenized paths: texts and parameters alternate, starting with
    a text that alone may be empty; a parameter has a normal non-empty name and
    stands at the start of a segment, up to a '/', a '?' or the end.
   */
  ghost predicate Canonical(ts: seq<Token>, first: bool) {
    && ts != [] && ts[0].Text? && (first || ts[0].value != "")
    && (|ts| >= 2 ==>
          && ts[1].Param? && ts[1].name != "" && IsNormalName(ts[1].name)
          && (EndsInSlash(ts[0].value) || (first && ts[0].value == ""))
          && (|ts| >= 3 ==> ts[2].Text? && StartsParamEnd(ts[2].value) && Canonical(ts[2..], false)))
  }

  /** No text of the list holds a character that opens a parameter. */
  ghost predicate PlainTexts(ts: seq<Token>) {
    forall t :: t in ts && t.Text? ==> ':' !in t.value && '{' !in t.value
  }

  lemma {:induction false} ScanPlain(v: string, rest: string, atSegment: bool, buffer: string, first: bool)
    requires ':' !in v && '{' !in v
    ensures Scan(v + rest, atSegment, buffer, first)
         == Scan(rest, if v == "" then atSegment else EndsInSlash(v), buffer + v, first)
  {
    if v == "" {
      assert v + rest == rest && buffer + v == buffer;
    } else {
      assert v[0] in v && (v + rest)[0] == v[0] && (v + rest)[1..] == v[1..] + rest;
      assert forall c :: c in v[1..] ==> c in v;
      ScanPlain(v[1..], rest, v[0] == '/', buffer + [v[0]], first);
      assert buffer + [v[0]] + v[1..] == buffer + v;
    }
  }

  lemma {:induction false} SegmentOfName(n: string, rest: string)
    requires forall c :: c in n ==> IsWordChar(c)
    requires rest != "" ==> StartsParamEnd(rest)
    ensures SegmentLength(n + rest) == |n|
  {
    if n == "" {
      assert n + rest == rest;
    } else {
      assert n[0] in n && (n + rest)[1..] == n[1..] + rest && forall c :: c in n[1..] ==> c in n;
      SegmentOfName(n[1..], rest);
    }
  }

  lemma ScanParam(n: string, rest: string, buffer: string, first: bool)
    requires n != "" && IsNormalName(n)
    requires rest != "" ==> StartsParamEnd(rest)
    ensures Scan(":" + n + rest, true, buffer, first)
         == Flush(buffer, first) + [Param(n)] + Scan(rest, false, "", false)
  {
    var s := ":" + n + rest;
    assert s[1..] == n + rest;
    SegmentOfName(n, rest);
    assert (n + rest)[..|n|] == n && s[1 + |n|..] == rest;
    NormalNameFixes(n);
  }

  lemma SerializeFirst(ts: seq<Token>)
    requires ts != []
    ensures Serialize(ts) == Show(ts[0]) + Serialize(ts[1..])
    ensures |ts| >= 2 ==> Serialize(ts) == Show(ts[0]) + (Show(ts[1]) + Serialize(ts[2..]))
  {
    if |ts| >= 2 { assert ts[1..][1..] == ts[2..]; }
  }

  lemma SplitTwo(ts: seq<Token>)
    requires |ts| >= 2
    ensures ts == [ts[0]] + [ts[1]] + ts[2..]
  {
  }

  lemma {:induction false} CanonicalReads(ts: seq<Token>, first: bool)
    requires Canonical(ts, first) && PlainTexts(ts)
    ensures Scan(Serialize(ts), first, "", first) == ts
    decreases |ts|
  {
    var v := ts[0].value;
    assert ts[0] in ts;
    SerializeFirst(ts);
    var rest := Serialize(ts[1..]);
    ScanPlain(v, rest, first, "", first);
    assert "" + v == v;
    if |ts| == 1 {
      assert ts == [ts[0]];
    } else {
      var after := ts[2..];
      var rest' := Serialize(after);
      NormalNameFixes(ts[1].name);
      SerializeFirst(ts[1..]);
      assert ts[1..][1..] == after;
      if |ts| >= 3 {
        assert forall t :: t in after ==> t in ts;
        CanonicalReads(after, false);
        SerializeFirst(after);
      }
      ScanParam(ts[1].name, rest', v, first);
      SplitTwo(ts);
    }
  }

  lemma CanonicalCons(v: string, n: string, after: seq<Token>, first: bool)
    requires first || v != ""
    requires EndsInSlash(v) || (first && v == "")
    requires n != "" && IsNormalName(n)
    requires after != [] ==> Canonical(after, false) && StartsParamEnd(after[0].value)
    ensures Canonical([Text(v), Param(n)] + after, first)
  {
    assert ([Text(v), Param(n)] + after)[2..] == after;
  }

  /** Sources without '{' always give canonical lists. */
  lemma {:induction false} ScanIsCanonical(s: string, atSegment: bool, buffer: string, first: bool)
    requires '{' !in s
    requires first || buffer != ""
    requires atSegment ==> EndsInSlash(buffer) || (first && buffer == "")
    ensures var r := Scan(s, atSegment, buffer, first);
            Canonical(r, first) && buffer <= r[0].value
    decreases |s|, 1
  {
    if s != "" {
      assert forall c :: c in s[1..] ==> c in s;
      var n := SegmentLength(s[1..]);
      if s[0] == ':' && atSegment && NormalName(s[1..][..n]) != "" {
        var rest, name := s[1 + n..], NormalName(s[1..][..n]);
        assert s[1..][n..] == rest;
        SegmentEnds(s[1..]);
        NormalNameIsNormal(s[1..][..n]);
        AfterParamIsCanonical(rest);
        CanonicalCons(buffer, name, Scan(rest, false, "", false), first);
        assert Flush(buffer, first) + [Param(name)] == [Text(buffer), Param(name)];
      } else {
        ScanIsCanonical(s[1..], s[0] == '/', buffer + [s[0]], first);
      }
    }
  }

  lemma {:induction false} AfterParamIsCanonical(rest: string)
    requires '{' !in rest
    requires rest != "" ==> StartsParamEnd(rest)
    ensures var after := Scan(rest, false, "", false);
            after != [] ==> Canonical(after, false) && StartsParamEnd(after[0].value)
    decreases |rest|, 0
  {
    if rest != "" {
      assert forall c :: c in rest[1..] ==> c in rest;
      ScanIsCanonical(rest[1..], rest[0] == '/', [rest[0]], false);
      Seqs.EmptyLeft([rest[0]]);
    }
  }

  lemma {:induction false} PlainSerializesWithoutBrace(ts: seq<Token>)
    requires PlainTexts(ts)
    ensures '{' !in Serialize(ts)
  {
    if ts != [] {
      assert ts[0] in ts && forall t :: t in ts[1..] ==> t in ts;
      PlainSerializesWithoutBrace(ts[1..]);
      if ts[0].Param? {
        NormalNameIsNormal(ts[0].name);
      }
    }
  }

  /**
    For token lists whose texts hold neither ':' nor '{': tokenizing what was
    serialized gives the list back if and only if it is canonical.
   */
  lemma TokenizeUndoesSerializeIff(ts: seq<Token>)
    requires PlainTexts(ts)
    ensures Tokens(Serialize(ts)) == ts <==> Canonical(ts, true)
  {
    if Canonical(ts, true) { CanonicalReads(ts, true); }
    PlainSerializesWithoutBrace(ts);
    ScanIsCanonical(Serialize(ts), true, "", true);
  }

  /** A list that starts with a parameter does not come back: an empty text is put before it. */
  lemma LeadingParamGainsText(name: string)
    requires name != "" && IsNormalName(name)
    ensures Tokens(Serialize([Param(name)])) == [Text(""), Param(name)]
  {
    NormalNameFixes(name);
    assert [Param(name)][1..] == [];
    assert Serialize([Param(name)]) == ":" + name + "";
    ScanParam(name, "", "", true);
  }
}
