/**
  Scenario order: the editor keeps drafts in priority order and renumbers them
  (apps/web/src/features/endpoint-editor/scenario-model.ts), the gateway sorts
  what was saved and answers with the first scenario whose condition holds
  (apps/api/internal/core/usecase/runtime_gateway_service.go).
 */
module Scenarios {
  import opened Wrappers
  import opened Sorting
  import Text

  // -------- the gateway --------

  datatype Scenario = Scenario(name: string, priority: int, conditionExpr: string, content: string)

  /** Compiling and running one condition: a truth value, or an error. */
  datatype Outcome = Holds | Fails | Error(message: string)

  datatype Selection = NoMatch | Selected(scenario: Scenario) | Aborted(message: string)

  const BY_PRIORITY: Scenario -> int := (s: Scenario) => s.priority

  /** parseRuntimeScenarios, after decoding. */
  function InRuntimeOrder(items: seq<Scenario>): seq<Scenario> {
    StableSort(items, BY_PRIORITY)
  }

  /** The scenario stops the search: it matches, or its condition breaks. A blank condition is skipped. */
  predicate Decides(s: Scenario, eval: string -> Outcome) {
    var condition := Text.TrimSpace(s.conditionExpr);
    condition != "" && !eval(condition).Fails?
  }

  function Answer(s: Scenario, eval: string -> Outcome): Selection {
    match eval(Text.TrimSpace(s.conditionExpr))
    case Error(message) => Aborted(message)
    case _ => Selected(s)
  }

  function FirstDecider(items: seq<Scenario>, eval: string -> Outcome): Option<Scenario> {
    if items == [] then None
    else if Decides(items[0], eval) then Some(items[0])
    else FirstDecider(items[1..], eval)
  }

  function AnswerOf(decider: Option<Scenario>, eval: string -> Outcome): Selection {
    match decider
    case None => NoMatch
    case Some(s) => Answer(s, eval)
  }

  /** The conditions of the first n scenarios are blank or fail. */
  ghost predicate PassedOver(items: seq<Scenario>, eval: string -> Outcome, n: nat)
    requires n <= |items|
  {
    forall j :: 0 <= j < n ==>
      Text.TrimSpace(items[j].conditionExpr) == "" || eval(Text.TrimSpace(items[j].conditionExpr)) == Fails
  }

  /** The place where a search stops: the first condition that is neither blank nor fails. */
  lemma {:induction false} FirstDeciderPlace(items: seq<Scenario>, eval: string -> Outcome) returns (n: nat)
    ensures n <= |items| && PassedOver(items, eval, n)
    ensures n == |items| <==> FirstDecider(items, eval) == None
    ensures n < |items| ==> FirstDecider(items, eval) == Some(items[n]) && Decides(items[n], eval)
  {
    hide Text.TrimSpace;
    n := 0;
    if items != [] && !Decides(items[0], eval) {
      n := FirstDeciderPlace(items[1..], eval);
      n := n + 1;
    }
  }

  /** A search selects the first scenario whose condition holds, unless one before it breaks. */
  lemma {:induction false} SearchMeans(items: seq<Scenario>, eval: string -> Outcome)
    ensures var r := AnswerOf(FirstDecider(items, eval), eval);
            && (forall x :: r == Selected(x)
                            <==> exists i :: 0 <= i < |items| && items[i] == x && PassedOver(items, eval, i)
                                             && Text.TrimSpace(x.conditionExpr) != ""
                                             && eval(Text.TrimSpace(x.conditionExpr)) == Holds)
            && (forall message :: r == Aborted(message)
                                  <==> exists i :: 0 <= i < |items| && PassedOver(items, eval, i)
                                                   && Text.TrimSpace(items[i].conditionExpr) != ""
                                                   && eval(Text.TrimSpace(items[i].conditionExpr)) == Error(message))
            && (r == NoMatch <==> PassedOver(items, eval, |items|))
  {
    var n := FirstDeciderPlace(items, eval);
    hide Text.TrimSpace, FirstDecider, PassedOver;
    forall i: nat | i < |items| && PassedOver(items, eval, i) && Decides(items[i], eval) ensures i == n {
      OneStop(items, eval, i, n);
    }
    forall i: nat | i <= |items| && PassedOver(items, eval, i) ensures i <= n {
      NoneBeyond(items, eval, i, n);
    }
  }

  lemma {:induction false} OneStop(items: seq<Scenario>, eval: string -> Outcome, i: nat, n: nat)
    requires i < |items| && PassedOver(items, eval, i) && Decides(items[i], eval)
    requires n <= |items| && PassedOver(items, eval, n) && (n < |items| ==> Decides(items[n], eval))
    ensures i == n
  {
    hide Text.TrimSpace;
  }

  lemma {:induction false} NoneBeyond(items: seq<Scenario>, eval: string -> Outcome, i: nat, n: nat)
    requires i <= |items| && PassedOver(items, eval, i) && n <= |items| && (n < |items| ==> Decides(items[n], eval))
    ensures i <= n
  {
    hide Text.TrimSpace;
  }

  /** What the gateway answers for the saved scenarios. */
  function RuntimeSelection(items: seq<Scenario>, eval: string -> Outcome): Selection {
    AnswerOf(FirstDecider(InRuntimeOrder(items), eval), eval)
  }

  /** selectRuntimeScenario: the loop over scenarios in runtime order. */
  method SelectRuntimeScenario(scenarios: seq<Scenario>, eval: string -> Outcome) returns (r: Selection)
    ensures r == AnswerOf(FirstDecider(scenarios, eval), eval)
    ensures forall x :: r == Selected(x)
                        <==> exists i :: 0 <= i < |scenarios| && scenarios[i] == x && PassedOver(scenarios, eval, i)
                                         && Text.TrimSpace(x.conditionExpr) != ""
                                         && eval(Text.TrimSpace(x.conditionExpr)) == Holds
    ensures forall message :: r == Aborted(message)
                              <==> exists i :: 0 <= i < |scenarios| && PassedOver(scenarios, eval, i)
                                               && Text.TrimSpace(scenarios[i].conditionExpr) != ""
                                               && eval(Text.TrimSpace(scenarios[i].conditionExpr)) == Error(message)
    ensures r == NoMatch <==> PassedOver(scenarios, eval, |scenarios|)
  {
    SearchMeans(scenarios, eval);
    var index := 0;
    while index < |scenarios|
      invariant 0 <= index <= |scenarios|
      invariant FirstDecider(scenarios, eval) == FirstDecider(scenarios[index..], eval)
    {
      var item := scenarios[index];
      var condition := Text.TrimSpace(item.conditionExpr);
      if condition != "" {
        match eval(condition)
        case Error(message) => return Aborted(message);
        case Holds => return Selected(item);
        case Fails =>
      }
      index := index + 1;
    }
    return NoMatch;
  }

  /** The decider with the least priority, the earliest among equals: no sorting involved. */
  function LeastDecider(items: seq<Scenario>, eval: string -> Outcome): Option<Scenario> {
    if items == [] then None
    else
      var rest := LeastDecider(items[1..], eval);
      if !Decides(items[0], eval) then rest
      else if rest.None? || items[0].priority <= rest.value.priority then Some(items[0])
      else rest
  }

  lemma {:induction false} InsertDecider(x: Scenario, s: seq<Scenario>, eval: string -> Outcome)
    requires SortedBy(s, BY_PRIORITY)
    ensures FirstDecider(Insert(x, s, BY_PRIORITY), eval)
         == var rest := FirstDecider(s, eval);
            if !Decides(x, eval) then rest
            else if rest.None? || x.priority <= rest.value.priority then Some(x)
            else rest
    ensures FirstDecider(s, eval).Some? ==> FirstDecider(s, eval).value in s
  {
    hide Decides;
    if s == [] {
      assert ([x] + s)[1..] == s;
    } else {
      InsertDecider(x, s[1..], eval);
      if x.priority <= s[0].priority {
        assert ([x] + s)[1..] == s;
      } else {
        assert ([s[0]] + Insert(x, s[1..], BY_PRIORITY))[1..] == Insert(x, s[1..], BY_PRIORITY);
      }
    }
  }

  /** Sort, then search: the same as taking the decider of least priority. */
  lemma {:induction false} RuntimeTakesLeastDecider(items: seq<Scenario>, eval: string -> Outcome)
    ensures RuntimeSelection(items, eval) == AnswerOf(LeastDecider(items, eval), eval)
    ensures FirstDecider(InRuntimeOrder(items), eval) == LeastDecider(items, eval)
  {
    if items != [] {
      RuntimeTakesLeastDecider(items[1..], eval);
      StableSortFacts(items[1..], BY_PRIORITY);
      InsertDecider(items[0], InRuntimeOrder(items[1..]), eval);
    }
  }

  /** The scenario at j is looked at before the one at i: a smaller priority, or as small and earlier in the list. */
  predicate Before(items: seq<Scenario>, j: nat, i: nat)
    requires i < |items| && j < |items|
  {
    items[j].priority < items[i].priority || (items[j].priority == items[i].priority && j < i)
  }

  /** Every scenario that is looked at before the one at i has a blank condition, or one that fails. */
  ghost predicate Reached(items: seq<Scenario>, eval: string -> Outcome, i: nat)
    requires i < |items|
  {
    forall j: nat :: j < |items| && Before(items, j, i) ==>
      Text.TrimSpace(items[j].conditionExpr) == "" || eval(Text.TrimSpace(items[j].conditionExpr)) == Fails
  }

  lemma {:induction false} LeastDeciderPlace(items: seq<Scenario>, eval: string -> Outcome) returns (n: nat)
    requires LeastDecider(items, eval).Some?
    ensures n < |items| && LeastDecider(items, eval) == Some(items[n]) && Decides(items[n], eval)
    ensures forall j: nat :: j < |items| && Decides(items[j], eval) && j != n ==> Before(items, n, j)
  {
    hide Decides;
    var rest := LeastDecider(items[1..], eval);
    n := 0;
    if rest.Some? {
      var m := LeastDeciderPlace(items[1..], eval);
      forall j: nat | 0 < j < |items| && Decides(items[j], eval) && j != m + 1 ensures Before(items, m + 1, j) {
        assert items[1..][j - 1] == items[j] && Before(items[1..], m, j - 1);
      }
      if !Decides(items[0], eval) || rest.value.priority < items[0].priority { n := m + 1; }
    } else {
      NoDecider(items[1..], eval);
      assert forall j: nat :: 0 < j < |items| ==> items[j] == items[1..][j - 1];
    }
  }

  lemma {:induction false} NoDecider(items: seq<Scenario>, eval: string -> Outcome)
    ensures LeastDecider(items, eval).None? <==> forall j: nat :: j < |items| ==> !Decides(items[j], eval)
  {
    hide Decides;
    if items != [] {
      NoDecider(items[1..], eval);
      assert forall j: nat :: 0 < j < |items| ==> items[j] == items[1..][j - 1];
      assert forall j: nat :: j < |items[1..]| ==> items[1..][j] == items[j + 1];
    }
  }

  /**
    What the gateway answers, without sorting: the scenario whose condition holds and
    before which, by priority and then by place, all conditions are blank or fail; the
    error of the first that is neither; and no match exactly if all are blank or fail.
   */
  lemma {:induction false} RuntimeSelectionMeans(items: seq<Scenario>, eval: string -> Outcome)
    ensures var r := RuntimeSelection(items, eval);
            && (forall x :: r == Selected(x)
                            <==> exists i: nat :: i < |items| && items[i] == x && Reached(items, eval, i)
                                                  && Text.TrimSpace(x.conditionExpr) != ""
                                                  && eval(Text.TrimSpace(x.conditionExpr)) == Holds)
            && (forall message :: r == Aborted(message)
                                  <==> exists i: nat :: i < |items| && Reached(items, eval, i)
                                                        && Text.TrimSpace(items[i].conditionExpr) != ""
                                                        && eval(Text.TrimSpace(items[i].conditionExpr))
                                                           == Error(message))
            && (r == NoMatch <==> PassedOver(items, eval, |items|))
  {
    RuntimeTakesLeastDecider(items, eval);
    NoDecider(items, eval);
    hide Text.TrimSpace, RuntimeSelection, InRuntimeOrder, FirstDecider, LeastDecider;
    if LeastDecider(items, eval).Some? {
      var n := LeastDeciderPlace(items, eval);
      assert Reached(items, eval, n) by {
        forall j: nat | j < |items| && Before(items, j, n) ensures !Decides(items[j], eval) {
        }
      }
      hide Reached, Before, PassedOver;
      forall i: nat | i < |items| && Reached(items, eval, i) && Decides(items[i], eval) ensures i == n {
        OneReached(items, eval, i, n);
      }
    }
  }

  lemma {:induction false} OneReached(items: seq<Scenario>, eval: string -> Outcome, i: nat, n: nat)
    requires i < |items| && Reached(items, eval, i) && n < |items| && Decides(items[n], eval)
    requires i == n || Before(items, n, i)
    ensures i == n
  {
    hide Text.TrimSpace;
  }

  // -------- the editor --------

  datatype Draft = Draft(id: string, name: string, priority: int, fallback: bool, whenExpr: string, content: string)

  const DRAFT_PRIORITY: Draft -> int := (d: Draft) => d.priority

  function Renumber(drafts: seq<Draft>): (r: seq<Draft>)
    ensures |r| == |drafts|
    ensures forall i :: 0 <= i < |r| ==> r[i] == drafts[i].(priority := (i + 1) * 10)
  {
    seq(|drafts|, i requires 0 <= i < |drafts| => drafts[i].(priority := (i + 1) * 10))
  }

  function NormalizePriorities(drafts: seq<Draft>): seq<Draft> {
    Renumber(StableSort(drafts, DRAFT_PRIORITY))
  }

  /** Priorities are exactly 10, 20, 30, ... */
  ghost predicate Numbered(drafts: seq<Draft>) {
    forall i :: 0 <= i < |drafts| ==> drafts[i].priority == (i + 1) * 10
  }

  /** compileScenarioDraft: `clean` stands for comment stripping and trimming. */
  function Compile(d: Draft, clean: string -> string): Scenario {
    Scenario(Text.TrimSpace(d.name), d.priority,
             if d.fallback || clean(d.whenExpr) == "" then "true" else clean(d.whenExpr),
             d.content)
  }

  function CompileAll(drafts: seq<Draft>, clean: string -> string): (r: seq<Scenario>)
    ensures |r| == |drafts| && forall i :: 0 <= i < |r| ==> r[i] == Compile(drafts[i], clean)
  {
    if drafts == [] then [] else [Compile(drafts[0], clean)] + CompileAll(drafts[1..], clean)
  }

  /** Equal but for the priority number, which no answer shows. */
  ghost predicate SameAnswer(a: Selection, b: Selection) {
    match (a, b)
    case (Selected(x), Selected(y)) => x.(priority := 0) == y.(priority := 0)
    case _ => a == b
  }

  lemma {:induction false} CompileInsert(d: Draft, ds: seq<Draft>, clean: string -> string)
    ensures CompileAll(Insert(d, ds, DRAFT_PRIORITY), clean)
         == Insert(Compile(d, clean), CompileAll(ds, clean), BY_PRIORITY)
  {
    if ds != [] && d.priority > ds[0].priority {
      CompileInsert(d, ds[1..], clean);
      var r := Insert(d, ds[1..], DRAFT_PRIORITY);
      assert ([ds[0]] + r)[1..] == r;
      assert CompileAll(ds, clean)[1..] == CompileAll(ds[1..], clean);
    } else {
      assert ([d] + ds)[1..] == ds;
    }
  }

  /** Sorting drafts and compiling them commute. */
  lemma {:induction false} CompileSort(ds: seq<Draft>, clean: string -> string)
    ensures CompileAll(StableSort(ds, DRAFT_PRIORITY), clean) == InRuntimeOrder(CompileAll(ds, clean))
  {
    if ds != [] {
      CompileSort(ds[1..], clean);
      CompileInsert(ds[0], StableSort(ds[1..], DRAFT_PRIORITY), clean);
      assert CompileAll(ds, clean)[1..] == CompileAll(ds[1..], clean);
    }
  }

  lemma {:induction false} FirstDeciderIgnoresPriority(a: seq<Scenario>, b: seq<Scenario>, eval: string -> Outcome)
    requires |a| == |b| && forall i :: 0 <= i < |a| ==> a[i].(priority := 0) == b[i].(priority := 0)
    ensures SameAnswer(AnswerOf(FirstDecider(a, eval), eval), AnswerOf(FirstDecider(b, eval), eval))
  {
    if a != [] {
      assert a[0].(priority := 0) == b[0].(priority := 0);
      assert a[0].conditionExpr == a[0].(priority := 0).conditionExpr;
      assert b[0].conditionExpr == b[0].(priority := 0).conditionExpr;
      FirstDeciderIgnoresPriority(a[1..], b[1..], eval);
    }
  }

  lemma {:induction false} NumberedIsSorted(ds: seq<Draft>)
    requires Numbered(ds)
    ensures SortedBy(ds, DRAFT_PRIORITY)
    ensures NormalizePriorities(ds) == ds
  {
    assert SortedBy(ds, DRAFT_PRIORITY);
    SortingSortedIsIdentity(ds, DRAFT_PRIORITY);
  }

  lemma {:induction false} NormalizeNumbers(ds: seq<Draft>)
    ensures Numbered(NormalizePriorities(ds))
    ensures NormalizePriorities(NormalizePriorities(ds)) == NormalizePriorities(ds)
    ensures |NormalizePriorities(ds)| == |ds|
  {
    StableSortFacts(ds, DRAFT_PRIORITY);
    NumberedIsSorted(NormalizePriorities(ds));
  }

  /** Renumbering keeps the meaning: for any drafts and any outcome of their conditions. */
  lemma {:induction false} RenumberingKeepsSelection(ds: seq<Draft>, clean: string -> string, eval: string -> Outcome)
    ensures SameAnswer(RuntimeSelection(CompileAll(NormalizePriorities(ds), clean), eval),
                       RuntimeSelection(CompileAll(ds, clean), eval))
  {
    var sorted := StableSort(ds, DRAFT_PRIORITY);
    var numbered := NormalizePriorities(ds);
    CompileSort(ds, clean);
    CompileSort(numbered, clean);
    NormalizeNumbers(ds);
    NumberedIsSorted(numbered);
    SortingSortedIsIdentity(numbered, DRAFT_PRIORITY);
    var a, b := CompileAll(numbered, clean), CompileAll(sorted, clean);
    forall i | 0 <= i < |a| ensures a[i].(priority := 0) == b[i].(priority := 0) {
      assert a[i] == Compile(numbered[i], clean) && b[i] == Compile(sorted[i], clean);
    }
    FirstDeciderIgnoresPriority(a, b, eval);
  }

  lemma {:induction false} TrueIsTrimmed()
    ensures Text.TrimSpace("true") == "true"
  {
    Text.TrimmedIsFixed("true");
  }

  /** With a fallback, or a draft without a condition, some scenario always answers. */
  lemma {:induction false} FallbackAnswers(ds: seq<Draft>, clean: string -> string, eval: string -> Outcome, k: nat)
    requires k < |ds| && (ds[k].fallback || clean(ds[k].whenExpr) == "") && eval("true") == Holds
    ensures RuntimeSelection(CompileAll(ds, clean), eval) != NoMatch
  {
    TrueIsTrimmed();
    hide RuntimeSelection, Text.TrimSpace;
    RuntimeSelectionMeans(CompileAll(ds, clean), eval);
    assert CompileAll(ds, clean)[k].conditionExpr == "true";
  }

  /** The draft behind an answer: its trimmed name and its content, and a condition that holds, or none. */
  ghost predicate IsDraftOf(d: Draft, s: Scenario, clean: string -> string, eval: string -> Outcome) {
    && s.name == Text.TrimSpace(d.name) && s.content == d.content && s.priority == d.priority
    && (d.fallback || clean(d.whenExpr) == "" || eval(Text.TrimSpace(clean(d.whenExpr))) == Holds)
  }

  lemma {:induction false} AnswerIsDraft(ds: seq<Draft>, clean: string -> string, eval: string -> Outcome, s: Scenario)
    requires RuntimeSelection(CompileAll(ds, clean), eval) == Selected(s)
    ensures exists k :: 0 <= k < |ds| && IsDraftOf(ds[k], s, clean, eval)
  {
    hide RuntimeSelection, Text.TrimSpace;
    var items := CompileAll(ds, clean);
    RuntimeSelectionMeans(items, eval);
    var i: nat :| i < |items| && items[i] == s && eval(Text.TrimSpace(s.conditionExpr)) == Holds;
    assert IsDraftOf(ds[i], s, clean, eval);
  }

  // -------- editing operations --------

  function Decimal(n: nat): string {
    (if n < 10 then "" else Decimal(n / 10)) + [('0' as int + n % 10) as char]
  }

  function DefaultDraft(index: nat, id: string, content: string): Draft {
    Draft(id, "Scenario " + Decimal(index + 1), (index + 1) * 10, false, "request.method == \"GET\"", content)
  }

  function AppendScenario(ds: seq<Draft>, id: string, content: string): seq<Draft> {
    NormalizePriorities(ds + [DefaultDraft(|ds|, id, content)])
  }

  function FindIndex(ds: seq<Draft>, id: string): (r: Option<nat>)
    ensures r.Some? ==> r.value < |ds| && ds[r.value].id == id
    ensures r.Some? ==> forall i :: 0 <= i < r.value ==> ds[i].id != id
    ensures r.None? <==> forall i :: 0 <= i < |ds| ==> ds[i].id != id
  {
    if ds == [] then None
    else if ds[0].id == id then Some(0)
    else match FindIndex(ds[1..], id)
      case None => None
      case Some(i) => Some(i + 1)
  }

  function CloneOf(d: Draft, id: string): Draft {
    d.(id := id, name := d.name + " Copy", fallback := false,
       whenExpr := if d.fallback then "request.method == \"GET\"" else d.whenExpr)
  }

  function DuplicateScenario(ds: seq<Draft>, id: string, newId: string): seq<Draft> {
    match FindIndex(ds, id)
    case None => ds
    case Some(i) => NormalizePriorities(ds[..i + 1] + [CloneOf(ds[i], newId)] + ds[i + 1..])
  }

  function Without(ds: seq<Draft>, id: string): seq<Draft> {
    if ds == [] then []
    else if ds[0].id != id then [ds[0]] + Without(ds[1..], id)
    else Without(ds[1..], id)
  }

  function RemoveScenario(ds: seq<Draft>, id: string): seq<Draft> {
    if Without(ds, id) == [] then [] else NormalizePriorities(Without(ds, id))
  }

  /** The list moveScenario builds before it normalises, when the move is possible. */
  function Moved(ds: seq<Draft>, index: nat, down: bool): seq<Draft>
    requires if down then index + 1 < |ds| else 0 < index < |ds|
  {
    var rest := ds[..index] + ds[index + 1..];
    var target := if down then index + 1 else index - 1;
    rest[..target] + [ds[index]] + rest[target..]
  }

  function MoveScenario(ds: seq<Draft>, id: string, down: bool): seq<Draft> {
    match FindIndex(ds, id)
    case None => ds
    case Some(i) =>
      if (if down then i + 1 < |ds| else 0 < i) then NormalizePriorities(Moved(ds, i, down)) else ds
  }

  function NumberOf(s: string): int {
    if s == "" then 0 else 10 * NumberOf(s[..|s| - 1]) + (s[|s| - 1] as int - '0' as int)
  }

  /** Decimal digits of the number, without leading zeros. */
  lemma {:induction false} DecimalReads(n: nat)
    ensures Decimal(n) != "" && NumberOf(Decimal(n)) == n && (n > 0 ==> Decimal(n)[0] != '0')
    ensures forall c :: c in Decimal(n) ==> '0' <= c <= '9'
  {
    var front := if n < 10 then "" else Decimal(n / 10);
    var digit := ('0' as int + n % 10) as char;
    assert Decimal(n) == front + [digit];
    if n >= 10 { DecimalReads(n / 10); }
    assert NumberOf("") == 0;
    hide Decimal;
    NumberOfSnoc(front, digit);
  }

  lemma {:induction false} NumberOfSnoc(s: string, c: char)
    ensures NumberOf(s + [c]) == 10 * NumberOf(s) + (c as int - '0' as int)
  {
    assert (s + [c])[..|s|] == s;
  }

  lemma {:induction false} AppendGoesLast(ds: seq<Draft>, id: string, content: string)
    requires Numbered(ds)
    ensures AppendScenario(ds, id, content)
            == ds + [Draft(id, "Scenario " + Decimal(|ds| + 1), (|ds| + 1) * 10, false, "request.method == \"GET\"",
                           content)]
    ensures Numbered(AppendScenario(ds, id, content))
  {
    NumberedIsSorted(ds + [DefaultDraft(|ds|, id, content)]);
  }

  /** The copy lands right behind the original, and nothing else moves. */
  lemma {:induction false} DuplicateGoesBehind(ds: seq<Draft>, id: string, newId: string)
    requires Numbered(ds) && FindIndex(ds, id).Some?
    ensures var i := FindIndex(ds, id).value;
            && DuplicateScenario(ds, id, newId) == Renumber(ds[..i + 1] + [CloneOf(ds[i], newId)] + ds[i + 1..])
            && |DuplicateScenario(ds, id, newId)| == |ds| + 1
            && var copy := DuplicateScenario(ds, id, newId)[i + 1];
            && copy.id == newId && copy.name == ds[i].name + " Copy" && copy.content == ds[i].content && !copy.fallback
            && copy.whenExpr == (if ds[i].fallback then "request.method == \"GET\"" else ds[i].whenExpr)
            && copy.priority == (i + 2) * 10
    ensures Numbered(DuplicateScenario(ds, id, newId))
  {
    hide Renumber, StableSort, FindIndex;
    var i := FindIndex(ds, id).value;
    var next := ds[..i + 1] + [CloneOf(ds[i], newId)] + ds[i + 1..];
    forall j | 0 <= j < |next| ensures next[j].priority == if j <= i then (j + 1) * 10 else j * 10 {
      if j > i + 1 { assert next[j] == ds[j - 1]; }
    }
    assert SortedBy(next, DRAFT_PRIORITY);
    SortingSortedIsIdentity(next, DRAFT_PRIORITY);
  }

  lemma {:induction false} TailIsSorted(ds: seq<Draft>)
    requires SortedBy(ds, DRAFT_PRIORITY) && ds != []
    ensures SortedBy(ds[1..], DRAFT_PRIORITY)
  {
  }

  lemma {:induction false} HeadIsLeast(ds: seq<Draft>, d: Draft)
    requires SortedBy(ds, DRAFT_PRIORITY) && ds != [] && d in ds[1..]
    ensures ds[0].priority <= d.priority
  {
    var i :| 0 <= i < |ds[1..]| && ds[1..][i] == d;
    assert DRAFT_PRIORITY(ds[0]) <= DRAFT_PRIORITY(ds[i + 1]);
  }

  lemma {:induction false} ConsIsSorted(d: Draft, ds: seq<Draft>)
    requires SortedBy(ds, DRAFT_PRIORITY) && forall x :: x in ds ==> d.priority <= x.priority
    ensures SortedBy([d] + ds, DRAFT_PRIORITY)
  {
  }

  lemma {:induction false} WithoutIsSorted(ds: seq<Draft>, id: string)
    requires SortedBy(ds, DRAFT_PRIORITY)
    ensures SortedBy(Without(ds, id), DRAFT_PRIORITY)
    ensures forall d :: d in Without(ds, id) <==> d in ds && d.id != id
  {
    if ds != [] {
      var rest := ds[1..];
      assert SortedBy(rest, DRAFT_PRIORITY) by { TailIsSorted(ds); }
      WithoutIsSorted(rest, id);
      var r := Without(rest, id);
      assert forall d :: d in ds <==> d == ds[0] || d in rest by { assert ds == [ds[0]] + rest; }
      forall d | d in r ensures ds[0].priority <= d.priority {
        HeadIsLeast(ds, d);
      }
      if ds[0].id != id { ConsIsSorted(ds[0], r); }
    }
  }

  lemma {:induction false} RemoveKeepsOrder(ds: seq<Draft>, id: string)
    requires Numbered(ds)
    ensures RemoveScenario(ds, id) == Renumber(Without(ds, id))
    ensures Numbered(RemoveScenario(ds, id))
  {
    NumberedIsSorted(ds);
    WithoutIsSorted(ds, id);
    SortingSortedIsIdentity(Without(ds, id), DRAFT_PRIORITY);
  }

  lemma {:induction false} MovedSwapsNeighbours(ds: seq<Draft>, index: nat, down: bool)
    requires if down then index + 1 < |ds| else 0 < index < |ds|
    ensures var i := if down then index else index - 1;
            Moved(ds, index, down) == ds[..i] + [ds[i + 1], ds[i]] + ds[i + 2..]
            && ds == ds[..i] + [ds[i], ds[i + 1]] + ds[i + 2..]
  {
  }

  lemma {:induction false} PairClass(x: Draft, y: Draft, k: int)
    ensures Class([x, y], DRAFT_PRIORITY, k)
         == (if x.priority == k then [x] else []) + (if y.priority == k then [y] else [])
  {
    assert [x, y][1..] == [y] && [y][1..] == [];
    assert Class([y], DRAFT_PRIORITY, k) == if y.priority == k then [y] else [];
  }

  /** A move survives the re-sort exactly when the two neighbours share a priority (or are the same draft). */
  lemma {:induction false} MoveSurvivesIffTied(ds: seq<Draft>, index: nat, down: bool)
    requires if down then index + 1 < |ds| else 0 < index < |ds|
    ensures var i := if down then index else index - 1;
            StableSort(Moved(ds, index, down), DRAFT_PRIORITY) == StableSort(ds, DRAFT_PRIORITY)
            <==> ds[i].priority != ds[i + 1].priority || ds[i] == ds[i + 1]
  {
    var i := if down then index else index - 1;
    var x, y, a, b := ds[i], ds[i + 1], ds[..i], ds[i + 2..];
    var next := Moved(ds, index, down);
    MovedSwapsNeighbours(ds, index, down);
    StableSortFacts(ds, DRAFT_PRIORITY);
    StableSortFacts(next, DRAFT_PRIORITY);
    forall k
      ensures Class(next, DRAFT_PRIORITY, k)
              == Class(a, DRAFT_PRIORITY, k) + Class([y, x], DRAFT_PRIORITY, k) + Class(b, DRAFT_PRIORITY, k)
      ensures Class(ds, DRAFT_PRIORITY, k)
              == Class(a, DRAFT_PRIORITY, k) + Class([x, y], DRAFT_PRIORITY, k) + Class(b, DRAFT_PRIORITY, k)
    {
      ClassAppend(a, [y, x], DRAFT_PRIORITY, k);
      ClassAppend(a + [y, x], b, DRAFT_PRIORITY, k);
      ClassAppend(a, [x, y], DRAFT_PRIORITY, k);
      ClassAppend(a + [x, y], b, DRAFT_PRIORITY, k);
    }
    if x.priority != y.priority || x == y {
      forall k ensures Class(next, DRAFT_PRIORITY, k) == Class(ds, DRAFT_PRIORITY, k) {
        PairClass(x, y, k);
        PairClass(y, x, k);
      }
      StableSortIsUnique(StableSort(next, DRAFT_PRIORITY), StableSort(ds, DRAFT_PRIORITY), DRAFT_PRIORITY);
    } else {
      var k := x.priority;
      PairClass(x, y, k);
      PairClass(y, x, k);
      var n := |Class(a, DRAFT_PRIORITY, k)|;
      assert Class(StableSort(next, DRAFT_PRIORITY), DRAFT_PRIORITY, k)[n] == y;
      assert Class(StableSort(ds, DRAFT_PRIORITY), DRAFT_PRIORITY, k)[n] == x;
    }
  }

  /** The list with the drafts at i and i + 1 in each other's place. */
  function Swapped(ds: seq<Draft>, i: nat): seq<Draft>
    requires i + 1 < |ds|
  {
    ds[i := ds[i + 1]][i + 1 := ds[i]]
  }

  /**
    A move to a place that exists swaps two neighbours and sorts again: in a sorted list they stay swapped if
    they share a priority, and in any list it is as if nothing was moved if they do not.
   */
  lemma {:induction false} MoveMeans(ds: seq<Draft>, id: string, down: bool)
    ensures FindIndex(ds, id).None? ==> MoveScenario(ds, id, down) == ds
    ensures FindIndex(ds, id).Some? ==>
              var k := FindIndex(ds, id).value;
              var i := if down then k else k - 1;
              if i < 0 || i + 1 >= |ds| then MoveScenario(ds, id, down) == ds
              else if ds[i].priority != ds[i + 1].priority then MoveScenario(ds, id, down) == NormalizePriorities(ds)
              else SortedBy(ds, DRAFT_PRIORITY) ==> MoveScenario(ds, id, down) == Renumber(Swapped(ds, i))
  {
    hide FindIndex, Renumber, StableSort, NormalizePriorities, Moved, SortedBy, Swapped;
    var f := FindIndex(ds, id);
    if f.Some? && (if down then f.value + 1 < |ds| else 0 < f.value) {
      MovedMeans(ds, f.value, down);
    }
  }

  lemma {:induction false} MovedMeans(ds: seq<Draft>, index: nat, down: bool)
    requires if down then index + 1 < |ds| else 0 < index < |ds|
    ensures var i := if down then index else index - 1;
            var moved := NormalizePriorities(Moved(ds, index, down));
            if ds[i].priority != ds[i + 1].priority then moved == NormalizePriorities(ds)
            else SortedBy(ds, DRAFT_PRIORITY) ==> moved == Renumber(Swapped(ds, i))
  {
    MoveSurvivesIffTied(ds, index, down);
    MovedIsSwapped(ds, index, down);
    hide Renumber, StableSort, SortedBy, Moved, Swapped;
    var i := if down then index else index - 1;
    if SortedBy(ds, DRAFT_PRIORITY) && ds[i].priority == ds[i + 1].priority {
      SwappedIsSorted(ds, i);
      SortingSortedIsIdentity(Swapped(ds, i), DRAFT_PRIORITY);
    }
  }

  lemma {:induction false} MovedIsSwapped(ds: seq<Draft>, index: nat, down: bool)
    requires if down then index + 1 < |ds| else 0 < index < |ds|
    ensures Moved(ds, index, down) == Swapped(ds, if down then index else index - 1)
  {
  }

  lemma {:induction false} SwappedIsSorted(ds: seq<Draft>, i: nat)
    requires i + 1 < |ds| && SortedBy(ds, DRAFT_PRIORITY) && ds[i].priority == ds[i + 1].priority
    ensures SortedBy(Swapped(ds, i), DRAFT_PRIORITY)
  {
    var s := Swapped(ds, i);
    assert forall k :: 0 <= k < |s| ==> DRAFT_PRIORITY(s[k]) == DRAFT_PRIORITY(ds[k]);
  }

  /** On a normalised list, which is all the editor holds, moving a scenario does nothing. */
  lemma {:induction false} MoveIsNoOpOnNumbered(ds: seq<Draft>, id: string, down: bool)
    requires Numbered(ds)
    ensures MoveScenario(ds, id, down) == ds
  {
    var f := FindIndex(ds, id);
    if f.Some? && (if down then f.value + 1 < |ds| else 0 < f.value) {
      MoveSurvivesIffTied(ds, f.value, down);
      NumberedIsSorted(ds);
      SortingSortedIsIdentity(ds, DRAFT_PRIORITY);
    }
  }
}
