/** The rule-set validator: exact errors, and warnings for columns the source does not reach. */
module ProcessValidation {
  import opened Common
  import opened ProcessRules
  import opened ProcessGraph
  import opened CycleSearches

  datatype RuleError =
    | BadTriggerKind(rule: nat)
    | BadTriggerJoin(rule: nat)
    | MissingTriggerColumn(rule: nat)
    | RowTriggerHasColumn(rule: nat)
    | NoExpectedColumns(rule: nat)
    | SelfLoop(rule: nat, column: Id)
    | DuplicateExpected(rule: nat, column: Id)
    | DuplicateEdge(from: GNode, to: GNode)
    | CycleFound(cycle: seq<GNode>)

  datatype Verdict = Verdict(errors: seq<RuleError>, warnings: seq<Id>)

  // ----- what makes a rule well formed -----

  ghost predicate WellFormed(r: Rule) {
    && r.kind != OtherKind
    && (r.kind == ColumnKind ==> r.join != OtherJoin && r.triggers != [])
    && (r.kind == ColumnKind ==> forall t :: t in r.triggers ==> t !in r.expected)
    && (r.kind == RowKind ==> r.triggers == [])
    && r.expected != [] && NoDup(r.expected)
  }

  function Occurrences(s: seq<Id>, c: Id): nat {
    if s == [] then 0 else Occurrences(s[..|s| - 1], c) + (if s[|s| - 1] == c then 1 else 0)
  }

  function SelfLoops(i: nat, triggers: seq<Id>, expected: seq<Id>): seq<RuleError> {
    if triggers == [] then []
    else
      var t := triggers[|triggers| - 1];
      SelfLoops(i, triggers[..|triggers| - 1], expected) + (if t in expected then [SelfLoop(i, t)] else [])
  }

  /** The first column listed more than once. */
  function FirstRepeated(s: seq<Id>, all: seq<Id>): seq<Id> {
    if s == [] then [] else if Occurrences(all, s[0]) > 1 then [s[0]] else FirstRepeated(s[1..], all)
  }

  function ShapeErrors(r: Rule, i: nat): seq<RuleError> {
    (if r.kind == OtherKind then [BadTriggerKind(i)] else [])
    + (if r.kind == ColumnKind && r.join == OtherJoin then [BadTriggerJoin(i)] else [])
    + (if r.kind == ColumnKind && r.triggers == [] then [MissingTriggerColumn(i)] else [])
    + (if r.kind == RowKind && r.triggers != [] then [RowTriggerHasColumn(i)] else [])
    + (if r.expected == [] then [NoExpectedColumns(i)] else [])
  }

  function RuleErrors(r: Rule, i: nat): seq<RuleError> {
    ShapeErrors(r, i)
    + (if r.kind == ColumnKind then SelfLoops(i, r.triggers, r.expected) else [])
    + (var dup := FirstRepeated(r.expected, r.expected); if dup == [] then [] else [DuplicateExpected(i, dup[0])])
  }

  function AllRuleErrors(rules: seq<Rule>): seq<RuleError> {
    if rules == [] then []
    else AllRuleErrors(rules[..|rules| - 1]) + RuleErrors(rules[|rules| - 1], |rules| - 1)
  }

  predicate PairIn(edges: seq<Edge>, e: Edge) {
    exists d :: d in edges && d.from == e.from && d.to == e.to
  }

  function DuplicateErrors(edges: seq<Edge>): seq<RuleError> {
    if edges == [] then []
    else
      var e, rest := edges[|edges| - 1], edges[..|edges| - 1];
      DuplicateErrors(rest) + (if PairIn(rest, e) then [DuplicateEdge(e.from, e.to)] else [])
  }

  ghost predicate DistinctPairs(edges: seq<Edge>) {
    forall i, j :: 0 <= i < j < |edges| ==> edges[i].from != edges[j].from || edges[i].to != edges[j].to
  }

  /** What a rule set must be to pass: every rule well formed, no dependency twice, no cycle. */
  ghost predicate Acceptable(rules: seq<Rule>) {
    && (forall r :: r in rules ==> WellFormed(r))
    && DistinctPairs(EdgesOf(rules))
    && Acyclic(EdgesOf(rules))
  }

  // ----- no errors exactly when well formed -----

  lemma {:induction false} SelfLoopsEmpty(i: nat, triggers: seq<Id>, expected: seq<Id>)
    ensures SelfLoops(i, triggers, expected) == [] <==> forall t :: t in triggers ==> t !in expected
  {
    if triggers != [] {
      var t, rest := triggers[|triggers| - 1], triggers[..|triggers| - 1];
      assert triggers == rest + [t];
      SelfLoopsEmpty(i, rest, expected);
    }
  }

  lemma {:induction false} OccursOnce(s: seq<Id>, c: Id)
    ensures Occurrences(s, c) > 0 <==> c in s
    ensures NoDup(s) ==> Occurrences(s, c) <= 1
  {
    if s != [] {
      assert s == s[..|s| - 1] + [s[|s| - 1]];
      OccursOnce(s[..|s| - 1], c);
    }
  }

  lemma {:induction false} RepeatOccurs(s: seq<Id>) returns (c: Id)
    requires !NoDup(s)
    ensures c in s && Occurrences(s, c) > 1
  {
    var t, x := s[..|s| - 1], s[|s| - 1];
    assert s == t + [x];
    if NoDup(t) {
      c := x;
      OccursOnce(t, x);
    } else {
      c := RepeatOccurs(t);
    }
  }

  lemma {:induction false} FirstRepeatedEmpty(s: seq<Id>, all: seq<Id>)
    ensures FirstRepeated(s, all) == [] <==> forall c :: c in s ==> Occurrences(all, c) <= 1
  {
    if s != [] {
      FirstRepeatedEmpty(s[1..], all);
      assert s[0] in s;
      forall c | c in s
        ensures c == s[0] || c in s[1..]
      {
      }
      forall c | c in s[1..]
        ensures c in s
      {
      }
    }
  }

  lemma {:induction false} NoRepeats(s: seq<Id>)
    ensures FirstRepeated(s, s) == [] <==> NoDup(s)
  {
    FirstRepeatedEmpty(s, s);
    if NoDup(s) {
      forall c | c in s ensures Occurrences(s, c) <= 1 { OccursOnce(s, c); }
    } else {
      var c := RepeatOccurs(s);
    }
  }

  lemma RuleErrorsEmpty(r: Rule, i: nat)
    ensures RuleErrors(r, i) == [] <==> WellFormed(r)
  {
    SelfLoopsEmpty(i, r.triggers, r.expected);
    NoRepeats(r.expected);
  }

  lemma {:induction false} AllRuleErrorsEmpty(rules: seq<Rule>)
    ensures AllRuleErrors(rules) == [] <==> forall r :: r in rules ==> WellFormed(r)
  {
    if rules != [] {
      hide WellFormed, RuleErrors;
      var r, rest := rules[|rules| - 1], rules[..|rules| - 1];
      SnocMembers(rules);
      AllRuleErrorsEmpty(rest);
      RuleErrorsEmpty(r, |rules| - 1);
    }
  }

  lemma {:induction false} DuplicateErrorsEmpty(edges: seq<Edge>)
    ensures DuplicateErrors(edges) == [] <==> DistinctPairs(edges)
  {
    if edges != [] {
      var e, rest := edges[|edges| - 1], edges[..|edges| - 1];
      DuplicateErrorsEmpty(rest);
      if PairIn(rest, e) {
        var d :| d in rest && d.from == e.from && d.to == e.to;
        var i :| 0 <= i < |rest| && rest[i] == d;
        assert edges[i] == d && edges[|edges| - 1] == e;
      } else {
        forall i | 0 <= i < |rest|
          ensures rest[i].from != e.from || rest[i].to != e.to
        {
          assert rest[i] in rest;
        }
      }
      if DistinctPairs(edges) {
        assert DistinctPairs(rest);
      }
    }
  }

  // ----- which errors, exactly -----

  /** Entry `j` of `s` is `c`, the first of them that `all` lists twice. */
  ghost predicate FirstIn(s: seq<Id>, all: seq<Id>, j: nat, c: Id) {
    j < |s| && s[j] == c && Before(all, c, c) && forall i :: 0 <= i < j ==> !Before(all, s[i], s[i])
  }

  /** What the error says is so. */
  ghost predicate Justified(rules: seq<Rule>, e: RuleError) {
    match e
    case BadTriggerKind(i) => i < |rules| && rules[i].kind == OtherKind
    case BadTriggerJoin(i) => i < |rules| && rules[i].kind == ColumnKind && rules[i].join == OtherJoin
    case MissingTriggerColumn(i) => i < |rules| && rules[i].kind == ColumnKind && rules[i].triggers == []
    case RowTriggerHasColumn(i) => i < |rules| && rules[i].kind == RowKind && rules[i].triggers != []
    case NoExpectedColumns(i) => i < |rules| && rules[i].expected == []
    case SelfLoop(i, c) =>
      i < |rules| && rules[i].kind == ColumnKind && c in rules[i].triggers && c in rules[i].expected
    case DuplicateExpected(i, c) => i < |rules| && exists j: nat :: FirstIn(rules[i].expected, rules[i].expected, j, c)
    case DuplicateEdge(_, _) => false
    case CycleFound(_) => false
  }

  lemma {:induction false} OccursTwice(s: seq<Id>, c: Id)
    ensures Occurrences(s, c) > 1 <==> Before(s, c, c)
  {
    if s != [] {
      var t, x := s[..|s| - 1], s[|s| - 1];
      assert s == t + [x];
      OccursTwice(t, c);
      OccursOnce(t, c);
      BeforeConcat(t, [x], c, c);
      BeforeSingle(x, c, c);
    }
  }

  lemma {:induction false} FirstRepeatedIs(s: seq<Id>, all: seq<Id>, c: Id)
    ensures |FirstRepeated(s, all)| <= 1
    ensures FirstRepeated(s, all) == [c] <==> exists j: nat :: FirstIn(s, all, j, c)
  {
    if s != [] {
      hide Before;
      OccursTwice(all, s[0]);
      FirstRepeatedIs(s[1..], all, c);
      if Before(all, s[0], s[0]) {
        assert FirstRepeated(s, all) == [s[0]];
        assert s[0] == c ==> FirstIn(s, all, 0, c);
      } else {
        FirstInTail(s, all, c);
      }
    }
  }

  lemma FirstInTail(s: seq<Id>, all: seq<Id>, c: Id)
    requires s != [] && !Before(all, s[0], s[0])
    ensures (exists j: nat :: FirstIn(s, all, j, c)) <==> exists j: nat :: FirstIn(s[1..], all, j, c)
  {
    hide Before;
    if j: nat :| FirstIn(s[1..], all, j, c) {
      forall i | 0 <= i < j + 1
        ensures !Before(all, s[i], s[i])
      {
        if i > 0 { assert s[i] == s[1..][i - 1]; }
      }
      assert FirstIn(s, all, j + 1, c);
    }
    if j: nat :| FirstIn(s, all, j, c) {
      forall i | 0 <= i < j - 1
        ensures !Before(all, s[1..][i], s[1..][i])
      {
        assert s[1..][i] == s[i + 1];
      }
      assert FirstIn(s[1..], all, j - 1, c);
    }
  }

  lemma {:induction false} SelfLoopsAre(i: nat, triggers: seq<Id>, expected: seq<Id>, e: RuleError)
    ensures e in SelfLoops(i, triggers, expected) <==>
            e.SelfLoop? && e.rule == i && e.column in triggers && e.column in expected
  {
    if triggers != [] {
      SelfLoopsAre(i, triggers[..|triggers| - 1], expected, e);
      SnocMembers(triggers);
    }
  }

  /** One rule's errors are those that are so of it. */
  lemma RuleErrorsAre(r: Rule, i: nat, rules: seq<Rule>, e: RuleError)
    requires i < |rules| && rules[i] == r
    ensures e in RuleErrors(r, i) <==> Justified(rules, e) && e.rule == i
  {
    SelfLoopsAre(i, r.triggers, r.expected, e);
    hide SelfLoops, FirstIn;
    FirstRepeatedIs(r.expected, r.expected, if e.DuplicateExpected? then e.column else 0);
  }

  /** The per-rule errors are exactly those that are so. */
  lemma {:induction false} RuleErrorsAreJustified(rules: seq<Rule>, e: RuleError)
    ensures e in AllRuleErrors(rules) <==> Justified(rules, e)
  {
    if rules != [] {
      var rest, r := rules[..|rules| - 1], rules[|rules| - 1];
      assert AllRuleErrors(rules) == AllRuleErrors(rest) + RuleErrors(r, |rest|) by { hide RuleErrors; }
      hide *;
      RuleErrorsAreJustified(rest, e);
      RuleErrorsAre(r, |rest|, rules, e);
      JustifiedSnoc(rules, e);
    } else {
      NothingJustified(e);
    }
  }

  lemma NothingJustified(e: RuleError)
    ensures e !in AllRuleErrors([]) && !Justified([], e)
  {
  }

  lemma JustifiedSnoc(rules: seq<Rule>, e: RuleError)
    requires rules != []
    ensures Justified(rules, e) <==>
            Justified(rules[..|rules| - 1], e) || (Justified(rules, e) && e.rule == |rules| - 1)
  {
    hide FirstIn;
  }

  /** Two edges, of whatever rules, run from `a` to `b`. */
  ghost predicate TwoEdges(edges: seq<Edge>, a: GNode, b: GNode) {
    exists i, j :: 0 <= i < j < |edges| && Joins(edges[i], a, b) && Joins(edges[j], a, b)
  }

  ghost predicate Joins(e: Edge, a: GNode, b: GNode) {
    e.from == a && e.to == b
  }

  lemma TwoEdgesSnoc(rest: seq<Edge>, d: Edge, a: GNode, b: GNode)
    ensures TwoEdges(rest + [d], a, b) <==> TwoEdges(rest, a, b) || (PairIn(rest, d) && Joins(d, a, b))
  {
    var all := rest + [d];
    if TwoEdges(rest, a, b) {
      var i, j :| 0 <= i < j < |rest| && Joins(rest[i], a, b) && Joins(rest[j], a, b);
      assert all[i] == rest[i] && all[j] == rest[j];
    }
    if PairIn(rest, d) && Joins(d, a, b) {
      var x :| x in rest && x.from == d.from && x.to == d.to;
      var i :| 0 <= i < |rest| && rest[i] == x;
      assert Joins(all[i], a, b) && Joins(all[|rest|], a, b);
    }
  }

  /** A dependency is reported as a duplicate exactly when two edges stand for it. */
  lemma {:induction false} DuplicateErrorsAreRepeats(edges: seq<Edge>, e: RuleError)
    ensures e in DuplicateErrors(edges) <==> e.DuplicateEdge? && TwoEdges(edges, e.from, e.to)
  {
    if edges != [] {
      hide TwoEdges, PairIn;
      var d, rest := edges[|edges| - 1], edges[..|edges| - 1];
      assert edges == rest + [d];
      DuplicateErrorsAreRepeats(rest, e);
      if e.DuplicateEdge? { TwoEdgesSnoc(rest, d, e.from, e.to); }
    }
  }

  // ----- the validator -----

  method CheckShape(r: Rule, i: nat) returns (found: seq<RuleError>)
    ensures found == ShapeErrors(r, i)
  {
    found := [];
    if r.kind == OtherKind { found := found + [BadTriggerKind(i)]; }
    if r.kind == ColumnKind && r.join == OtherJoin { found := found + [BadTriggerJoin(i)]; }
    if r.kind == ColumnKind && r.triggers == [] { found := found + [MissingTriggerColumn(i)]; }
    if r.kind == RowKind && r.triggers != [] { found := found + [RowTriggerHasColumn(i)]; }
    if r.expected == [] { found := found + [NoExpectedColumns(i)]; }
  }

  method CheckLoops(r: Rule, i: nat) returns (found: seq<RuleError>)
    ensures found == SelfLoops(i, r.triggers, r.expected)
  {
    found := [];
    for j := 0 to |r.triggers|
      invariant found == SelfLoops(i, r.triggers[..j], r.expected)
    {
      assert r.triggers[..j + 1][..j] == r.triggers[..j];
      if r.triggers[j] in r.expected { found := found + [SelfLoop(i, r.triggers[j])]; }
    }
    assert r.triggers[..|r.triggers|] == r.triggers;
  }

  method CheckRule(r: Rule, i: nat, errors0: seq<RuleError>) returns (errors: seq<RuleError>)
    ensures errors == errors0 + RuleErrors(r, i)
  {
    hide ShapeErrors, SelfLoops, FirstRepeated;
    var found := CheckShape(r, i);
    if r.kind == ColumnKind {
      var loops := CheckLoops(r, i);
      found := found + loops;
    }
    var dup := FirstRepeated(r.expected, r.expected);
    if dup != [] { found := found + [DuplicateExpected(i, dup[0])]; }
    errors := errors0 + found;
  }

  function Pairs(edges: seq<Edge>): set<(GNode, GNode)> {
    set e | e in edges :: (e.from, e.to)
  }

  lemma PairsNext(edges: seq<Edge>, i: nat)
    requires i < |edges|
    ensures Pairs(edges[..i + 1]) == Pairs(edges[..i]) + {(edges[i].from, edges[i].to)}
    ensures PairIn(edges[..i], edges[i]) <==> (edges[i].from, edges[i].to) in Pairs(edges[..i])
  {
    assert edges[..i + 1] == edges[..i] + [edges[i]];
  }

  method CheckDuplicates(edges: seq<Edge>, errors0: seq<RuleError>) returns (errors: seq<RuleError>)
    ensures errors == errors0 + DuplicateErrors(edges)
  {
    hide Pairs, PairIn;
    errors := errors0;
    var seen: set<(GNode, GNode)> := {};
    assert Pairs([]) == {} by { NoPairs(); }
    for i := 0 to |edges|
      invariant errors == errors0 + DuplicateErrors(edges[..i])
      invariant seen == Pairs(edges[..i])
    {
      var e := edges[i];
      assert edges[..i + 1][..i] == edges[..i];
      PairsNext(edges, i);
      if (e.from, e.to) in seen {
        errors := errors + [DuplicateEdge(e.from, e.to)];
      } else {
        seen := seen + {(e.from, e.to)};
      }
    }
    assert edges[..|edges|] == edges;
  }

  lemma NoPairs()
    ensures Pairs([]) == {}
  {
  }

  /** Every column the edges name. */
  function Columns(edges: seq<Edge>): set<Id> {
    set n | n in Nodes(edges) && n.Col? :: n.id
  }

  /** The listing of a set of ids in ascending order. */
  ghost predicate SortedListing(s: seq<Id>, all: set<Id>) {
    && (forall i, j :: 0 <= i < j < |s| ==> s[i] < s[j])
    && forall c :: c in s <==> c in all
  }

  method SortIds(all: set<Id>) returns (s: seq<Id>)
    ensures SortedListing(s, all)
    decreases all
  {
    s := [];
    var left := all;
    while left != {}
      invariant left <= all && SortedListing(s, all - left)
      invariant forall c, d :: c in s && d in left ==> c < d
      decreases left
    {
      var c := Least(left);
      assert forall k :: k in s + [c] <==> k in s || k == c;
      assert forall i :: 0 <= i < |s| ==> s[i] in s;
      s, left := s + [c], left - {c};
    }
  }

  ghost predicate IsLeast(s: set<Id>, c: Id) {
    c in s && forall d :: d in s ==> c <= d
  }

  method Least(s: set<Id>) returns (c: Id)
    requires s != {}
    ensures IsLeast(s, c)
  {
    c :| c in s;
    var left := s - {c};
    while left != {}
      invariant c in s && left <= s && forall d :: d in s ==> d in left || c <= d
      decreases left
    {
      var d :| d in left;
      if d < c { c := d; }
      left := left - {d};
    }
  }

  /** All errors in the order found; warnings only for an acyclic set. */
  method ValidateRules(rules: seq<Rule>) returns (v: Verdict)
    ensures v.errors == [] <==> Acceptable(rules)
    ensures AllRuleErrors(rules) + DuplicateErrors(EdgesOf(rules)) <= v.errors
    ensures forall e :: e in v.errors && e.CycleFound? ==> IsClosedWalk(EdgesOf(rules), e.cycle)
    ensures Acyclic(EdgesOf(rules)) ==>
              && v.errors == AllRuleErrors(rules) + DuplicateErrors(EdgesOf(rules))
              && SortedListing(v.warnings, set c | c in Columns(EdgesOf(rules)) && !Reachable(EdgesOf(rules), Col(c)))
    ensures !Acyclic(EdgesOf(rules)) ==> v.warnings == []
  {
    var errors: seq<RuleError> := [];
    for i := 0 to |rules|
      invariant errors == AllRuleErrors(rules[..i])
    {
      errors := CheckRule(rules[i], i, errors);
      assert rules[..i + 1][..i] == rules[..i];
    }
    assert rules[..|rules|] == rules;
    var edges := BuildEdges(rules);
    errors := CheckDuplicates(edges, errors);
    ghost var local := errors;
    NoCycleErrors(rules, edges);
    AllRuleErrorsEmpty(rules);
    DuplicateErrorsEmpty(edges);
    var cycle := FindCycle(edges);
    if cycle.Some? {
      return Verdict(errors + [CycleFound(cycle.value)], []);
    }
    var warnings := Unreached(edges);
    v := Verdict(errors, warnings);
  }

  method Unreached(edges: seq<Edge>) returns (warnings: seq<Id>)
    ensures SortedListing(warnings, set c | c in Columns(edges) && !Reachable(edges, Col(c)))
  {
    var reachable := ReachableFromStart(edges);
    var missing := set c | c in Columns(edges) && Col(c) !in reachable;
    warnings := SortIds(missing);
    assert missing == set c | c in Columns(edges) && !Reachable(edges, Col(c));
  }

  lemma {:induction false} NoCycleErrors(rules: seq<Rule>, edges: seq<Edge>)
    ensures forall e :: e in AllRuleErrors(rules) + DuplicateErrors(edges) ==> !e.CycleFound?
  {
    hide AllRuleErrors, DuplicateErrors;
    forall e | e in AllRuleErrors(rules) + DuplicateErrors(edges)
      ensures !e.CycleFound?
    {
      RuleErrorsAreJustified(rules, e);
      DuplicateErrorsAreRepeats(edges, e);
    }
  }
}
