/** The rules of a process and the dependency edges they stand for. */
module ProcessRules {
  import opened Common

  datatype Kind = RowKind | ColumnKind | OtherKind

  datatype Join = AnyJoin | AllJoin | OtherJoin

  datatype Op = OnCreated | OnUpdated | OnBoth

  /** "On <trigger>: expect <columns> filled within <seconds>". */
  datatype Rule = Rule(
    key: string,
    kind: Kind,
    op: Op,
    triggers: seq<Id>,
    join: Join,
    expected: seq<Id>,
    within: int,
    notifyOnExpect: bool)

  /** A node of the derived graph: the synthetic source, or a column. */
  datatype GNode = Start | Col(id: Id)

  datatype Edge = Edge(key: string, from: GNode, to: GNode)

  function Fan(key: string, from: GNode, expected: seq<Id>): seq<Edge> {
    if expected == [] then []
    else Fan(key, from, expected[..|expected| - 1]) + [Edge(key, from, Col(expected[|expected| - 1]))]
  }

  function Fans(key: string, triggers: seq<Id>, expected: seq<Id>): seq<Edge> {
    if triggers == [] then []
    else Fans(key, triggers[..|triggers| - 1], expected) + Fan(key, Col(triggers[|triggers| - 1]), expected)
  }

  function RuleEdges(r: Rule): seq<Edge> {
    if r.kind == RowKind then Fan(r.key, Start, r.expected) else Fans(r.key, r.triggers, r.expected)
  }

  function EdgesOf(rules: seq<Rule>): seq<Edge> {
    if rules == [] then [] else EdgesOf(rules[..|rules| - 1]) + RuleEdges(rules[|rules| - 1])
  }

  method FanOut(key: string, from: GNode, expected: seq<Id>, edges: seq<Edge>) returns (r: seq<Edge>)
    ensures r == edges + Fan(key, from, expected)
  {
    r := edges;
    for i := 0 to |expected|
      invariant r == edges + Fan(key, from, expected[..i])
    {
      r := r + [Edge(key, from, Col(expected[i]))];
      assert expected[..i + 1][..i] == expected[..i];
    }
    assert expected[..|expected|] == expected;
  }

  method FanOutAll(r: Rule, edges: seq<Edge>) returns (all: seq<Edge>)
    ensures all == edges + Fans(r.key, r.triggers, r.expected)
  {
    all := edges;
    for j := 0 to |r.triggers|
      invariant all == edges + Fans(r.key, r.triggers[..j], r.expected)
    {
      all := FanOut(r.key, Col(r.triggers[j]), r.expected, all);
      assert r.triggers[..j + 1][..j] == r.triggers[..j];
    }
    assert r.triggers[..|r.triggers|] == r.triggers;
  }

  /** A row rule fans out from the source, any other rule from each of its trigger columns. */
  method BuildEdges(rules: seq<Rule>) returns (edges: seq<Edge>)
    ensures edges == EdgesOf(rules)
  {
    edges := [];
    for i := 0 to |rules|
      invariant edges == EdgesOf(rules[..i])
    {
      var r := rules[i];
      if r.kind == RowKind {
        edges := FanOut(r.key, Start, r.expected, edges);
      } else {
        edges := FanOutAll(r, edges);
      }
      assert rules[..i + 1][..i] == rules[..i];
    }
    assert rules[..|rules|] == rules;
  }

  // ----- what the edges say -----

  lemma {:induction false} FanMembers(key: string, from: GNode, expected: seq<Id>, e: Edge)
    ensures e in Fan(key, from, expected) <==> e.key == key && e.from == from && e.to.Col? && e.to.id in expected
  {
    if expected != [] {
      var c := expected[|expected| - 1];
      assert expected == expected[..|expected| - 1] + [c];
      FanMembers(key, from, expected[..|expected| - 1], e);
    }
  }

  lemma {:induction false} FansMembers(key: string, triggers: seq<Id>, expected: seq<Id>, e: Edge)
    ensures e in Fans(key, triggers, expected) <==>
            e.key == key && e.from.Col? && e.from.id in triggers && e.to.Col? && e.to.id in expected
  {
    if triggers != [] {
      var t := triggers[|triggers| - 1];
      assert triggers == triggers[..|triggers| - 1] + [t];
      FansMembers(key, triggers[..|triggers| - 1], expected, e);
      FanMembers(key, Col(t), expected, e);
    }
  }

  ghost predicate RuleHasEdge(r: Rule, e: Edge) {
    && e.key == r.key && e.to.Col? && e.to.id in r.expected
    && if r.kind == RowKind then e.from == Start else e.from.Col? && e.from.id in r.triggers
  }

  /** The edge set is exactly trigger-to-expectation, rule by rule. */
  lemma {:induction false} EdgesAreDependencies(rules: seq<Rule>, e: Edge)
    ensures e in EdgesOf(rules) <==> exists r :: r in rules && RuleHasEdge(r, e)
  {
    if rules != [] {
      var r, rest := rules[|rules| - 1], rules[..|rules| - 1];
      assert rules == rest + [r];
      EdgesAreDependencies(rest, e);
      FanMembers(r.key, Start, r.expected, e);
      FansMembers(r.key, r.triggers, r.expected, e);
      assert e in RuleEdges(r) <==> RuleHasEdge(r, e);
    }
  }
}
