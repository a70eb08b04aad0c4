/** The depth-first search that turns a residual graph into one concrete cycle, and the two callers. */
module CycleSearches {
  import opened Common
  import opened ProcessRules
  import opened ProcessGraph

  function IndexOf(p: seq<GNode>, m: GNode): (i: nat)
    requires m in p
    ensures i < |p| && p[i] == m && m !in p[..i]
  {
    if p[0] == m then 0
    else
      assert p == [p[0]] + p[1..];
      var i := IndexOf(p[1..], m);
      assert p[..i + 1] == [p[0]] + p[1..][..i];
      i + 1
  }

  /** A back edge from the top of the stack closes the slice above its target. */
  lemma {:induction false} BackEdgeCloses(edges: seq<Edge>, p: seq<GNode>, m: GNode)
    requires p != [] && IsPath(edges, p) && m in p && HasEdge(edges, p[|p| - 1], m)
    ensures IsClosedWalk(edges, p[IndexOf(p, m)..] + [m])
  {
    var k := IndexOf(p, m);
    PathSlice(edges, p, k, |p|);
    assert p[k..|p|] == p[k..];
    PathSnoc(edges, p[k..], m);
  }

  /** Finished nodes lead, inside the residual, only to nodes that finished earlier. */
  ghost predicate Finished(edges: seq<Edge>, residual: set<GNode>, fin: map<GNode, int>) {
    && (forall a {:trigger fin[a]} :: a in fin ==> fin[a] < |fin|)
    && (forall e {:trigger SettledEdge(residual, fin, e)} :: e in edges ==> SettledEdge(residual, fin, e))
  }

  ghost predicate SettledEdge(residual: set<GNode>, fin: map<GNode, int>, e: Edge) {
    e.from in fin && e.to in residual ==> e.to in fin && fin[e.to] < fin[e.from]
  }

  lemma {:induction false} FinishNode(edges: seq<Edge>, residual: set<GNode>, fin: map<GNode, int>, n: GNode)
    requires Finished(edges, residual, fin) && n !in fin
    requires forall m :: m in Succs(edges, n) && m in residual ==> m in fin
    ensures Finished(edges, residual, fin[n := |fin|])
  {
    var fin' := fin[n := |fin|];
    assert |fin'| == |fin| + 1;
    forall e | e in edges
      ensures SettledEdge(residual, fin', e)
    {
      assert SettledEdge(residual, fin, e);
      if e.from == n { SuccsMembers(edges, n, e.to); }
    }
  }

  lemma LastIsNotEntered(edges: seq<Edge>, residual: set<GNode>, fin: map<GNode, int>, top: GNode)
    requires Finished(edges, residual, fin) && residual <= fin.Keys
    requires top in residual && forall n :: n in residual ==> fin[n] <= fin[top]
    ensures !Entered(edges, residual, top)
  {
    forall e | e in edges && e.to == top
      ensures e.from !in residual
    {
      assert SettledEdge(residual, fin, e);
    }
  }

  /** If every node of a set entered from within finished, the set is empty: something finishes last. */
  lemma AllFinishedMeansEmpty(edges: seq<Edge>, residual: set<GNode>, fin: map<GNode, int>)
    requires Fed(edges, residual) && Finished(edges, residual, fin) && residual <= fin.Keys
    ensures residual == {}
  {
    if residual != {} {
      var top := LastFinished(residual, fin);
      LastIsNotEntered(edges, residual, fin, top);
    }
  }

  lemma {:induction false} LastFinished(s: set<GNode>, fin: map<GNode, int>) returns (top: GNode)
    requires s != {} && s <= fin.Keys
    ensures top in s && forall n :: n in s ==> fin[n] <= fin[top]
    decreases |s|
  {
    var n :| n in s;
    if s == {n} {
      top := n;
    } else {
      var t := s - {n};
      assert t != {} by { assert s == t + {n}; }
      top := LastFinished(t, fin);
      if fin[top] < fin[n] { top := n; }
    }
  }

  /** The state of the search: the stack is a path, and all visited nodes off it have finished. */
  ghost predicate SearchInv(edges: seq<Edge>, residual: set<GNode>, stack: seq<GNode>, onStack: set<GNode>,
                            visited: set<GNode>, fin: map<GNode, int>) {
    && IsPath(edges, stack)
    && onStack == Elements(stack)
    && visited <= residual
    && (forall n {:trigger n in visited} :: n in visited <==> n in stack || n in fin)
    && (forall n {:trigger n in stack} :: n in stack ==> n !in fin)
    && Finished(edges, residual, fin)
  }

  lemma SearchFacts(edges: seq<Edge>, residual: set<GNode>, stack: seq<GNode>, onStack: set<GNode>,
                    visited: set<GNode>, fin: map<GNode, int>, m: GNode)
    requires SearchInv(edges, residual, stack, onStack, visited, fin)
    ensures IsPath(edges, stack) && (m in onStack <==> m in stack) && (m in visited <==> m in stack || m in fin)
  {
  }

  lemma EnterNode(edges: seq<Edge>, residual: set<GNode>, stack: seq<GNode>, onStack: set<GNode>,
                  visited: set<GNode>, fin: map<GNode, int>, n: GNode)
    requires SearchInv(edges, residual, stack, onStack, visited, fin) && n in residual && n !in visited
    requires stack != [] ==> HasEdge(edges, stack[|stack| - 1], n)
    ensures SearchInv(edges, residual, stack + [n], onStack + {n}, visited + {n}, fin)
  {
    PathSnoc(edges, stack, n);
    assert Elements(stack + [n]) == Elements(stack) + {n};
  }

  lemma {:induction false} LeaveNode(edges: seq<Edge>, residual: set<GNode>, stack: seq<GNode>, onStack: set<GNode>,
                  visited: set<GNode>, fin: map<GNode, int>, n: GNode)
    requires SearchInv(edges, residual, stack + [n], onStack, visited, fin) && n !in stack
    requires forall m :: m in Succs(edges, n) && m in residual ==> m in fin
    ensures n !in fin && SearchInv(edges, residual, stack, onStack - {n}, visited, fin[n := |fin|])
  {
    assert n in stack + [n];
    FinishNode(edges, residual, fin, n);
    PathSlice(edges, stack + [n], 0, |stack|);
    assert (stack + [n])[0..|stack|] == stack;
    assert Elements(stack + [n]) - {n} == Elements(stack);
    forall k | k in stack
      ensures k !in fin
    {
      assert k in stack + [n];
    }
  }

  class Search {
    const edges: seq<Edge>
    const adj: map<GNode, seq<GNode>>
    const residual: set<GNode>
    var stack: seq<GNode>
    var onStack: set<GNode>
    var visited: set<GNode>
    ghost var fin: map<GNode, int>

    ghost predicate Valid()
      reads this
    {
      AdjTable(edges, adj) && SearchInv(edges, residual, stack, onStack, visited, fin)
    }

    constructor (edges: seq<Edge>, adj: map<GNode, seq<GNode>>, residual: set<GNode>)
      requires AdjTable(edges, adj)
      ensures Valid() && stack == [] && this.edges == edges && this.residual == residual
    {
      this.edges, this.adj, this.residual := edges, adj, residual;
      stack, onStack, visited, fin := [], {}, {}, map[];
    }

    /** Explore from `n`; either a cycle is met, or `n` finishes and the stack is as before. */
    method Dfs(n: GNode) returns (found: Option<seq<GNode>>)
      requires Valid() && n in residual && n !in visited
      requires stack != [] ==> HasEdge(edges, stack[|stack| - 1], n)
      modifies this
      ensures found.Some? ==> IsClosedWalk(edges, found.value)
      ensures found.None? ==> Valid() && stack == old(stack) && old(visited) <= visited
      ensures found.None? ==> n in fin && old(fin.Keys) <= fin.Keys
      decreases residual - visited, 0
    {
      ghost var before := stack;
      EnterNode(edges, residual, stack, onStack, visited, fin, n);
      visited := visited + {n};
      stack := stack + [n];
      onStack := onStack + {n};
      found := VisitSuccs(n, AdjOf(adj, n));
      if found.Some? {
        return found;
      }
      LeaveNode(edges, residual, before, onStack, visited, fin, n);
      fin := fin[n := |fin|];
      stack := stack[..|stack| - 1];
      onStack := onStack - {n};
      assert stack == before;
    }

    /** The loop over the successors of the node on top of the stack. */
    method VisitSuccs(n: GNode, succs: seq<GNode>) returns (found: Option<seq<GNode>>)
      requires Valid() && succs == Succs(edges, n)
      requires stack != [] && stack[|stack| - 1] == n
      modifies this
      ensures found.Some? ==> IsClosedWalk(edges, found.value)
      ensures found.None? ==> Valid() && stack == old(stack) && old(visited) <= visited
      ensures found.None? ==> old(fin.Keys) <= fin.Keys && forall m :: m in succs && m in residual ==> m in fin
      decreases residual - visited, 1
    {
      hide SearchInv, AdjTable, IsPath;
      for j := 0 to |succs|
        invariant Valid() && stack == old(stack) && old(visited) <= visited && old(fin.Keys) <= fin.Keys
        invariant forall i :: 0 <= i < j && succs[i] in residual ==> succs[i] in fin
      {
        var m := succs[j];
        SearchFacts(edges, residual, stack, onStack, visited, fin, m);
        if m in residual {
          assert m in succs;
          SuccsMembers(edges, n, m);
          if m in onStack {
            BackEdgeCloses(edges, stack, m);
            return Some(stack[IndexOf(stack, m)..] + [m]);
          }
          if m !in visited {
            found := Dfs(m);
            if found.Some? {
              return found;
            }
          }
        }
      }
      found := None;
    }
  }

  /** Search every residual node in any order.  Nothing is found only when there is nothing to search. */
  method SearchResidual(edges: seq<Edge>, adj: map<GNode, seq<GNode>>, residual: set<GNode>)
    returns (found: Option<seq<GNode>>)
    requires AdjTable(edges, adj) && Fed(edges, residual)
    ensures found.None? <==> residual == {}
    ensures found.Some? ==> IsClosedWalk(edges, found.value)
  {
    var search := new Search(edges, adj, residual);
    var todo := residual;
    while todo != {}
      invariant todo <= residual && search.Valid() && search.stack == []
      invariant search.edges == edges && search.residual == residual
      invariant residual - todo <= search.fin.Keys
      decreases todo
    {
      var start :| start in todo;
      if start !in search.visited {
        found := search.Dfs(start);
        if found.Some? {
          return found;
        }
      }
      todo := todo - {start};
    }
    AllFinishedMeansEmpty(edges, residual, search.fin);
    found := None;
  }

  /** A closed walk if there is one, else nothing. */
  method FindCycle(edges: seq<Edge>) returns (cycle: Option<seq<GNode>>)
    ensures cycle.None? <==> Acyclic(edges)
    ensures cycle.Some? ==> IsClosedWalk(edges, cycle.value)
  {
    var adj, names := Adjacency(edges);
    var removed, residual := Kahn(edges, adj, names);
    if removed == |names| {
      return None;
    }
    cycle := SearchResidual(edges, adj, residual);
  }

  method WouldCreateCycle(rules: seq<Rule>, newRule: Rule) returns (r: bool)
    ensures r <==> !Acyclic(EdgesOf(rules + [newRule]))
  {
    var edges := BuildEdges(rules + [newRule]);
    var cycle := FindCycle(edges);
    r := cycle.Some?;
  }

  // ----- reachability from the source -----

  ghost predicate Reachable(edges: seq<Edge>, m: GNode) {
    exists w :: IsWalk(edges, w) && w[0] == Start && w[|w| - 1] == m
  }

  /** Rules only ever wait for columns, so START is in nobody's reach. */
  lemma {:induction false} StartIsNeverReached(rules: seq<Rule>)
    ensures !Reachable(EdgesOf(rules), Start)
  {
    var edges := EdgesOf(rules);
    forall w | IsWalk(edges, w)
      ensures w[|w| - 1] != Start
    {
      assert PathStep(edges, w, |w| - 2);
      var e :| e in edges && e.from == w[|w| - 2] && e.to == w[|w| - 1];
      EdgesAreDependencies(rules, e);
    }
  }

  lemma WalkExtends(edges: seq<Edge>, n: GNode, m: GNode)
    requires (n == Start || Reachable(edges, n)) && HasEdge(edges, n, m)
    ensures Reachable(edges, m)
  {
    var v := [Start];
    if n != Start {
      v :| IsWalk(edges, v) && v[0] == Start && v[|v| - 1] == n;
    }
    PathSnoc(edges, v, m);
    assert IsWalk(edges, v + [m]);
  }

  lemma {:induction false} WalkStaysInside(edges: seq<Edge>, seen: set<GNode>, w: seq<GNode>)
    requires Expanded(edges, seen, [])
    requires IsWalk(edges, w) && w[0] == Start
    ensures w[|w| - 1] in seen
  {
    assert PathStep(edges, w, |w| - 2);
    if |w| > 2 {
      PathSlice(edges, w, 0, |w| - 1);
      WalkStaysInside(edges, seen, w[0..|w| - 1]);
    }
  }

  /** Nodes whose successors have all been recorded. */
  ghost predicate Expanded(edges: seq<Edge>, seen: set<GNode>, frontier: seq<GNode>) {
    forall a, b {:trigger HasEdge(edges, a, b)} ::
      (a == Start || a in seen) && a !in frontier && HasEdge(edges, a, b) ==> b in seen
  }

  method ReachableFromStart(edges: seq<Edge>) returns (seen: set<GNode>)
    ensures forall m :: m in seen <==> Reachable(edges, m)
  {
    var adj, names := Adjacency(edges);
    seen := {};
    var frontier := [Start];
    while frontier != []
      invariant seen <= Nodes(edges)
      invariant forall m :: m in seen ==> Reachable(edges, m)
      invariant forall n :: n in frontier ==> n == Start || n in seen
      invariant Expanded(edges, seen, frontier)
      decreases Nodes(edges) - seen, |frontier|
    {
      var n := frontier[|frontier| - 1];
      seen, frontier := ExpandFrontier(edges, AdjOf(adj, n), n, seen, frontier[..|frontier| - 1]);
    }
    forall m | Reachable(edges, m)
      ensures m in seen
    {
      var w :| IsWalk(edges, w) && w[0] == Start && w[|w| - 1] == m;
      WalkStaysInside(edges, seen, w);
    }
  }

  method ExpandFrontier(edges: seq<Edge>, succs: seq<GNode>, n: GNode, seen0: set<GNode>, rest: seq<GNode>)
    returns (seen: set<GNode>, frontier: seq<GNode>)
    requires succs == Succs(edges, n) && (n == Start || n in seen0)
    requires seen0 <= Nodes(edges) && (forall m :: m in seen0 ==> Reachable(edges, m))
    requires forall k :: k in rest ==> k == Start || k in seen0
    requires Expanded(edges, seen0, rest + [n])
    ensures seen0 <= seen <= Nodes(edges) && (forall m :: m in seen ==> Reachable(edges, m))
    ensures forall k :: k in frontier ==> k == Start || k in seen
    ensures Expanded(edges, seen, frontier)
    ensures seen == seen0 ==> frontier == rest
  {
    seen, frontier := seen0, rest;
    for j := 0 to |succs|
      invariant seen0 <= seen <= Nodes(edges)
      invariant forall m :: m in seen ==> Reachable(edges, m)
      invariant forall k :: k in frontier <==> k in rest || (k in seen && k !in seen0)
      invariant forall i :: 0 <= i < j ==> succs[i] in seen
      invariant seen == seen0 ==> frontier == rest
    {
      var m := succs[j];
      assert m in succs;
      SuccsMembers(edges, n, m);
      if m !in seen {
        WalkExtends(edges, n, m);
        var e :| e in edges && e.from == n && e.to == m;
        NodesMembers(edges, m);
        seen := seen + {m};
        frontier := frontier + [m];
      }
    }
    forall a, b | (a == Start || a in seen) && a !in frontier && HasEdge(edges, a, b)
      ensures b in seen
    {
      if a == n { SuccsMembers(edges, n, b); }
    }
  }
}
