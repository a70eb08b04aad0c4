/** Cycle detection and reachability over the derived edge set. */
module ProcessGraph {
  import opened Common
  import opened ProcessRules

  // ----- walks -----

  ghost predicate HasEdge(edges: seq<Edge>, a: GNode, b: GNode) {
    exists e :: e in edges && e.from == a && e.to == b
  }

  /** Consecutive nodes are joined by edges. */
  ghost predicate IsPath(edges: seq<Edge>, p: seq<GNode>) {
    forall i {:trigger PathStep(edges, p, i)} :: 0 <= i < |p| - 1 ==> PathStep(edges, p, i)
  }

  ghost predicate PathStep(edges: seq<Edge>, p: seq<GNode>, i: int)
    requires 0 <= i < |p| - 1
  {
    HasEdge(edges, p[i], p[i + 1])
  }

  /** A walk along at least one edge. */
  ghost predicate IsWalk(edges: seq<Edge>, w: seq<GNode>) {
    |w| >= 2 && IsPath(edges, w)
  }

  lemma PathSnoc(edges: seq<Edge>, p: seq<GNode>, n: GNode)
    requires IsPath(edges, p) && (p != [] ==> HasEdge(edges, p[|p| - 1], n))
    ensures IsPath(edges, p + [n])
  {
    forall i | 0 <= i < |p|
      ensures PathStep(edges, p + [n], i)
    {
      if i < |p| - 1 { assert PathStep(edges, p, i); }
    }
  }

  lemma PathSlice(edges: seq<Edge>, p: seq<GNode>, lo: nat, hi: nat)
    requires IsPath(edges, p) && lo <= hi <= |p|
    ensures IsPath(edges, p[lo..hi])
  {
    forall i | 0 <= i < hi - lo - 1
      ensures PathStep(edges, p[lo..hi], i)
    {
      assert PathStep(edges, p, lo + i);
    }
  }

  ghost predicate IsClosedWalk(edges: seq<Edge>, w: seq<GNode>) {
    IsWalk(edges, w) && w[0] == w[|w| - 1]
  }

  ghost predicate Acyclic(edges: seq<Edge>) {
    forall w :: !IsClosedWalk(edges, w)
  }

  ghost predicate Ranked(edges: seq<Edge>, rank: map<GNode, int>) {
    forall e :: e in edges ==> e.from in rank && e.to in rank && rank[e.from] < rank[e.to]
  }

  lemma {:induction false} WalkClimbs(edges: seq<Edge>, rank: map<GNode, int>, w: seq<GNode>)
    requires Ranked(edges, rank) && IsWalk(edges, w)
    ensures w[0] in rank && w[|w| - 1] in rank && rank[w[0]] < rank[w[|w| - 1]]
  {
    assert PathStep(edges, w, |w| - 2);
    if |w| > 2 {
      PathSlice(edges, w, 0, |w| - 1);
      WalkClimbs(edges, rank, w[0..|w| - 1]);
    }
  }

  lemma RankedIsAcyclic(edges: seq<Edge>, rank: map<GNode, int>)
    requires Ranked(edges, rank)
    ensures Acyclic(edges)
  {
    forall w | IsWalk(edges, w)
      ensures w[0] != w[|w| - 1]
    {
      WalkClimbs(edges, rank, w);
    }
  }

  // ----- adjacency and in-degrees -----

  function Succs(edges: seq<Edge>, n: GNode): seq<GNode> {
    if edges == [] then []
    else
      var e := edges[|edges| - 1];
      Succs(edges[..|edges| - 1], n) + (if e.from == n then [e.to] else [])
  }

  /** How many edges enter `m` from outside `done`. */
  function EntryCount(edges: seq<Edge>, m: GNode, done: set<GNode>): nat {
    if edges == [] then 0
    else
      var e := edges[|edges| - 1];
      EntryCount(edges[..|edges| - 1], m, done) + (if e.to == m && e.from !in done then 1 else 0)
  }

  function Nodes(edges: seq<Edge>): set<GNode> {
    if edges == [] then {} else Nodes(edges[..|edges| - 1]) + {edges[|edges| - 1].from, edges[|edges| - 1].to}
  }

  lemma {:induction false} NodesMembers(edges: seq<Edge>, n: GNode)
    ensures n in Nodes(edges) <==> exists e :: e in edges && (e.from == n || e.to == n)
  {
    if edges != [] {
      NodesMembers(edges[..|edges| - 1], n);
      assert edges == edges[..|edges| - 1] + [edges[|edges| - 1]];
    }
  }

  function AdjOf(adj: map<GNode, seq<GNode>>, n: GNode): seq<GNode> {
    if n in adj then adj[n] else []
  }

  lemma {:induction false} SuccsMembers(edges: seq<Edge>, n: GNode, m: GNode)
    ensures m in Succs(edges, n) <==> HasEdge(edges, n, m)
  {
    if edges != [] {
      var e, rest := edges[|edges| - 1], edges[..|edges| - 1];
      assert edges == rest + [e];
      SuccsMembers(rest, n, m);
    }
  }

  lemma {:induction false} EntryWitness(edges: seq<Edge>, m: GNode, done: set<GNode>)
    ensures EntryCount(edges, m, done) > 0 <==> exists e :: e in edges && e.to == m && e.from !in done
  {
    if edges != [] {
      var e, rest := edges[|edges| - 1], edges[..|edges| - 1];
      assert edges == rest + [e];
      EntryWitness(rest, m, done);
    }
  }

  /** Finishing `n` removes from each entry count the number of edges `n` sends there. */
  lemma {:induction false} EntryDrops(edges: seq<Edge>, n: GNode, m: GNode, done: set<GNode>)
    requires n !in done
    ensures EntryCount(edges, m, done) == EntryCount(edges, m, done + {n}) + multiset(Succs(edges, n))[m]
  {
    if edges != [] {
      EntryDrops(edges[..|edges| - 1], n, m, done);
    }
  }

  lemma EdgesSnoc(edges: seq<Edge>, i: nat)
    requires i < |edges|
    ensures Nodes(edges[..i + 1]) == Nodes(edges[..i]) + {edges[i].from, edges[i].to}
    ensures forall n {:trigger Succs(edges[..i + 1], n)} ::
              Succs(edges[..i + 1], n) == Succs(edges[..i], n) + (if edges[i].from == n then [edges[i].to] else [])
  {
    assert edges[..i + 1][..i] == edges[..i];
  }

  /** The table built so far: adjacency lists, and its keys in insertion order. */
  ghost predicate Table(edges: seq<Edge>, adj: map<GNode, seq<GNode>>, names: seq<GNode>) {
    && AdjTable(edges, adj) && Listing(Nodes(edges), names)
  }

  ghost predicate AdjTable(edges: seq<Edge>, adj: map<GNode, seq<GNode>>) {
    forall n {:trigger AdjOf(adj, n)} :: AdjOf(adj, n) == Succs(edges, n)
  }

  ghost predicate Listing(all: set<GNode>, names: seq<GNode>) {
    NoDup(names) && forall n {:trigger n in names} :: n in names <==> n in all
  }

  function AddName(names: seq<GNode>, n: GNode): seq<GNode> {
    if n in names then names else names + [n]
  }

  lemma {:induction false} AddNameKeeps(names: seq<GNode>, n: GNode)
    requires NoDup(names)
    ensures NoDup(AddName(names, n))
    ensures forall k :: k in AddName(names, n) <==> k in names || k == n
  {
    if n !in names { NoDupSnoc(names, n); }
  }

  lemma AdjStep(edges: seq<Edge>, i: nat, adj: map<GNode, seq<GNode>>)
    requires i < |edges| && AdjTable(edges[..i], adj)
    ensures var e := edges[i];
            var adj1 := adj[e.from := AdjOf(adj, e.from) + [e.to]];
            AdjTable(edges[..i + 1], adj1[e.to := AdjOf(adj1, e.to)])
  {
    var e := edges[i];
    var adj1 := adj[e.from := AdjOf(adj, e.from) + [e.to]];
    var adj2 := adj1[e.to := AdjOf(adj1, e.to)];
    EdgesSnoc(edges, i);
    forall n
      ensures AdjOf(adj2, n) == Succs(edges[..i + 1], n)
    {
      assert AdjOf(adj, n) == Succs(edges[..i], n);
    }
  }

  method Adjacency(edges: seq<Edge>) returns (adj: map<GNode, seq<GNode>>, names: seq<GNode>)
    ensures Table(edges, adj, names)
  {
    adj, names := map[], [];
    for i := 0 to |edges|
      invariant Table(edges[..i], adj, names)
    {
      var e := edges[i];
      AdjStep(edges, i, adj);
      EdgesSnoc(edges, i);
      AddNameKeeps(names, e.from);
      AddNameKeeps(AddName(names, e.from), e.to);
      adj := adj[e.from := AdjOf(adj, e.from) + [e.to]];
      adj := adj[e.to := AdjOf(adj, e.to)];
      names := AddName(AddName(names, e.from), e.to);
    }
    assert edges[..|edges|] == edges;
  }

  lemma {:induction false} CountOneMore(edges: seq<Edge>, i: nat, n: GNode)
    requires i < |edges|
    ensures EntryCount(edges[..i + 1], n, {}) == EntryCount(edges[..i], n, {}) + (if edges[i].to == n then 1 else 0)
  {
    assert edges[..i + 1][..i] == edges[..i];
  }

  method InDegrees(edges: seq<Edge>, names: seq<GNode>) returns (indeg: map<GNode, int>)
    requires Listing(Nodes(edges), names)
    ensures indeg.Keys == Nodes(edges)
    ensures forall n :: n in indeg ==> indeg[n] == EntryCount(edges, n, {})
  {
    indeg := map n | n in Nodes(edges) :: 0;
    for i := 0 to |edges|
      invariant indeg.Keys == Nodes(edges)
      invariant forall n :: n in indeg ==> indeg[n] == EntryCount(edges[..i], n, {})
    {
      hide EntryCount, Nodes;
      var e := edges[i];
      NodesMembers(edges, e.to);
      forall n
        ensures EntryCount(edges[..i + 1], n, {}) == EntryCount(edges[..i], n, {}) + (if e.to == n then 1 else 0)
      {
        CountOneMore(edges, i, n);
      }
      indeg := indeg[e.to := indeg[e.to] + 1];
    }
    assert edges[..|edges|] == edges;
  }

  // ----- Kahn's algorithm -----

  ghost predicate RankedDone(edges: seq<Edge>, done: set<GNode>, rank: map<GNode, int>) {
    && rank.Keys == done
    && (forall n :: n in done ==> rank[n] < |done|)
    && (forall e :: e in edges && e.to in done ==> e.from in done && rank[e.from] < rank[e.to])
  }

  /** Counters while a node's successors are being visited: `left` are still to come. */
  ghost predicate Stripping(edges: seq<Edge>, indeg: map<GNode, int>, queue: seq<GNode>, done: set<GNode>,
                            left: multiset<GNode>) {
    && indeg.Keys == Nodes(edges)
    && NoDup(queue)
    && (forall n {:trigger Counted(edges, indeg, queue, done, left, n)} :: Counted(edges, indeg, queue, done, left, n))
  }

  ghost predicate Counted(edges: seq<Edge>, indeg: map<GNode, int>, queue: seq<GNode>, done: set<GNode>,
                          left: multiset<GNode>, n: GNode) {
    && (n in queue ==> n !in done)
    && (n in done || n in queue <==> n in indeg && indeg[n] == 0)
    && (n in indeg ==> indeg[n] == EntryCount(edges, n, done) + left[n])
    && (n in left ==> n in indeg)
  }

  lemma {:induction false} StripStart(edges: seq<Edge>, indeg: map<GNode, int>, rest: seq<GNode>, n: GNode,
                                      done: set<GNode>)
    requires Stripping(edges, indeg, rest + [n], done, multiset{})
    ensures n !in done && EntryCount(edges, n, done) == 0 && n in Nodes(edges)
    ensures Stripping(edges, indeg, rest, done + {n}, multiset(Succs(edges, n)))
  {
    var queue := rest + [n];
    assert queue[..|queue| - 1] == rest && n in queue && NoDup(rest) && n !in rest;
    assert Counted(edges, indeg, queue, done, multiset{}, n);
    forall m
      ensures Counted(edges, indeg, rest, done + {n}, multiset(Succs(edges, n)), m)
    {
      assert Counted(edges, indeg, queue, done, multiset{}, m);
      EntryDrops(edges, n, m, done);
      SuccsMembers(edges, n, m);
      NodesMembers(edges, m);
    }
  }

  lemma {:induction false} RankPopped(edges: seq<Edge>, n: GNode, done: set<GNode>, rank: map<GNode, int>)
    requires RankedDone(edges, done, rank) && n !in done && EntryCount(edges, n, done) == 0
    ensures RankedDone(edges, done + {n}, rank[n := |done|])
  {
    EntryWitness(edges, n, done);
  }

  method VisitSuccessors(edges: seq<Edge>, succs: seq<GNode>, indeg0: map<GNode, int>, queue0: seq<GNode>,
                         ghost done: set<GNode>)
    returns (indeg: map<GNode, int>, queue: seq<GNode>)
    requires Stripping(edges, indeg0, queue0, done, multiset(succs))
    ensures Stripping(edges, indeg, queue, done, multiset{})
  {
    indeg, queue := indeg0, queue0;
    assert succs[0..] == succs;
    for j := 0 to |succs|
      invariant Stripping(edges, indeg, queue, done, multiset(succs[j..]))
    {
      var m := succs[j];
      assert succs[j..] == [m] + succs[j + 1..];
      assert multiset(succs[j..]) == multiset{m} + multiset(succs[j + 1..]);
      StripOne(edges, indeg, queue, done, m, multiset(succs[j + 1..]));
      indeg := indeg[m := indeg[m] - 1];
      if indeg[m] == 0 {
        queue := queue + [m];
      }
    }
  }

  lemma StripOne(edges: seq<Edge>, indeg: map<GNode, int>, queue: seq<GNode>, done: set<GNode>, m: GNode,
                 left: multiset<GNode>)
    requires Stripping(edges, indeg, queue, done, multiset{m} + left)
    ensures m in indeg
    ensures var less := indeg[m := indeg[m] - 1];
            Stripping(edges, less, if less[m] == 0 then queue + [m] else queue, done, left)
  {
    var all := multiset{m} + left;
    assert all[m] == left[m] + 1 && m in all;
    assert Counted(edges, indeg, queue, done, all, m);
    NoDupSnoc(queue, m);
    var less := indeg[m := indeg[m] - 1];
    var next := if less[m] == 0 then queue + [m] else queue;
    forall n
      ensures Counted(edges, less, next, done, left, n)
    {
      assert Counted(edges, indeg, queue, done, all, n);
      assert n != m ==> all[n] == left[n];
    }
  }

  method Unentered(edges: seq<Edge>, names: seq<GNode>, indeg: map<GNode, int>) returns (queue: seq<GNode>)
    requires Listing(Nodes(edges), names)
    requires indeg.Keys == Nodes(edges)
    requires forall n :: n in indeg ==> indeg[n] == EntryCount(edges, n, {})
    ensures Stripping(edges, indeg, queue, {}, multiset{})
  {
    queue := [];
    for i := 0 to |names|
      invariant NoDup(queue)
      invariant forall n :: n in queue <==> n in names[..i] && n in indeg && indeg[n] == 0
    {
      assert names[i] in names;
      assert names[..i + 1] == names[..i] + [names[i]];
      NoDupAway(names, i);
      if indeg[names[i]] == 0 {
        NoDupSnoc(queue, names[i]);
        queue := queue + [names[i]];
      }
    }
    assert names[..|names|] == names;
    forall n
      ensures Counted(edges, indeg, queue, {}, multiset{}, n)
    {
      assert n in names <==> n in Nodes(edges);
    }
  }

  /**
   * Kahn's algorithm: strip nodes nothing unstripped points to.  What cannot be stripped is
   * `residual`; every node of it still has an edge coming from within it.
   */
  method Kahn(edges: seq<Edge>, adj: map<GNode, seq<GNode>>, names: seq<GNode>)
    returns (removed: nat, residual: set<GNode>)
    requires Table(edges, adj, names)
    ensures residual <= Nodes(edges)
    ensures removed == |names| <==> residual == {}
    ensures residual == {} ==> Acyclic(edges)
    ensures Fed(edges, residual)
  {
    var indeg := InDegrees(edges, names);
    var queue := Unentered(edges, names, indeg);
    removed := 0;
    ghost var done: set<GNode>, rank: map<GNode, int> := {}, map[];
    hide Stripping, RankedDone, Table, NoDup;
    while queue != []
      invariant Stripping(edges, indeg, queue, done, multiset{})
      invariant RankedDone(edges, done, rank) && removed == |done|
      decreases Nodes(edges) - done
    {
      var n, rest := queue[|queue| - 1], queue[..|queue| - 1];
      assert queue == rest + [n];
      StripStart(edges, indeg, rest, n, done);
      RankPopped(edges, n, done, rank);
      rank, done, removed := rank[n := |done|], done + {n}, removed + 1;
      indeg, queue := VisitSuccessors(edges, AdjOf(adj, n), indeg, rest, done);
    }
    residual := set n | n in indeg && indeg[n] > 0;
    KahnEnds(edges, indeg, done, rank, residual, names);
  }

  /** Every node of `s` is entered from within `s`. */
  ghost predicate Fed(edges: seq<Edge>, s: set<GNode>) {
    forall n {:trigger Entered(edges, s, n)} :: n in s ==> Entered(edges, s, n)
  }

  ghost predicate Entered(edges: seq<Edge>, s: set<GNode>, n: GNode) {
    exists e :: e in edges && e.to == n && e.from in s
  }

  lemma {:induction false} NoDupAway(names: seq<GNode>, i: nat)
    requires NoDup(names) && i < |names|
    ensures names[i] !in names[..i]
  {
    if names[i] in names[..i] {
      var j :| 0 <= j < i && names[j] == names[i];
      NoDupAt(names, j, i);
    }
  }

  lemma {:induction false} KahnCounts(edges: seq<Edge>, indeg: map<GNode, int>, done: set<GNode>,
                                      residual: set<GNode>, names: seq<GNode>)
    requires Stripping(edges, indeg, [], done, multiset{})
    requires residual == set n | n in indeg && indeg[n] > 0
    requires Listing(Nodes(edges), names)
    ensures done !! residual && done + residual == Nodes(edges)
    ensures |done| == |names| <==> residual == {}
  {
    assert Elements(names) == Nodes(edges);
    NoDupCard(names);
    forall n
      ensures n in Nodes(edges) <==> n in done || n in residual
      ensures !(n in done && n in residual)
    {
      assert Counted(edges, indeg, [], done, multiset{}, n);
    }
    assert |done + residual| == |done| + |residual|;
  }

  lemma {:induction false} KahnEnds(edges: seq<Edge>, indeg: map<GNode, int>, done: set<GNode>, rank: map<GNode, int>,
                 residual: set<GNode>, names: seq<GNode>)
    requires Stripping(edges, indeg, [], done, multiset{}) && RankedDone(edges, done, rank)
    requires residual == set n | n in indeg && indeg[n] > 0
    requires Listing(Nodes(edges), names)
    ensures residual <= Nodes(edges)
    ensures |done| == |names| <==> residual == {}
    ensures residual == {} ==> Acyclic(edges)
    ensures Fed(edges, residual)
  {
    KahnCounts(edges, indeg, done, residual, names);
    ResidualIsFed(edges, indeg, done, residual);
    if residual == {} {
      assert done == Nodes(edges);
      forall e | e in edges
        ensures e.to in done && e.from in done
      {
        NodesMembers(edges, e.to);
        NodesMembers(edges, e.from);
      }
      RankedIsAcyclic(edges, rank);
    }
  }

  lemma {:induction false} ResidualIsFed(edges: seq<Edge>, indeg: map<GNode, int>, done: set<GNode>,
                                         residual: set<GNode>)
    requires Stripping(edges, indeg, [], done, multiset{})
    requires residual == set n | n in indeg && indeg[n] > 0
    requires done + residual == Nodes(edges)
    ensures Fed(edges, residual)
  {
    forall n | n in residual
      ensures Entered(edges, residual, n)
    {
      EntryWitness(edges, n, done);
      assert Counted(edges, indeg, [], done, multiset{}, n);
      var e :| e in edges && e.to == n && e.from !in done;
      NodesMembers(edges, e.from);
    }
  }
}
