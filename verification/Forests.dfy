/**
 * A sheet as the nodes it holds in insertion order, each with an optional parent.
 *
 * `depth` is the witness that the parent links form a forest: it is 0 at a root and one more
 * than the parent's depth elsewhere, so it exists exactly when no chain of parents loops.
 */
module Forests {
  import opened Common

  datatype RawForest = RawForest(order: seq<Id>, par: map<Id, Option<Id>>, depth: map<Id, nat>) {
    ghost predicate Valid() {
      && NoDup(order)
      && (forall k :: k in par <==> k in order)
      && depth.Keys == par.Keys
      && forall k {:trigger LinkOk(k)} :: k in par ==> LinkOk(k)
    }

    ghost predicate LinkOk(k: Id)
      requires k in par && k in depth
    {
      match par[k]
      case None => depth[k] == 0
      case Some(p) => p in par && p in depth && depth[k] == depth[p] + 1
    }
  }

  type Forest = f: RawForest | f.Valid() witness RawForest([], map[], map[])

  // ----- children, ancestors, subtrees -----

  /** The nodes of `order` hanging from `p`, in insertion order (`None`: the roots). */
  function KidsOf(order: seq<Id>, par: map<Id, Option<Id>>, p: Option<Id>): seq<Id> {
    if order == [] then []
    else
      var k := order[|order| - 1];
      KidsOf(order[..|order| - 1], par, p) + (if k in par && par[k] == p then [k] else [])
  }

  function Kids(f: RawForest, p: Option<Id>): seq<Id> {
    KidsOf(f.order, f.par, p)
  }

  lemma {:induction false} KidsOfMembers(order: seq<Id>, par: map<Id, Option<Id>>, p: Option<Id>)
    requires NoDup(order)
    ensures forall k :: k in KidsOf(order, par, p) <==> k in order && k in par && par[k] == p
    ensures NoDup(KidsOf(order, par, p))
  {
    if order != [] {
      var k, rest := order[|order| - 1], order[..|order| - 1];
      assert order == rest + [k];
      KidsOfMembers(rest, par, p);
      assert k !in KidsOf(rest, par, p);
      if k in par && par[k] == p {
        NoDupSnoc(KidsOf(rest, par, p), k);
        assert KidsOf(order, par, p) == KidsOf(rest, par, p) + [k];
      } else {
        assert KidsOf(order, par, p) == KidsOf(rest, par, p);
      }
    }
  }

  lemma KidsMembers(f: Forest, p: Option<Id>)
    ensures forall k :: k in Kids(f, p) <==> k in f.par && f.par[k] == p
    ensures NoDup(Kids(f, p))
  {
    KidsOfMembers(f.order, f.par, p);
  }

  /** `m` is `k` or one of the nodes met by following parent links up from `k`. */
  predicate Anc(f: Forest, m: Id, k: Id)
    requires k in f.par
    decreases f.depth[k]
  {
    m == k || (f.par[k].Some? && assert f.LinkOk(k); Anc(f, m, f.par[k].value))
  }

  /** The chain from `k` up to its root, nearest first. */
  function ParentChain(f: Forest, k: Id): seq<Id>
    requires k in f.par
    decreases f.depth[k]
  {
    assert f.LinkOk(k);
    [k] + match f.par[k] case None => [] case Some(p) => ParentChain(f, p)
  }

  function Sub(f: Forest, n: Id): set<Id> {
    set k | k in f.par && Anc(f, n, k)
  }

  /** The nodes strictly below `p`; the whole sheet for `None`. */
  ghost function Under(f: Forest, p: Option<Id>): set<Id> {
    match p case None => f.par.Keys case Some(n) => Sub(f, n) - {n}
  }

  predicate AtNode(f: Forest, p: Option<Id>) {
    p.Some? ==> p.value in f.par
  }

  lemma {:induction false} AncDepth(f: Forest, m: Id, k: Id)
    requires k in f.par && Anc(f, m, k)
    ensures m in f.par && f.depth[m] <= f.depth[k]
    ensures f.depth[m] == f.depth[k] ==> m == k
    decreases f.depth[k]
  {
    assert f.LinkOk(k);
    if m != k {
      AncDepth(f, m, f.par[k].value);
    }
  }

  lemma {:induction false} AncTrans(f: Forest, a: Id, m: Id, k: Id)
    requires k in f.par && m in f.par && Anc(f, a, m) && Anc(f, m, k)
    ensures Anc(f, a, k)
    decreases f.depth[k]
  {
    assert f.LinkOk(k);
    if m != k {
      AncTrans(f, a, m, f.par[k].value);
    }
  }

  /** Two ancestors of one node lie on one chain. */
  lemma {:induction false} AncLinear(f: Forest, a: Id, b: Id, k: Id)
    requires k in f.par && a in f.par && b in f.par && Anc(f, a, k) && Anc(f, b, k)
    ensures Anc(f, a, b) || Anc(f, b, a)
    decreases f.depth[k]
  {
    assert f.LinkOk(k);
    if a != k && b != k {
      AncLinear(f, a, b, f.par[k].value);
    }
  }

  /** A proper descendant is reached through exactly one child. */
  lemma {:induction false} KidToward(f: Forest, m: Id, k: Id) returns (c: Id)
    requires k in f.par && m != k && Anc(f, m, k)
    ensures c in f.par && f.par[c] == Some(m) && Anc(f, c, k)
    decreases f.depth[k]
  {
    assert f.LinkOk(k);
    var p := f.par[k].value;
    if p == m {
      c := k;
    } else {
      c := KidToward(f, m, p);
    }
  }

  lemma {:induction false} RootAbove(f: Forest, k: Id) returns (c: Id)
    requires k in f.par
    ensures c in f.par && f.par[c] == None && Anc(f, c, k)
    decreases f.depth[k]
  {
    assert f.LinkOk(k);
    match f.par[k] {
      case None => c := k;
      case Some(p) => c := RootAbove(f, p);
    }
  }

  /** The child of `p` whose subtree holds `k`. */
  lemma KidAbove(f: Forest, p: Option<Id>, k: Id) returns (c: Id)
    requires k in Under(f, p)
    ensures c in Kids(f, p) && c in f.par && k in f.par && Anc(f, c, k)
  {
    KidsMembers(f, p);
    match p {
      case None => c := RootAbove(f, k);
      case Some(n) => c := KidToward(f, n, k);
    }
  }

  lemma {:induction false} AncKid(f: Forest, p: Id, c: Id)
    requires c in f.par && f.par[c] == Some(p)
    ensures p in f.par && Anc(f, p, c) && p != c
    ensures f.depth[c] == f.depth[p] + 1
  {
    assert f.LinkOk(c);
    assert Anc(f, p, p);
  }

  /** Going down one link strictly shrinks what lies below: the measure of every descent. */
  lemma UnderKid(f: Forest, p: Option<Id>, c: Id)
    requires AtNode(f, p) && c in Kids(f, p)
    ensures c in f.par && f.par[c] == p
    ensures c in Under(f, p) && Sub(f, c) <= Under(f, p)
    ensures Under(f, Some(c)) < Under(f, p)
    ensures Under(f, Some(c)) + {c} == Sub(f, c) && c !in Under(f, Some(c))
  {
    KidsMembers(f, p);
    assert Anc(f, c, c);
    if p.Some? {
      var n := p.value;
      AncKid(f, n, c);
      forall k | k in Sub(f, c)
        ensures k in Under(f, p)
      {
        AncTrans(f, n, c, k);
        if k == n {
          AncDepth(f, c, n);
        }
      }
    }
  }

  lemma {:induction false} SiblingsDisjoint(f: Forest, p: Option<Id>, a: Id, b: Id)
    requires a in f.par && b in f.par && f.par[a] == p && f.par[b] == p && a != b
    ensures Sub(f, a) !! Sub(f, b)
    ensures !Anc(f, a, b) && !Anc(f, b, a)
  {
    assert f.LinkOk(a) && f.LinkOk(b);
    if Anc(f, a, b) { AncDepth(f, a, b); }
    if Anc(f, b, a) { AncDepth(f, b, a); }
    forall k | k in Sub(f, a) && k in Sub(f, b)
      ensures false
    {
      AncLinear(f, a, b, k);
    }
  }

  // ----- the first i children's subtrees -----

  ghost function SubFirst(f: Forest, p: Option<Id>, i: nat): set<Id>
    requires i <= |Kids(f, p)|
  {
    if i == 0 then {} else SubFirst(f, p, i - 1) + Sub(f, Kids(f, p)[i - 1])
  }

  lemma {:induction false} SubFirstMembers(f: Forest, p: Option<Id>, i: nat)
    requires AtNode(f, p) && i <= |Kids(f, p)|
    ensures forall k :: k in SubFirst(f, p, i) <==> exists j :: 0 <= j < i && k in Sub(f, Kids(f, p)[j])
    ensures SubFirst(f, p, i) <= Under(f, p)
  {
    if i > 0 {
      SubFirstMembers(f, p, i - 1);
      assert Kids(f, p)[i - 1] in Kids(f, p);
      UnderKid(f, p, Kids(f, p)[i - 1]);
    }
  }

  lemma {:induction false} SubFirstApart(f: Forest, p: Option<Id>, i: nat, j: nat)
    requires AtNode(f, p) && i <= j < |Kids(f, p)|
    ensures Sub(f, Kids(f, p)[j]) !! SubFirst(f, p, i)
  {
    var kids := Kids(f, p);
    KidsMembers(f, p);
    SubFirstMembers(f, p, i);
    forall k | k in Sub(f, kids[j]) && k in SubFirst(f, p, i)
      ensures false
    {
      var h :| 0 <= h < i && k in Sub(f, kids[h]);
      assert kids[h] in kids && kids[j] in kids;
      NoDupAt(kids, h, j);
      SiblingsDisjoint(f, p, kids[h], kids[j]);
    }
  }

  lemma {:induction false} SubFirstAll(f: Forest, p: Option<Id>)
    requires AtNode(f, p)
    ensures SubFirst(f, p, |Kids(f, p)|) == Under(f, p)
  {
    SubFirstMembers(f, p, |Kids(f, p)|);
    forall k | k in Under(f, p)
      ensures k in SubFirst(f, p, |Kids(f, p)|)
    {
      var c := KidAbove(f, p, k);
      var j :| 0 <= j < |Kids(f, p)| && Kids(f, p)[j] == c;
      assert k in Sub(f, Kids(f, p)[j]);
    }
  }

  /** How many nodes the first `i` children's subtrees hold. */
  ghost function Width(f: Forest, p: Option<Id>, i: nat): nat
    requires i <= |Kids(f, p)|
  {
    if i == 0 then 0 else Width(f, p, i - 1) + Size(f, Kids(f, p)[i - 1])
  }

  ghost function Size(f: Forest, n: Id): nat {
    |Sub(f, n)|
  }

  lemma {:induction false} WidthCounts(f: Forest, p: Option<Id>, i: nat)
    requires AtNode(f, p) && i <= |Kids(f, p)|
    ensures Width(f, p, i) == |SubFirst(f, p, i)|
  {
    if i > 0 {
      WidthCounts(f, p, i - 1);
      SubFirstApart(f, p, i - 1, i - 1);
      CardDisjoint(SubFirst(f, p, i - 1), Sub(f, Kids(f, p)[i - 1]));
    }
  }

  lemma CardDisjoint<T>(a: set<T>, b: set<T>)
    requires a !! b
    ensures |a + b| == |a| + |b|
  {
  }

  lemma {:induction false} WidthFits(f: Forest, p: Option<Id>, i: nat)
    requires AtNode(f, p) && i <= |Kids(f, p)|
    ensures Width(f, p, i) <= |Under(f, p)|
  {
    WidthCounts(f, p, i);
    SubFirstMembers(f, p, i);
    CardMono(SubFirst(f, p, i), Under(f, p));
  }

  /** A subtree is its root and the subtrees of all its children. */
  lemma {:induction false} WidthAll(f: Forest, p: Option<Id>)
    requires AtNode(f, p)
    ensures Width(f, p, |Kids(f, p)|) == |Under(f, p)|
    ensures p.Some? ==> Size(f, p.value) == Width(f, p, |Kids(f, p)|) + 1
    ensures p == None ==> Width(f, p, |Kids(f, p)|) == |f.order|
  {
    WidthCounts(f, p, |Kids(f, p)|);
    SubFirstAll(f, p);
    if p.Some? { SubCard(f, p.value); }
    NodeCount(f);
  }

  lemma CardMono(a: set<Id>, b: set<Id>)
    requires a <= b
    ensures |a| <= |b|
  {
    assert b == a + (b - a);
  }

  lemma NodeCount(f: Forest)
    ensures |f.par.Keys| == |f.order|
  {
    NoDupCard(f.order);
    assert Elements(f.order) == f.par.Keys;
  }

  lemma UnderSelf(f: Forest, n: Id)
    requires n in f.par
    ensures n !in Under(f, Some(n)) && Sub(f, n) == Under(f, Some(n)) + {n}
  {
    assert Anc(f, n, n);
  }

  lemma SubCard(f: Forest, n: Id)
    requires n in f.par
    ensures |Sub(f, n)| == |Under(f, Some(n))| + 1
    ensures |Sub(f, n)| <= |f.par.Keys| == |f.order|
  {
    assert Anc(f, n, n);
    assert Sub(f, n) == Under(f, Some(n)) + {n};
    CardMono(Sub(f, n), f.par.Keys);
    NodeCount(f);
  }
}
