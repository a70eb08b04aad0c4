/**
 * The materialised interval index: what a depth-first numbering of the forest establishes,
 * and why intervals then answer every ancestor question.
 */
module NestedSets {
  import opened Common
  import opened Forests

  datatype Index = Index(lft: map<Id, nat>, rgt: map<Id, nat>) {
    ghost predicate Covers(s: set<Id>) {
      s <= lft.Keys && s <= rgt.Keys
    }

    function L(k: Id): nat { if k in lft then lft[k] else 0 }

    function R(k: Id): nat { if k in rgt then rgt[k] else 0 }
  }

  /** The first number used below `p`. */
  ghost function Start(x: Index, p: Option<Id>): nat {
    match p case None => 1 case Some(n) => x.L(n) + 1
  }

  /** The number the (i+1)-th of `kids` opens with: one past what the first `i` closed with. */
  ghost function Cursor(x: Index, p: Option<Id>, kids: seq<Id>, i: nat): nat
    requires i <= |kids|
  {
    if i == 0 then Start(x, p) else x.R(kids[i - 1]) + 1
  }

  ghost predicate KidOpens(x: Index, p: Option<Id>, kids: seq<Id>, i: nat)
    requires i < |kids|
  {
    x.L(kids[i]) == Cursor(x, p, kids, i)
  }

  /** The children of `p` are numbered one after the other with no gap, and `p` closes right after them. */
  ghost predicate KidsLaid(x: Index, p: Option<Id>, kids: seq<Id>) {
    && (forall i :: 0 <= i < |kids| ==> KidOpens(x, p, kids, i))
    && (p.Some? ==> x.R(p.value) == Cursor(x, p, kids, |kids|))
  }

  ghost predicate KidsIndexed(f: Forest, x: Index, p: Option<Id>) {
    KidsLaid(x, p, Kids(f, p))
  }

  ghost predicate Indexed(f: Forest, x: Index) {
    && x.Covers(f.par.Keys)
    && KidsIndexed(f, x, None)
    && forall n {:trigger KidsIndexed(f, x, Some(n))} :: n in f.par ==> KidsIndexed(f, x, Some(n))
  }

  /** A forest together with an index that numbers it. */
  datatype RawSheet = RawSheet(f: Forest, x: Index)

  type Sheet = s: RawSheet | Indexed(s.f, s.x)
    witness RawSheet(RawForest([], map[], map[]), Index(map[], map[]))

  ghost predicate Within(x: Index, m: Id, k: Id) {
    x.L(m) <= x.L(k) && x.R(k) <= x.R(m)
  }

  ghost predicate Apart(x: Index, m: Id, k: Id) {
    x.R(m) < x.L(k) || x.R(k) < x.L(m)
  }

  // ----- the numbering counts subtrees -----

  lemma {:induction false} CursorCounts(s: Sheet, p: Option<Id>, i: nat)
    requires AtNode(s.f, p) && i <= |Kids(s.f, p)|
    ensures Cursor(s.x, p, Kids(s.f, p), i) == Start(s.x, p) + 2 * Width(s.f, p, i)
    decreases Under(s.f, p), i
  {
    if i > 0 {
      var c := Kids(s.f, p)[i - 1];
      assert c in Kids(s.f, p);
      UnderKid(s.f, p, c);
      CursorCounts(s, p, i - 1);
      SpanCounts(s, c);
      KidOpensAt(s, p, i - 1);
    }
  }

  lemma KidOpensAt(s: Sheet, p: Option<Id>, i: nat)
    requires AtNode(s.f, p) && i < |Kids(s.f, p)|
    ensures KidOpens(s.x, p, Kids(s.f, p), i)
  {
    assert KidsIndexed(s.f, s.x, p);
  }

  /** An interval is exactly as wide as its subtree needs: two numbers a node. */
  lemma {:induction false} SpanCounts(s: Sheet, n: Id)
    requires n in s.f.par
    ensures s.x.R(n) + 1 == s.x.L(n) + 2 * Size(s.f, n)
    ensures s.x.L(n) < s.x.R(n)
    decreases Under(s.f, Some(n)), |Kids(s.f, Some(n))| + 1
  {
    CursorCounts(s, Some(n), |Kids(s.f, Some(n))|);
    WidthAll(s.f, Some(n));
    assert KidsIndexed(s.f, s.x, Some(n));
  }

  lemma {:induction false} CursorMono(s: Sheet, p: Option<Id>, i: nat, j: nat)
    requires AtNode(s.f, p) && i <= j <= |Kids(s.f, p)|
    ensures Cursor(s.x, p, Kids(s.f, p), i) <= Cursor(s.x, p, Kids(s.f, p), j)
    decreases j
  {
    if i < j {
      CursorMono(s, p, i, j - 1);
      KidSpan(s, p, j - 1);
    }
  }

  lemma KidSpan(s: Sheet, p: Option<Id>, i: nat)
    requires AtNode(s.f, p) && i < |Kids(s.f, p)|
    ensures Kids(s.f, p)[i] in s.f.par && s.f.par[Kids(s.f, p)[i]] == p
    ensures var c := Kids(s.f, p)[i];
            Cursor(s.x, p, Kids(s.f, p), i) == s.x.L(c) < s.x.R(c) < Cursor(s.x, p, Kids(s.f, p), i + 1) == s.x.R(c) + 1
  {
    var c := Kids(s.f, p)[i];
    assert c in Kids(s.f, p);
    KidsMembers(s.f, p);
    SpanCounts(s, c);
    assert KidsIndexed(s.f, s.x, p) && KidOpens(s.x, p, Kids(s.f, p), i);
  }

  lemma KidIndex(f: Forest, p: Option<Id>, c: Id) returns (i: nat)
    requires c in f.par && f.par[c] == p
    ensures i < |Kids(f, p)| && Kids(f, p)[i] == c
  {
    KidsMembers(f, p);
    i :| 0 <= i < |Kids(f, p)| && Kids(f, p)[i] == c;
  }

  lemma KidPlace(s: Sheet, p: Option<Id>, c: Id)
    requires c in s.f.par && s.f.par[c] == p && AtNode(s.f, p)
    ensures Start(s.x, p) <= s.x.L(c) < s.x.R(c) < Cursor(s.x, p, Kids(s.f, p), |Kids(s.f, p)|)
  {
    var i := KidIndex(s.f, p, c);
    KidSpan(s, p, i);
    CursorMono(s, p, 0, i);
    CursorMono(s, p, i + 1, |Kids(s.f, p)|);
  }

  lemma KidInside(s: Sheet, p: Id, c: Id)
    requires c in s.f.par && s.f.par[c] == Some(p)
    ensures p in s.f.par && s.x.L(p) < s.x.L(c) && s.x.R(c) < s.x.R(p)
  {
    AncKid(s.f, p, c);
    KidPlace(s, Some(p), c);
    assert KidsIndexed(s.f, s.x, Some(p));
  }

  lemma SiblingsApart(s: Sheet, p: Option<Id>, a: Id, b: Id)
    requires AtNode(s.f, p)
    requires a in s.f.par && b in s.f.par && s.f.par[a] == p && s.f.par[b] == p && a != b
    ensures Apart(s.x, a, b)
  {
    var i := KidIndex(s.f, p, a);
    var j := KidIndex(s.f, p, b);
    KidSpan(s, p, i);
    KidSpan(s, p, j);
    if i < j {
      CursorMono(s, p, i + 1, j);
    } else {
      CursorMono(s, p, j + 1, i);
    }
  }

  // ----- intervals are the ancestor relation -----

  lemma {:induction false} AncWithin(s: Sheet, m: Id, k: Id)
    requires k in s.f.par && m in s.f.par && Anc(s.f, m, k)
    ensures Within(s.x, m, k)
    ensures m != k ==> s.x.L(m) < s.x.L(k) && s.x.R(k) < s.x.R(m)
    decreases s.f.depth[k]
  {
    assert s.f.LinkOk(k);
    if m != k {
      AncWithin(s, m, s.f.par[k].value);
      KidInside(s, s.f.par[k].value, k);
    }
  }

  /** Two nodes on no common chain have disjoint intervals. */
  lemma {:induction false} UnrelatedApart(s: Sheet, m: Id, k: Id)
    requires m in s.f.par && k in s.f.par
    requires !Anc(s.f, m, k) && !Anc(s.f, k, m)
    ensures Apart(s.x, m, k)
    decreases s.f.depth[m] + s.f.depth[k], 1
  {
    assert s.f.LinkOk(k) && s.f.LinkOk(m);
    match s.f.par[k] {
      case None =>
        match s.f.par[m] {
          case None => SiblingsApart(s, None, m, k);
          case Some(q) => UnrelatedParent(s, k, m, q);
        }
      case Some(p) => UnrelatedParent(s, m, k, p);
    }
  }

  lemma {:induction false} UnrelatedParent(s: Sheet, m: Id, k: Id, p: Id)
    requires m in s.f.par && k in s.f.par
    requires s.f.par[k] == Some(p)
    requires !Anc(s.f, m, k) && !Anc(s.f, k, m)
    ensures p in s.f.par && Apart(s.x, m, k)
    decreases s.f.depth[m] + s.f.depth[k], 0
  {
    assert s.f.LinkOk(k);
    KidInside(s, p, k);
    if Anc(s.f, p, m) {
      var c := KidToward(s.f, p, m);
      SiblingsApart(s, Some(p), c, k);
      AncWithin(s, c, m);
    } else {
      assert !Anc(s.f, m, p);
      UnrelatedApart(s, m, p);
    }
  }

  /** The interval index equals the parent chain. */
  lemma {:induction false} IndexIsAncestry(s: Sheet, m: Id, k: Id)
    requires m in s.f.par && k in s.f.par
    ensures Anc(s.f, m, k) <==> Within(s.x, m, k)
    ensures m != k ==> (Anc(s.f, m, k) <==> s.x.L(m) < s.x.L(k) && s.x.R(k) < s.x.R(m))
  {
    SpanCounts(s, m);
    SpanCounts(s, k);
    if Anc(s.f, m, k) {
      AncWithin(s, m, k);
    } else if Anc(s.f, k, m) {
      AncWithin(s, k, m);
    } else {
      UnrelatedApart(s, m, k);
    }
  }

  // ----- each of 1..2n is used exactly once -----

  lemma OpensDistinct(s: Sheet, m: Id, k: Id)
    requires m in s.f.par && k in s.f.par
    ensures s.x.L(m) == s.x.L(k) ==> m == k
    ensures s.x.R(m) == s.x.R(k) ==> m == k
    ensures s.x.L(m) != s.x.R(k)
  {
    SpanCounts(s, m);
    SpanCounts(s, k);
    if Anc(s.f, m, k) {
      AncWithin(s, m, k);
    } else if Anc(s.f, k, m) {
      AncWithin(s, k, m);
    } else {
      UnrelatedApart(s, m, k);
    }
  }

  ghost predicate Uses(x: Index, k: Id, i: nat) {
    x.L(k) == i || x.R(k) == i
  }

  /** Every number between the first and the last used below `p` belongs to a node below `p`. */
  lemma {:induction false} NumberTaken(s: Sheet, p: Option<Id>, i: nat) returns (k: Id)
    requires AtNode(s.f, p)
    requires Start(s.x, p) <= i < Cursor(s.x, p, Kids(s.f, p), |Kids(s.f, p)|)
    ensures k in s.f.par && Uses(s.x, k, i)
    decreases Under(s.f, p)
  {
    var j: nat := 0;
    while s.x.R(Kids(s.f, p)[j]) < i
      invariant j < |Kids(s.f, p)|
      invariant Cursor(s.x, p, Kids(s.f, p), j) <= i
      decreases |Kids(s.f, p)| - j
    {
      j := j + 1;
    }
    KidSpan(s, p, j);
    var c := Kids(s.f, p)[j];
    if s.x.L(c) == i || s.x.R(c) == i {
      k := c;
    } else {
      UnderKid(s.f, p, c);
      assert KidsIndexed(s.f, s.x, Some(c));
      k := NumberTaken(s, Some(c), i);
    }
  }

  /** A numbering of n nodes uses each of 1..2n exactly once. */
  lemma NumberingIsBijective(s: Sheet, i: nat)
    ensures (1 <= i <= 2 * |s.f.order|) <==> exists k :: k in s.f.par && Uses(s.x, k, i)
    ensures forall m, k :: m in s.f.par && k in s.f.par && Uses(s.x, m, i) && Uses(s.x, k, i) ==> m == k
  {
    CursorCounts(s, None, |Kids(s.f, None)|);
    WidthAll(s.f, None);
    if 1 <= i <= 2 * |s.f.order| {
      var k := NumberTaken(s, None, i);
    }
    forall k | k in s.f.par && Uses(s.x, k, i)
      ensures 1 <= i <= 2 * |s.f.order|
    {
      InRange(s, k);
    }
    forall m, k | m in s.f.par && k in s.f.par && Uses(s.x, m, i) && Uses(s.x, k, i)
      ensures m == k
    {
      OpensDistinct(s, m, k);
      OpensDistinct(s, k, m);
    }
  }

  lemma InRange(s: Sheet, k: Id)
    requires k in s.f.par
    ensures 1 <= s.x.L(k) < s.x.R(k) <= 2 * |s.f.order|
  {
    var r := RootAbove(s.f, k);
    AncWithin(s, r, k);
    SpanCounts(s, k);
    KidPlace(s, None, r);
    CursorCounts(s, None, |Kids(s.f, None)|);
    WidthAll(s.f, None);
  }
}
