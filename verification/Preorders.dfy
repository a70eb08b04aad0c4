/** Depth-first listings of a forest, and the listings the interval index produces by sorting. */
module Preorders {
  import opened Common
  import opened Forests
  import opened NestedSets
  import opened Sorting

  /** Depth-first listing of the trees rooted at `ks`, `d` levels deep. */
  function Walk(f: Forest, ks: seq<Id>, d: nat): seq<Id>
    decreases d, |ks|
  {
    if d == 0 || ks == [] then []
    else [ks[0]] + Walk(f, Kids(f, Some(ks[0])), d - 1) + Walk(f, ks[1..], d)
  }

  /** The whole sheet, parents before children, siblings in insertion order. */
  function Preorder(f: Forest): seq<Id> {
    Walk(f, Kids(f, None), |f.order|)
  }

  ghost predicate AllAt(f: Forest, ks: seq<Id>, p: Option<Id>) {
    forall k {:trigger k in ks} :: k in ks ==> k in f.par && f.par[k] == p
  }

  lemma AllAtTail(f: Forest, ks: seq<Id>, p: Option<Id>)
    requires ks != [] && AllAt(f, ks, p)
    ensures AllAt(f, ks[1..], p)
  {
    forall k | k in ks[1..]
      ensures k in f.par && f.par[k] == p
    {
      assert k in ks;
    }
  }

  lemma KidsAt(f: Forest, p: Option<Id>)
    ensures AllAt(f, Kids(f, p), p) && NoDup(Kids(f, p))
  {
    KidsMembers(f, p);
  }

  // ----- what a walk lists -----

  /** `k` lies under one of `ks`, less than `d` levels down. */
  ghost predicate Reached(f: Forest, ks: seq<Id>, d: nat, k: Id) {
    k in f.par && exists c :: c in ks && c in f.par && Anc(f, c, k) && f.depth[k] < f.depth[c] + d
  }

  lemma {:induction false} WalkMembers(f: Forest, ks: seq<Id>, p: Option<Id>, d: nat, k: Id)
    requires AllAt(f, ks, p)
    ensures k in Walk(f, ks, d) <==> Reached(f, ks, d, k)
    decreases d, |ks|
  {
    if d == 0 {
      if Reached(f, ks, d, k) {
        var c :| c in ks && c in f.par && Anc(f, c, k) && f.depth[k] < f.depth[c] + d;
        AncDepth(f, c, k);
      }
    } else if ks != [] {
      var c := ks[0];
      assert c in ks;
      KidsAt(f, Some(c));
      WalkMembers(f, Kids(f, Some(c)), Some(c), d - 1, k);
      AllAtTail(f, ks, p);
      WalkMembers(f, ks[1..], p, d, k);
      ReachedFirst(f, c, d, k);
      ReachedSplit(f, ks, d, k);
      assert k in Walk(f, ks, d) <==> k == c || k in Walk(f, Kids(f, Some(c)), d - 1) || k in Walk(f, ks[1..], d);
    }
  }

  lemma ReachedSplit(f: Forest, ks: seq<Id>, d: nat, k: Id)
    requires ks != []
    ensures Reached(f, ks, d, k) <==> Reached(f, [ks[0]], d, k) || Reached(f, ks[1..], d, k)
  {
    assert ks == [ks[0]] + ks[1..];
    if Reached(f, [ks[0]], d, k) {
      var c :| c in [ks[0]] && c in f.par && Anc(f, c, k) && f.depth[k] < f.depth[c] + d;
      assert c in ks;
    }
  }

  lemma ReachedFirst(f: Forest, c: Id, d: nat, k: Id)
    requires c in f.par && d > 0
    ensures Reached(f, [c], d, k) <==> k == c || Reached(f, Kids(f, Some(c)), d - 1, k)
  {
    assert c in [c];
    KidsMembers(f, Some(c));
    if Reached(f, [c], d, k) && k != c {
      assert Anc(f, c, k) && f.depth[k] < f.depth[c] + d;
      var g := KidToward(f, c, k);
      AncKid(f, c, g);
      assert g in Kids(f, Some(c));
    }
    if Reached(f, Kids(f, Some(c)), d - 1, k) {
      var g :| g in Kids(f, Some(c)) && g in f.par && Anc(f, g, k) && f.depth[k] < f.depth[g] + (d - 1);
      AncKid(f, c, g);
      AncTrans(f, c, g, k);
    }
  }

  /** A chain of parents cannot be longer than the sheet. */
  lemma {:induction false} ChainMembers(f: Forest, k: Id)
    requires k in f.par
    ensures |ParentChain(f, k)| == f.depth[k] + 1
    ensures forall m :: m in ParentChain(f, k) <==> m in f.par && Anc(f, m, k)
    decreases f.depth[k]
  {
    assert f.LinkOk(k);
    match f.par[k] {
      case None =>
      case Some(p) => ChainMembers(f, p);
    }
  }

  lemma {:induction false} ChainNoDup(f: Forest, k: Id)
    requires k in f.par
    ensures NoDup(Reverse(ParentChain(f, k)))
    decreases f.depth[k]
  {
    assert f.LinkOk(k);
    match f.par[k] {
      case None => assert Reverse([k]) == [k];
      case Some(p) =>
        ChainNoDup(f, p);
        ReverseMembers(ParentChain(f, p));
        ChainMembers(f, p);
        if Anc(f, k, p) { AncDepth(f, k, p); }
        ReverseCons(k, ParentChain(f, p));
        NoDupSnoc(Reverse(ParentChain(f, p)), k);
    }
  }

  lemma {:induction false} ReverseMembers(s: seq<Id>)
    ensures forall k :: k in Reverse(s) <==> k in s
  {
    var r := Reverse(s);
    forall k | k in s
      ensures k in r
    {
      var i :| 0 <= i < |s| && s[i] == k;
      assert r[|s| - 1 - i] == k;
    }
  }

  lemma {:induction false} ReverseCons(x: Id, s: seq<Id>)
    ensures Reverse([x] + s) == Reverse(s) + [x]
  {
  }

  lemma DepthBound(f: Forest, k: Id)
    requires k in f.par
    ensures f.depth[k] < |f.order|
  {
    ChainNoDup(f, k);
    ChainMembers(f, k);
    ReverseMembers(ParentChain(f, k));
    var r := Reverse(ParentChain(f, k));
    NoDupCard(r);
    CardMono(Elements(r), f.par.Keys);
    NodeCount(f);
  }

  // ----- a walk runs in lft order -----

  /** The children are laid out between `lo` and `hi`, one after the other. */
  ghost predicate LaidBetween(x: Index, ks: seq<Id>, lo: int, hi: int) {
    && lo <= hi
    && (ks != [] ==> lo <= x.L(ks[0]) && x.R(ks[0]) < hi && LaidBetween(x, ks[1..], x.R(ks[0]) + 1, hi))
  }

  lemma {:induction false} KidsLaidBetween(s: Sheet, p: Option<Id>, i: nat)
    requires AtNode(s.f, p) && i <= |Kids(s.f, p)|
    ensures LaidBetween(s.x, Kids(s.f, p)[i..], Cursor(s.x, p, Kids(s.f, p), i),
                        Cursor(s.x, p, Kids(s.f, p), |Kids(s.f, p)|))
    decreases |Kids(s.f, p)| - i
  {
    var kids := Kids(s.f, p);
    CursorMono(s, p, i, |kids|);
    if i < |kids| {
      KidSpan(s, p, i);
      CursorMono(s, p, i + 1, |kids|);
      KidsLaidBetween(s, p, i + 1);
      assert kids[i..][1..] == kids[i + 1..];
    }
  }

  lemma {:induction false} WalkAscending(s: Sheet, ks: seq<Id>, p: Option<Id>, d: nat, lo: int, hi: int)
    requires AllAt(s.f, ks, p) && LaidBetween(s.x, ks, lo, hi)
    ensures Ascending(Walk(s.f, ks, d), s.x.lft, lo, hi)
    decreases d, |ks|
  {
    if d > 0 && ks != [] {
      hide Ascending, Kids, Indexed;
      var c := ks[0];
      assert c in ks;
      KidsInside(s, c);
      WalkAscending(s, Kids(s.f, Some(c)), Some(c), d - 1, s.x.L(c) + 1, s.x.R(c));
      AllAtTail(s.f, ks, p);
      WalkAscending(s, ks[1..], p, d, s.x.R(c) + 1, hi);
      TreeAscending(s, c, Walk(s.f, Kids(s.f, Some(c)), d - 1), Walk(s.f, ks[1..], d), lo, hi);
    } else {
      assert Walk(s.f, ks, d) == [];
    }
  }

  /** The children of a node are laid out inside its interval. */
  lemma KidsInside(s: Sheet, c: Id)
    requires c in s.f.par
    ensures s.x.L(c) < s.x.R(c) && c in s.x.lft && AllAt(s.f, Kids(s.f, Some(c)), Some(c))
    ensures LaidBetween(s.x, Kids(s.f, Some(c)), s.x.L(c) + 1, s.x.R(c))
  {
    hide Kids, LaidBetween;
    var kids := Kids(s.f, Some(c));
    KidsAt(s.f, Some(c));
    KidsLaidBetween(s, Some(c), 0);
    assert kids[0..] == kids;
    assert KidsIndexed(s.f, s.x, Some(c));
    SpanCounts(s, c);
  }

  /** A node, what is below it and what comes after it, one after the other. */
  lemma {:induction false} TreeAscending(s: Sheet, c: Id, sub: seq<Id>, rest: seq<Id>, lo: int, hi: int)
    requires c in s.x.lft && lo <= s.x.L(c) < s.x.R(c) < hi
    requires Ascending(sub, s.x.lft, s.x.L(c) + 1, s.x.R(c)) && Ascending(rest, s.x.lft, s.x.R(c) + 1, hi)
    ensures Ascending([c] + sub + rest, s.x.lft, lo, hi)
  {
    assert Ascending([c], s.x.lft, lo, s.x.L(c) + 1);
    hide Ascending;
    AscendingWiden(sub, s.x.lft, s.x.L(c) + 1, s.x.R(c), s.x.L(c) + 1, s.x.R(c) + 1);
    AscendingConcat([c], sub, s.x.lft, lo, s.x.L(c) + 1, s.x.R(c) + 1);
    AscendingConcat([c] + sub, rest, s.x.lft, lo, s.x.R(c) + 1, hi);
  }

  lemma {:induction false} ChainAscending(s: Sheet, k: Id)
    requires k in s.f.par
    ensures Ascending(Reverse(ParentChain(s.f, k)), s.x.lft, 0, s.x.L(k) + 1)
    decreases s.f.depth[k]
  {
    assert s.f.LinkOk(k);
    match s.f.par[k] {
      case None => assert Reverse([k]) == [k];
      case Some(p) =>
        ChainAscending(s, p);
        KidInside(s, p, k);
        ReverseCons(k, ParentChain(s.f, p));
        var r := Reverse(ParentChain(s.f, p));
        AscendingWiden(r, s.x.lft, 0, s.x.L(p) + 1, 0, s.x.L(k));
        assert (r + [k])[..|r|] == r;
    }
  }

  // ----- the interval queries -----

  function AncestorRows(order: seq<Id>, x: Index, n: Id): set<Id> {
    set m | m in order && x.L(m) <= x.L(n) && x.R(m) >= x.R(n)
  }

  function DescendantRows(order: seq<Id>, x: Index, n: Id): set<Id> {
    set m | m in order && x.L(m) > x.L(n) && x.R(m) < x.R(n)
  }

  /** Sorting the rows whose interval contains `n`, deepest first, is walking up the parent links. */
  lemma {:induction false} AncestorQuery(s: Sheet, n: Id)
    requires n in s.f.par
    ensures Reverse(SortBy(Keep(s.f.order, AncestorRows(s.f.order, s.x, n)), s.x.lft)) == ParentChain(s.f, n)
  {
    hide Keep, ParentChain, Reverse, AncestorRows, Ascending, SortBy, Indexed;
    var rows, chain := Keep(s.f.order, AncestorRows(s.f.order, s.x, n)), ParentChain(s.f, n);
    KeepMembers(s.f.order, AncestorRows(s.f.order, s.x, n));
    ChainAscending(s, n);
    forall k
      ensures k in rows <==> k in Reverse(chain)
    {
      AncestorMember(s, n, k);
    }
    SortIs(rows, Reverse(chain), s.x.lft, 0, s.x.L(n) + 1);
    ReverseTwice(chain);
  }

  lemma {:induction false} AncestorMember(s: Sheet, n: Id, k: Id)
    requires n in s.f.par
    ensures k in Keep(s.f.order, AncestorRows(s.f.order, s.x, n)) <==> k in Reverse(ParentChain(s.f, n))
  {
    hide Keep, ParentChain, Reverse;
    KeepMembers(s.f.order, AncestorRows(s.f.order, s.x, n));
    ReverseMembers(ParentChain(s.f, n));
    ChainMembers(s.f, n);
    if k in s.f.par { IndexIsAncestry(s, k, n); }
  }

  lemma {:induction false} ReverseTwice(s: seq<Id>)
    ensures Reverse(Reverse(s)) == s
  {
  }

  /** Sorting the rows strictly inside `n`'s interval is the depth-first listing of its proper subtree. */
  lemma DescendantQuery(s: Sheet, n: Id)
    requires n in s.f.par
    ensures SortBy(Keep(s.f.order, DescendantRows(s.f.order, s.x, n)), s.x.lft)
            == Walk(s.f, Kids(s.f, Some(n)), |s.f.order|)
  {
    var rows, p := Keep(s.f.order, DescendantRows(s.f.order, s.x, n)), Some(n);
    var w := Walk(s.f, Kids(s.f, p), |s.f.order|);
    KeepMembers(s.f.order, DescendantRows(s.f.order, s.x, n));
    KidsAt(s.f, p);
    KidsLaidBetween(s, p, 0);
    assert Kids(s.f, p)[0..] == Kids(s.f, p);
    var hi := Cursor(s.x, p, Kids(s.f, p), |Kids(s.f, p)|);
    WalkAscending(s, Kids(s.f, p), p, |s.f.order|, Start(s.x, p), hi);
    forall k
      ensures k in rows <==> k in w
    {
      WalkMembers(s.f, Kids(s.f, p), p, |s.f.order|, k);
      ReachedUnder(s.f, p, k);
      if k in s.f.par { IndexIsAncestry(s, n, k); }
    }
    SortIs(rows, w, s.x.lft, Start(s.x, p), hi);
  }

  lemma ReachedUnder(f: Forest, p: Option<Id>, k: Id)
    requires AtNode(f, p)
    ensures Reached(f, Kids(f, p), |f.order|, k) <==> k in Under(f, p)
  {
    KidsMembers(f, p);
    if k in Under(f, p) {
      var c := KidAbove(f, p, k);
      DepthBound(f, k);
    }
    if Reached(f, Kids(f, p), |f.order|, k) {
      var c :| c in Kids(f, p) && c in f.par && Anc(f, c, k);
      UnderKid(f, p, c);
      assert k in Sub(f, c);
    }
  }

  /** Sorting all rows by lft is the preorder of the forest. */
  lemma PreorderQuery(s: Sheet)
    ensures SortBy(s.f.order, s.x.lft) == Preorder(s.f)
    ensures Ascending(Preorder(s.f), s.x.lft, 1, 2 * |s.f.order| + 1)
    ensures forall k :: k in Preorder(s.f) <==> k in s.f.par
  {
    hide Walk, Kids, Ascending, Indexed;
    PreorderAscending(s);
    forall k
      ensures k in Preorder(s.f) <==> k in s.f.par
    {
      KidsAt(s.f, None);
      WalkMembers(s.f, Kids(s.f, None), None, |s.f.order|, k);
      ReachedUnder(s.f, None, k);
    }
    SortIs(s.f.order, Preorder(s.f), s.x.lft, 1, 2 * |s.f.order| + 1);
  }

  lemma PreorderAscending(s: Sheet)
    ensures Ascending(Preorder(s.f), s.x.lft, 1, 2 * |s.f.order| + 1)
  {
    hide Walk, Kids, Ascending, LaidBetween;
    var ks := Kids(s.f, None);
    KidsAt(s.f, None);
    KidsLaidBetween(s, None, 0);
    assert ks[0..] == ks;
    CursorCounts(s, None, |ks|);
    WidthAll(s.f, None);
    WalkAscending(s, ks, None, |s.f.order|, 1, 2 * |s.f.order| + 1);
  }
}
