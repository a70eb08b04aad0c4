/** What one edit does to the whole sheet, stated over the preorder and the stored index. */
module TreeLaws {
  import opened Common
  import opened Forests
  import opened NestedSets
  import opened ForestEdits
  import opened Sorting
  import opened Preorders

  /** The width of the stored interval is the size of the subtree. */
  lemma SubtreeSize(s: Sheet, n: Id)
    requires n in s.f.par
    ensures (s.x.R(n) - s.x.L(n) + 1) / 2 == |Walk(s.f, Kids(s.f, Some(n)), |s.f.order|)| + 1
  {
    SpanCounts(s, n);
    var w := Walk(s.f, Kids(s.f, Some(n)), |s.f.order|);
    SubtreeListing(s, n);
    NoDupCard(w);
    UnderSelf(s.f, n);
    SubCard(s.f, n);
  }

  lemma SubtreeListing(s: Sheet, n: Id)
    requires n in s.f.par
    ensures NoDup(Walk(s.f, Kids(s.f, Some(n)), |s.f.order|))
    ensures Elements(Walk(s.f, Kids(s.f, Some(n)), |s.f.order|)) == Under(s.f, Some(n))
  {
    var p := Some(n);
    var w := Walk(s.f, Kids(s.f, p), |s.f.order|);
    KidsAt(s.f, p);
    KidsLaidBetween(s, p, 0);
    assert Kids(s.f, p)[0..] == Kids(s.f, p);
    var hi := Cursor(s.x, p, Kids(s.f, p), |Kids(s.f, p)|);
    WalkAscending(s, Kids(s.f, p), p, |s.f.order|, Start(s.x, p), hi);
    AscendingKeys(w, s.x.lft, Start(s.x, p), hi);
    forall k
      ensures k in w <==> k in Under(s.f, p)
    {
      WalkMembers(s.f, Kids(s.f, p), p, |s.f.order|, k);
      ReachedUnder(s.f, p, k);
    }
  }

  /** A subtree is a contiguous block of the preorder. */
  lemma SubtreeIsBlock(s: Sheet, n: Id, i: nat, j: nat, l: nat)
    requires n in s.f.par && i <= j <= l < |Preorder(s.f)|
    requires Preorder(s.f)[i] in Sub(s.f, n) && Preorder(s.f)[l] in Sub(s.f, n)
    ensures Preorder(s.f)[j] in Sub(s.f, n)
  {
    PreorderQuery(s);
    BlockOf(s, n, Preorder(s.f), i, j, l);
  }

  lemma {:induction false} BlockOf(s: Sheet, n: Id, w: seq<Id>, i: nat, j: nat, l: nat)
    requires n in s.f.par && i <= j <= l < |w|
    requires Ascending(w, s.x.lft, 1, 2 * |s.f.order| + 1) && forall k :: k in w ==> k in s.f.par
    requires w[i] in Sub(s.f, n) && w[l] in Sub(s.f, n)
    ensures w[j] in Sub(s.f, n)
  {
    AscendingKeys(w, s.x.lft, 1, 2 * |s.f.order| + 1);
    assert w[j] in w;
    AncWithin(s, n, w[i]);
    AncWithin(s, n, w[l]);
    SpanCounts(s, w[l]);
    OpenedInside(s, n, w[j]);
  }

  /** A node whose interval opens inside another's is below it. */
  lemma {:induction false} OpenedInside(s: Sheet, n: Id, k: Id)
    requires n in s.f.par && k in s.f.par && s.x.L(n) <= s.x.L(k) < s.x.R(n)
    ensures Anc(s.f, n, k)
  {
    SpanCounts(s, k);
    if Anc(s.f, n, k) {
    } else if Anc(s.f, k, n) {
      AncWithin(s, k, n);
    } else {
      UnrelatedApart(s, n, k);
    }
  }

  lemma {:induction false} KidsWithout(order: seq<Id>, par: map<Id, Option<Id>>, gone: set<Id>, p: Option<Id>)
    ensures KidsOf(Without(order, gone), par - gone, p) == Without(KidsOf(order, par, p), gone)
  {
    if order != [] {
      var k, rest := order[|order| - 1], order[..|order| - 1];
      KidsWithout(rest, par, gone, p);
      if k !in gone {
        assert (Without(rest, gone) + [k])[..|Without(rest, gone)|] == Without(rest, gone);
      } else {
        assert Without(order, gone) == Without(rest, gone);
      }
      WithoutSnoc(KidsOf(rest, par, p), k, gone);
      if k in par && par[k] == p {
        assert KidsOf(order, par, p) == KidsOf(rest, par, p) + [k];
      } else {
        assert KidsOf(order, par, p) == KidsOf(rest, par, p);
      }
    }
  }

  lemma {:induction false} WithoutSnoc(t: seq<Id>, k: Id, gone: set<Id>)
    ensures Without(t + [k], gone) == Without(t, gone) + (if k in gone then [] else [k])
  {
    assert (t + [k])[..|t|] == t;
  }

  lemma {:induction false} WithoutConcat(a: seq<Id>, b: seq<Id>, gone: set<Id>)
    ensures Without(a + b, gone) == Without(a, gone) + Without(b, gone)
  {
    if b == [] {
      assert a + b == a;
    } else {
      hide Without;
      var b', k := b[..|b| - 1], b[|b| - 1];
      WithoutConcat(a, b', gone);
      WithoutSnoc(a + b', k, gone);
      WithoutSnoc(b', k, gone);
      SplitLast(a, b, if k in gone then [] else [k], Without(a, gone), Without(b', gone));
    }
  }

  lemma SplitLast(a: seq<Id>, b: seq<Id>, t: seq<Id>, x: seq<Id>, y: seq<Id>)
    requires b != []
    ensures a + b == (a + b[..|b| - 1]) + [b[|b| - 1]] && b == b[..|b| - 1] + [b[|b| - 1]]
    ensures x + y + t == x + (y + t)
  {
  }

  lemma {:induction false} WithoutAll(t: seq<Id>, gone: set<Id>)
    requires forall k :: k in t ==> k in gone
    ensures Without(t, gone) == []
  {
    if t != [] { WithoutAll(t[..|t| - 1], gone); }
  }

  /** Walking the sheet after a cascade delete is the old walk with the subtree's block cut out. */
  lemma {:induction false} DeletedWalk(f: Forest, n: Id, ks: seq<Id>, p: Option<Id>, d: nat)
    requires n in f.par && AllAt(f, ks, p)
    requires p.Some? ==> p.value in f.par && p.value !in Sub(f, n)
    ensures Walk(Deleted(f, n), Without(ks, Sub(f, n)), d) == Without(Walk(f, ks, d), Sub(f, n))
    decreases d, |ks|, 1
  {
    if d > 0 && ks != [] {
      var c := ks[0];
      assert c in ks;
      AllAtTail(f, ks, p);
      DeletedWalk(f, n, ks[1..], p, d);
      if c in Sub(f, n) {
        GoneStep(f, n, ks, d);
      } else {
        KeptBelow(f, n, c, d);
        KeptStep(f, Deleted(f, n), ks, d, Sub(f, n));
      }
    } else if d > 0 {
      assert Without(ks, Sub(f, n)) == [];
    }
  }

  lemma {:induction false} GoneStep(f: Forest, n: Id, ks: seq<Id>, d: nat)
    requires n in f.par && d > 0 && ks != [] && ks[0] in Sub(f, n)
    requires Walk(Deleted(f, n), Without(ks[1..], Sub(f, n)), d) == Without(Walk(f, ks[1..], d), Sub(f, n))
    ensures Walk(Deleted(f, n), Without(ks, Sub(f, n)), d) == Without(Walk(f, ks, d), Sub(f, n))
  {
    WithoutFirst(ks, Sub(f, n));
    WithoutWalk(f, ks, d, Sub(f, n));
    GoneWalk(f, n, ks[0], d);
    assert [] + Without(Walk(f, ks[1..], d), Sub(f, n)) == Without(Walk(f, ks[1..], d), Sub(f, n));
  }

  lemma {:induction false} KeptBelow(f: Forest, n: Id, c: Id, d: nat)
    requires n in f.par && d > 0 && c in f.par && c !in Sub(f, n)
    ensures Walk(Deleted(f, n), Kids(Deleted(f, n), Some(c)), d - 1) ==
            Without(Walk(f, Kids(f, Some(c)), d - 1), Sub(f, n))
    decreases d, 0, 0
  {
    hide Walk, Without, Kids, Deleted, Anc;
    KidsAt(f, Some(c));
    DeletedWalk(f, n, Kids(f, Some(c)), Some(c), d - 1);
    DeletedKids(f, n, Some(c));
  }

  lemma {:induction false} KeptStep(f: Forest, g: Forest, ks: seq<Id>, d: nat, gone: set<Id>)
    requires d > 0 && ks != [] && ks[0] !in gone
    requires Walk(g, Kids(g, Some(ks[0])), d - 1) == Without(Walk(f, Kids(f, Some(ks[0])), d - 1), gone)
    requires Walk(g, Without(ks[1..], gone), d) == Without(Walk(f, ks[1..], d), gone)
    ensures Walk(g, Without(ks, gone), d) == Without(Walk(f, ks, d), gone)
  {
    hide *;
    WalkKept(g, ks, d, gone);
    WithoutWalk(f, ks, d, gone);
  }

  lemma {:induction false} WalkKept(g: Forest, ks: seq<Id>, d: nat, gone: set<Id>)
    requires d > 0 && ks != [] && ks[0] !in gone
    ensures Walk(g, Without(ks, gone), d) ==
            [ks[0]] + Walk(g, Kids(g, Some(ks[0])), d - 1) + Walk(g, Without(ks[1..], gone), d)
  {
    hide *;
    WithoutFirst(ks, gone);
    WalkCons(g, ks[0], Without(ks[1..], gone), d);
  }

  lemma DeletedKids(f: Forest, n: Id, p: Option<Id>)
    requires n in f.par
    ensures Kids(Deleted(f, n), p) == Without(Kids(f, p), Sub(f, n))
  {
    KidsWithout(f.order, f.par, Sub(f, n), p);
  }

  lemma {:induction false} WithoutFirst(ks: seq<Id>, gone: set<Id>)
    requires ks != []
    ensures Without(ks, gone) == if ks[0] in gone then Without(ks[1..], gone) else [ks[0]] + Without(ks[1..], gone)
  {
    assert ks == [ks[0]] + ks[1..];
    WithoutConcat([ks[0]], ks[1..], gone);
    WithoutSnoc([], ks[0], gone);
    assert [] + [ks[0]] == [ks[0]];
  }

  lemma WithoutWalk(f: Forest, ks: seq<Id>, d: nat, gone: set<Id>)
    requires d > 0 && ks != []
    ensures Without(Walk(f, ks, d), gone)
            == (if ks[0] in gone then Without(Walk(f, Kids(f, Some(ks[0])), d - 1), gone)
                else [ks[0]] + Without(Walk(f, Kids(f, Some(ks[0])), d - 1), gone))
               + Without(Walk(f, ks[1..], d), gone)
  {
    var sub, rest := Walk(f, Kids(f, Some(ks[0])), d - 1), Walk(f, ks[1..], d);
    WithoutConcat([ks[0]] + sub, rest, gone);
    WithoutFirst([ks[0]] + sub, gone);
    assert ([ks[0]] + sub)[1..] == sub;
  }

  lemma GoneWalk(f: Forest, n: Id, c: Id, d: nat)
    requires n in f.par && c in Sub(f, n) && d > 0
    ensures Without(Walk(f, Kids(f, Some(c)), d - 1), Sub(f, n)) == []
  {
    KidsAt(f, Some(c));
    var sub := Walk(f, Kids(f, Some(c)), d - 1);
    forall k | k in sub
      ensures k in Sub(f, n)
    {
      WalkMembers(f, Kids(f, Some(c)), Some(c), d - 1, k);
      BelowGone(f, n, c, d, k);
    }
    WithoutAll(sub, Sub(f, n));
  }

  lemma WalkCons(f: Forest, c: Id, rest: seq<Id>, d: nat)
    requires d > 0
    ensures Walk(f, [c] + rest, d) == [c] + Walk(f, Kids(f, Some(c)), d - 1) + Walk(f, rest, d)
  {
    assert ([c] + rest)[1..] == rest;
  }

  lemma BelowGone(f: Forest, n: Id, c: Id, d: nat, k: Id)
    requires c in Sub(f, n) && n in f.par && d > 0 && Reached(f, Kids(f, Some(c)), d - 1, k)
    ensures k in Sub(f, n)
  {
    ReachedFirst(f, c, d, k);
    assert Anc(f, c, k);
    AncTrans(f, n, c, k);
  }

  ghost function Level(f: Forest, p: Option<Id>): nat
    requires AtNode(f, p)
  {
    match p case None => 0 case Some(n) => f.depth[n] + 1
  }

  lemma KidLevel(f: Forest, p: Option<Id>, c: Id)
    requires c in f.par && f.par[c] == p
    ensures AtNode(f, p) && f.depth[c] == Level(f, p) < |f.order|
  {
    assert f.LinkOk(c);
    DepthBound(f, c);
  }

  /** Listing more levels than the forest has changes nothing. */
  lemma {:induction false} WalkSaturates(f: Forest, ks: seq<Id>, p: Option<Id>, d: nat, e: nat)
    requires AllAt(f, ks, p) && AtNode(f, p)
    requires Level(f, p) + d >= |f.order| && Level(f, p) + e >= |f.order|
    ensures Walk(f, ks, d) == Walk(f, ks, e)
    decreases d, |ks|
  {
    if ks != [] {
      var c := ks[0];
      assert c in ks;
      KidLevel(f, p, c);
      KidsAt(f, Some(c));
      WalkSaturates(f, Kids(f, Some(c)), Some(c), d - 1, e - 1);
      AllAtTail(f, ks, p);
      WalkSaturates(f, ks[1..], p, d, e);
    }
  }

  /** A cascade delete cuts exactly the subtree's block out of the preorder. */
  lemma DeletePreorder(f: Forest, n: Id)
    requires n in f.par
    ensures Preorder(Deleted(f, n)) == Without(Preorder(f), Sub(f, n))
  {
    var g := Deleted(f, n);
    KidsAt(f, None);
    DeletedKids(f, n, None);
    DeletedWalk(f, n, Kids(f, None), None, |f.order|);
    KidsAt(g, None);
    CardMono(g.par.Keys, f.par.Keys);
    NodeCount(f);
    NodeCount(g);
    WalkSaturates(g, Kids(g, None), None, |f.order|, |g.order|);
  }
}
