/**
 * Forest edits: what create, move and cascade delete do to the parent links, and when the
 * result is still a forest.
 */
module ForestEdits {
  import opened Common
  import opened Forests

  function Created(f: Forest, n: Id, p: Option<Id>): (r: Forest)
    requires n !in f.par && AtNode(f, p)
  {
    var d: nat := match p case None => 0 case Some(q) => f.depth[q] + 1;
    var r := RawForest(f.order + [n], f.par[n := p], f.depth[n := d]);
    assert r.Valid() by {
      NoDupSnoc(f.order, n);
      forall k | k in r.par
        ensures r.LinkOk(k)
      {
        if k in f.par { assert f.LinkOk(k); }
      }
    }
    r
  }

  /** A row added under a parent that is no row leaves no forest: that is all creation needs its parent for. */
  lemma CreateUnderNobodyBreaks(f: Forest, n: Id, p: Id, d: map<Id, nat>)
    requires n !in f.par && p !in f.par
    ensures !RawForest(f.order + [n], f.par[n := Some(p)], d).Valid()
  {
    var r := RawForest(f.order + [n], f.par[n := Some(p)], d);
    assert n in r.par;
    if n in d { assert !r.LinkOk(n); }
  }

  function Moved(f: Forest, n: Id, p: Option<Id>): (r: Forest)
    requires n in f.par && AtNode(f, p)
    requires p.Some? ==> !Anc(f, n, p.value)
  {
    var r := RawForest(f.order, f.par[n := p], MovedDepth(f, n, p));
    assert r.Valid() by { MovedIsForest(f, n, p); }
    r
  }

  /** Depths after the move: the moved subtree keeps its shape below the new parent. */
  function MovedDepth(f: Forest, n: Id, p: Option<Id>): map<Id, nat>
    requires n in f.par && AtNode(f, p)
  {
    map k | k in f.par :: MovedDepthOf(f, n, p, k)
  }

  function MovedDepthOf(f: Forest, n: Id, p: Option<Id>, k: Id): nat
    requires n in f.par && AtNode(f, p) && k in f.par
  {
    var base: nat := match p case None => 0 case Some(q) => f.depth[q] + 1;
    if Anc(f, n, k) && f.depth[n] <= f.depth[k] then f.depth[k] - f.depth[n] + base else f.depth[k]
  }

  lemma {:induction false} MovedIsForest(f: Forest, n: Id, p: Option<Id>)
    requires n in f.par && AtNode(f, p)
    requires p.Some? ==> !Anc(f, n, p.value)
    ensures RawForest(f.order, f.par[n := p], MovedDepth(f, n, p)).Valid()
  {
    MovedKeys(f, n, p);
    hide MovedDepth, Anc, NoDup, RawForest.LinkOk;
    var r := RawForest(f.order, f.par[n := p], MovedDepth(f, n, p));
    forall k | k in r.par
      ensures r.LinkOk(k)
    {
      MovedLink(f, n, p, k);
      MovedLinkOk(f, n, p, k);
    }
  }

  lemma MovedKeys(f: Forest, n: Id, p: Option<Id>)
    requires n in f.par && AtNode(f, p)
    ensures f.par[n := p].Keys == f.par.Keys && MovedDepth(f, n, p).Keys == f.par.Keys
  {
  }

  lemma MovedLinkOk(f: Forest, n: Id, p: Option<Id>, k: Id)
    requires n in f.par && AtNode(f, p) && k in f.par
    requires k == n ==> MovedDepthOf(f, n, p, k) == match p case None => 0 case Some(q) => MovedDepthOf(f, n, p, q) + 1
    requires k != n ==> match f.par[k]
                        case None => MovedDepthOf(f, n, p, k) == 0
                        case Some(q) => q in f.par && MovedDepthOf(f, n, p, k) == MovedDepthOf(f, n, p, q) + 1
    ensures RawForest(f.order, f.par[n := p], MovedDepth(f, n, p)).LinkOk(k)
  {
  }

  lemma {:induction false} MovedLink(f: Forest, n: Id, p: Option<Id>, k: Id)
    requires n in f.par && AtNode(f, p) && k in f.par
    requires p.Some? ==> !Anc(f, n, p.value)
    ensures k == n ==> MovedDepthOf(f, n, p, k) == match p case None => 0 case Some(q) => MovedDepthOf(f, n, p, q) + 1
    ensures k != n ==> match f.par[k]
                       case None => MovedDepthOf(f, n, p, k) == 0
                       case Some(q) => q in f.par && MovedDepthOf(f, n, p, k) == MovedDepthOf(f, n, p, q) + 1
  {
    assert f.LinkOk(k);
    if k == n {
      assert Anc(f, n, n);
    } else if Anc(f, n, k) {
      AncDepth(f, n, k);
      AncDepth(f, n, f.par[k].value);
    }
  }

  /** The guard is needed: re-parenting a node into its own subtree leaves no forest at all. */
  lemma {:induction false} MoveIntoSubtreeBreaks(f: Forest, n: Id, p: Id, d: map<Id, nat>)
    requires n in f.par && p in f.par && Anc(f, n, p)
    ensures !RawForest(f.order, f.par[n := Some(p)], d).Valid()
  {
    var r := RawForest(f.order, f.par[n := Some(p)], d);
    if r.Valid() {
      assert r.LinkOk(n);
      ChainSurvives(f, r, n, p);
    }
  }

  lemma {:induction false} ChainSurvives(f: Forest, r: Forest, n: Id, k: Id)
    requires k in f.par && n in f.par && Anc(f, n, k)
    requires r.par.Keys == f.par.Keys
    requires forall j :: j in f.par && j != n ==> r.par[j] == f.par[j]
    ensures r.depth[n] <= r.depth[k]
    decreases f.depth[k]
  {
    assert f.LinkOk(k) && r.LinkOk(k);
    if k != n {
      ChainSurvives(f, r, n, f.par[k].value);
    }
  }

  /** Who is above whom after a move. */
  lemma {:induction false} MovedAnc(f: Forest, n: Id, p: Option<Id>, m: Id, k: Id)
    requires n in f.par && AtNode(f, p) && k in f.par
    requires p.Some? ==> !Anc(f, n, p.value)
    ensures Anc(Moved(f, n, p), m, k) <==>
            if Anc(f, n, k) then (Anc(f, m, k) && m in f.par && Anc(f, n, m)) || (p.Some? && Anc(f, m, p.value))
            else Anc(f, m, k)
    decreases MovedDepth(f, n, p)[k]
  {
    var r := Moved(f, n, p);
    assert f.LinkOk(k) && r.LinkOk(k);
    if Anc(f, m, k) { AncDepth(f, m, k); }
    if k == n {
      if p.Some? { MovedAnc(f, n, p, m, p.value); }
      if Anc(f, m, n) && Anc(f, n, m) { AncDepth(f, m, n); AncDepth(f, n, m); }
    } else if k != m && f.par[k].Some? {
      MovedAnc(f, n, p, m, f.par[k].value);
      if Anc(f, n, k) && Anc(f, m, k) { AncDepth(f, m, f.par[k].value); }
    }
  }

  // ----- cascade delete -----

  function Without(order: seq<Id>, gone: set<Id>): seq<Id> {
    if order == [] then []
    else
      var k := order[|order| - 1];
      Without(order[..|order| - 1], gone) + (if k in gone then [] else [k])
  }

  lemma {:induction false} WithoutMembers(order: seq<Id>, gone: set<Id>)
    requires NoDup(order)
    ensures forall k :: k in Without(order, gone) <==> k in order && k !in gone
    ensures NoDup(Without(order, gone))
  {
    if order != [] {
      var k, rest := order[|order| - 1], order[..|order| - 1];
      assert order == rest + [k];
      WithoutMembers(rest, gone);
      assert k !in Without(rest, gone);
      if k !in gone {
        NoDupSnoc(Without(rest, gone), k);
        assert Without(order, gone) == Without(rest, gone) + [k];
      } else {
        assert Without(order, gone) == Without(rest, gone);
      }
    }
  }

  function Deleted(f: Forest, n: Id): (r: Forest)
    requires n in f.par
  {
    var r := RawForest(Without(f.order, Sub(f, n)), f.par - Sub(f, n), f.depth - Sub(f, n));
    assert r.Valid() by { DeletedIsForest(f, n); }
    r
  }

  lemma DeletedIsForest(f: Forest, n: Id)
    requires n in f.par
    ensures RawForest(Without(f.order, Sub(f, n)), f.par - Sub(f, n), f.depth - Sub(f, n)).Valid()
  {
    var r := RawForest(Without(f.order, Sub(f, n)), f.par - Sub(f, n), f.depth - Sub(f, n));
    WithoutMembers(f.order, Sub(f, n));
    forall k | k in r.par
      ensures r.LinkOk(k)
    {
      assert f.LinkOk(k);
    }
  }

  /** Deleting a subtree changes no ancestor of any survivor. */
  lemma {:induction false} DeletedAnc(f: Forest, n: Id, m: Id, k: Id)
    requires n in f.par && k in f.par && k !in Sub(f, n)
    ensures Anc(Deleted(f, n), m, k) <==> Anc(f, m, k)
    ensures Anc(f, m, k) ==> m in f.par && m !in Sub(f, n)
    decreases f.depth[k]
  {
    var r := Deleted(f, n);
    assert f.LinkOk(k) && r.LinkOk(k);
    if m != k && f.par[k].Some? {
      DeletedAnc(f, n, m, f.par[k].value);
    }
  }
}
