/** What the edits do to the rows, said row by row: parents, sibling order, and when a move is refused. */
module EditLaws {
  import opened Common
  import opened Forests
  import opened ForestEdits
  import opened TreeRepository

  // ----- children and parents -----

  /** Siblings stand in the order their rows were inserted. */
  lemma {:induction false} KidsOfPlaces(order: seq<Id>, par: map<Id, Option<Id>>, p: Option<Id>, a: Id, b: Id)
    ensures a in KidsOf(order, par, p) <==> a in order && a in par && par[a] == p
    ensures Before(KidsOf(order, par, p), a, b) <==>
            a in par && par[a] == p && b in par && par[b] == p && Before(order, a, b)
  {
    if order != [] {
      var rest, k := order[..|order| - 1], order[|order| - 1];
      assert order == rest + [k];
      KidsOfPlaces(rest, par, p, a, b);
      BeforeConcat(rest, [k], a, b);
      BeforeSingle(k, a, b);
      BeforeConcat(KidsOf(rest, par, p), if k in par && par[k] == p then [k] else [], a, b);
    }
  }

  lemma KidsPlaces(f: Forest, p: Option<Id>, a: Id, b: Id)
    requires a in f.par && b in f.par
    ensures a in Kids(f, p) <==> f.par[a] == p
    ensures Before(Kids(f, p), a, b) <==> f.par[a] == p && f.par[b] == p && Before(f.order, a, b)
  {
    KidsOfPlaces(f.order, f.par, p, a, b);
  }

  /** The chain starts at the row, goes on with parents, and ends at a root. */
  lemma {:induction false} ChainIsParents(f: Forest, k: Id)
    requires k in f.par
    ensures var chain := ParentChain(f, k);
            && chain != [] && chain[0] == k
            && (forall i :: 0 <= i < |chain| ==> chain[i] in f.par)
            && (forall i :: 0 <= i < |chain| - 1 ==> f.par[chain[i]] == Some(chain[i + 1]))
            && f.par[chain[|chain| - 1]] == None
    decreases f.depth[k]
  {
    assert f.LinkOk(k);
    if f.par[k].Some? { ChainIsParents(f, f.par[k].value); }
  }

  /** A row is an ancestor-or-self exactly when it stands in that chain. */
  lemma {:induction false} AncIsInChain(f: Forest, m: Id, k: Id)
    requires k in f.par
    ensures Anc(f, m, k) <==> m in ParentChain(f, k)
    decreases f.depth[k]
  {
    assert f.LinkOk(k);
    if f.par[k].Some? { AncIsInChain(f, m, f.par[k].value); }
  }

  // ----- rows after an edit -----

  lemma {:induction false} KidsOfFrame(order: seq<Id>, par: map<Id, Option<Id>>, n: Id, p: Option<Id>, q: Option<Id>)
    requires n !in order
    ensures KidsOf(order, par[n := p], q) == KidsOf(order, par, q)
  {
    if order != [] { KidsOfFrame(order[..|order| - 1], par, n, p, q); }
  }

  lemma KidsCreated(f: Forest, n: Id, p: Option<Id>, q: Option<Id>)
    requires n !in f.par && AtNode(f, p)
    ensures Kids(Created(f, n, p), q) == Kids(f, q) + (if q == p then [n] else [])
    ensures q == Some(n) ==> Kids(f, q) == []
  {
    CreatedRows(f, n, p);
    hide *;
    NobodyBelow(f, n);
    KidsAreOf(f, q);
    KidsAreOf(Created(f, n, p), q);
    KidsOfFrame(f.order, f.par, n, p, q);
    KidsOfLast(f.order, f.par[n := p], n, q);
  }

  lemma CreatedRows(f: Forest, n: Id, p: Option<Id>)
    requires n !in f.par && AtNode(f, p)
    ensures Created(f, n, p).order == f.order + [n] && Created(f, n, p).par == f.par[n := p] && n !in f.order
  {
  }

  lemma {:induction false} KidsAreOf(f: Forest, q: Option<Id>)
    ensures Kids(f, q) == KidsOf(f.order, f.par, q)
  {
  }

  lemma {:induction false} KidsOfLast(order: seq<Id>, par: map<Id, Option<Id>>, k: Id, q: Option<Id>)
    ensures KidsOf(order + [k], par, q) == KidsOf(order, par, q) + (if k in par && par[k] == q then [k] else [])
  {
    assert (order + [k])[..|order|] == order;
  }

  lemma NobodyBelow(f: Forest, n: Id)
    requires n !in f.par
    ensures Kids(f, Some(n)) == []
  {
    var kids := Kids(f, Some(n));
    assert |kids| > 0 ==> kids[0] in kids;
    KidsMembers(f, Some(n));
    forall k | k in f.par
      ensures f.par[k] != Some(n)
    {
      assert f.LinkOk(k);
    }
  }

  /** A new row is the last child of its parent; no other row changes its parent or its siblings. */
  lemma CreatedIsLastChild(f: Forest, n: Id, p: Option<Id>)
    requires n !in f.par && AtNode(f, p)
    ensures Created(f, n, p).par == f.par[n := p]
    ensures forall q :: Kids(Created(f, n, p), q) == Kids(f, q) + (if q == p then [n] else [])
  {
    CreatedRows(f, n, p);
    hide *;
    forall q
      ensures Kids(Created(f, n, p), q) == Kids(f, q) + (if q == p then [n] else [])
    {
      KidsCreated(f, n, p, q);
    }
  }

  /**
   * A move changes one parent.  Rows keep their insertion order, so the moved row stands among its new
   * siblings where it was inserted, not last.
   */
  lemma {:induction false} MovedRows(f: Forest, n: Id, p: Option<Id>, a: Id, b: Id)
    requires n in f.par && AtNode(f, p) && (p.Some? ==> !Anc(f, n, p.value))
    requires a in f.par && b in f.par
    ensures Moved(f, n, p).par == f.par[n := p]
    ensures forall q :: Before(Kids(Moved(f, n, p), q), a, b) <==>
                        f.par[n := p][a] == q && f.par[n := p][b] == q && Before(f.order, a, b)
  {
    var g := Moved(f, n, p);
    assert g.order == f.order && g.par == f.par[n := p];
    hide *;
    forall q
      ensures Before(Kids(g, q), a, b) <==> f.par[n := p][a] == q && f.par[n := p][b] == q && Before(f.order, a, b)
    {
      KidsPlaces(g, q, a, b);
    }
  }

  lemma {:induction false} WithoutPlaces(order: seq<Id>, gone: set<Id>, a: Id, b: Id)
    ensures a in Without(order, gone) <==> a in order && a !in gone
    ensures b in Without(order, gone) <==> b in order && b !in gone
    ensures Before(Without(order, gone), a, b) <==> a !in gone && b !in gone && Before(order, a, b)
  {
    if order != [] {
      var rest, k := order[..|order| - 1], order[|order| - 1];
      assert order == rest + [k];
      WithoutPlaces(rest, gone, a, b);
      BeforeConcat(rest, [k], a, b);
      BeforeSingle(k, a, b);
      BeforeConcat(Without(rest, gone), if k in gone then [] else [k], a, b);
    }
  }

  /** A cascade delete takes exactly the rows at or below `n`; the others keep their parent and their order. */
  lemma {:induction false} DeletedRowsAre(f: Forest, n: Id, a: Id, b: Id)
    requires n in f.par && a in f.par && b in f.par
    ensures a in Deleted(f, n).par <==> !Anc(f, n, a)
    ensures a in Deleted(f, n).par ==> Deleted(f, n).par[a] == f.par[a]
    ensures Before(Deleted(f, n).order, a, b) <==> !Anc(f, n, a) && !Anc(f, n, b) && Before(f.order, a, b)
  {
    WithoutPlaces(f.order, Sub(f, n), a, b);
  }

  // ----- when a move is refused -----

  /**
   * A move is a cycle exactly when the new parent is the row or below it, finds nothing exactly when
   * one of the two rows is missing, and is stale exactly when all is well but its anchor is gone.
   */
  lemma {:induction false} MoveRefusedExactly(f: Forest, n: Id, p: Option<Id>, anchor: Option<Id>)
    ensures MoveError(f, n, p, anchor) == Some(NotFound) <==> n !in f.par || !AtNode(f, p)
    ensures MoveError(f, n, p, anchor) == Some(Cycle) <==> n in f.par && p.Some? && AtNode(f, p) && Anc(f, n, p.value)
    ensures MoveError(f, n, p, anchor) == Some(StaleMove) <==>
            && n in f.par && AtNode(f, p) && (p.Some? ==> !Anc(f, n, p.value))
            && anchor.Some? && anchor.value !in f.par
    ensures MoveError(f, n, p, anchor) == None <==>
            && n in f.par && AtNode(f, p) && (p.Some? ==> !Anc(f, n, p.value)) && AtNode(f, anchor)
  {
    if n in f.par { assert f.LinkOk(n); }
  }
}
