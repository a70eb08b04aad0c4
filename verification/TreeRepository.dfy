/**
 * The sheet as a repository keeps it: rows, parent links, stored lft/rgt and cells, all
 * updated in place.
 */
module TreeRepository {
  import opened Common
  import opened Forests
  import opened NestedSets
  import opened ForestEdits
  import opened Sorting
  import opened Preorders

  type Value = string

  datatype Cell = Cell(value: Value, version: nat)

  datatype RepoError = NotFound | Cycle | StaleMove | StaleVersion(current: nat)

  /** Whether a move is refused, and why, in the order the checks are made. */
  function MoveError(f: Forest, n: Id, newParent: Option<Id>, anchor: Option<Id>): Option<RepoError> {
    if n !in f.par then Some(NotFound)
    else if newParent == Some(n) then Some(Cycle)
    else if newParent.Some? && newParent.value !in f.par then Some(NotFound)
    else if newParent.Some? && Anc(f, n, newParent.value) then Some(Cycle)
    else if anchor.Some? && anchor.value !in f.par then Some(StaleMove)
    else None
  }

  function Get(children: map<Option<Id>, seq<Id>>, p: Option<Id>): seq<Id> {
    if p in children then children[p] else []
  }

  lemma {:induction false} KidsOfSnoc(order: seq<Id>, par: map<Id, Option<Id>>, i: nat)
    requires i < |order| && order[i] in par
    ensures forall p :: KidsOf(order[..i + 1], par, p) ==
                        KidsOf(order[..i], par, p) + (if par[order[i]] == p then [order[i]] else [])
  {
    assert order[..i + 1][..i] == order[..i];
  }

  function CellsOutside(cells: map<(Id, Id), Cell>, gone: set<Id>): (r: map<(Id, Id), Cell>)
    ensures forall nc :: nc in r <==> nc in cells && nc.0 !in gone
    ensures forall nc :: nc in r ==> r[nc] == cells[nc]
  {
    map nc | nc in cells && nc.0 !in gone :: cells[nc]
  }

  /** Row ids come from the counter. */
  ghost predicate Drawn(par: map<Id, Option<Id>>, nextId: Id) {
    forall n :: n in par ==> n < nextId
  }

  ghost predicate IsTable(children: map<Option<Id>, seq<Id>>, f: Forest) {
    forall p {:trigger Get(children, p)} :: Get(children, p) == Kids(f, p)
  }

  ghost predicate AgreeOutside(x: Index, y: Index, s: set<Id>) {
    forall k :: k !in s ==> x.L(k) == y.L(k) && x.R(k) == y.R(k)
  }

  lemma AgreeTrans(x: Index, y: Index, z: Index, s: set<Id>, t: set<Id>, u: set<Id>)
    requires AgreeOutside(x, y, s) && AgreeOutside(y, z, t) && s + t <= u
    ensures AgreeOutside(x, z, u)
  {
  }

  /** `KidsLaid` reads the index at `q` and at its children only. */
  lemma KidsLaidFrame(x: Index, y: Index, q: Id, kids: seq<Id>, s: set<Id>)
    requires KidsLaid(x, Some(q), kids) && AgreeOutside(x, y, s)
    requires q !in s && forall i :: 0 <= i < |kids| ==> kids[i] !in s
    ensures KidsLaid(y, Some(q), kids)
  {
    forall i | 0 <= i < |kids|
      ensures KidOpens(y, Some(q), kids, i)
    {
      assert KidOpens(x, Some(q), kids, i);
    }
  }

  /** Renumbering a set that avoids the subtree of `q` keeps what was laid out at `q`. */
  lemma KidsIndexedFrame(f: Forest, x: Index, y: Index, q: Id, s: set<Id>)
    requires q in f.par && KidsIndexed(f, x, Some(q)) && AgreeOutside(x, y, s) && Sub(f, q) !! s
    ensures KidsIndexed(f, y, Some(q))
  {
    assert q in Sub(f, q) by { assert Anc(f, q, q); }
    var kids := Kids(f, Some(q));
    forall i | 0 <= i < |kids|
      ensures kids[i] in Sub(f, q)
    {
      assert kids[i] in kids;
      UnderKid(f, Some(q), kids[i]);
    }
    KidsLaidFrame(x, y, q, kids, s);
  }

  /** The first `i` of the children are laid out gaplessly and the counter stands at `next`. */
  ghost predicate LaidUpTo(x: Index, p: Option<Id>, kids: seq<Id>, i: nat, next: nat)
    requires i <= |kids|
  {
    && next == Cursor(x, p, kids, i)
    && forall j :: 0 <= j < i ==> KidOpens(x, p, kids, j)
  }

  lemma LayNextKid(x: Index, y: Index, p: Option<Id>, kids: seq<Id>, i: nat, next: nat, s: set<Id>)
    requires i < |kids| && LaidUpTo(x, p, kids, i, next) && AgreeOutside(x, y, s)
    requires p.Some? ==> p.value !in s
    requires forall j :: 0 <= j < i ==> kids[j] !in s
    requires y.L(kids[i]) == next
    ensures LaidUpTo(y, p, kids, i + 1, y.R(kids[i]) + 1)
  {
    forall j | 0 <= j < i + 1
      ensures KidOpens(y, p, kids, j)
    {
      if j < i { assert KidOpens(x, p, kids, j); }
    }
  }

  /** The subtrees of the first `i` children are numbered inside. */
  ghost predicate InnerIndexed(f: Forest, x: Index, s: set<Id>) {
    && x.Covers(s)
    && forall q {:trigger KidsIndexed(f, x, Some(q))} :: q in s ==> KidsIndexed(f, x, Some(q))
  }

  lemma EarlierKid(f: Forest, p: Option<Id>, i: nat, j: nat)
    requires AtNode(f, p) && j < i < |Kids(f, p)|
    ensures Kids(f, p)[j] !in Sub(f, Kids(f, p)[i])
  {
    assert Kids(f, p)[j] in Kids(f, p) && Kids(f, p)[i] in Kids(f, p);
    KidsMembers(f, p);
    NoDupAt(Kids(f, p), j, i);
    SiblingsDisjoint(f, p, Kids(f, p)[i], Kids(f, p)[j]);
  }

  lemma {:induction false} EarlierBelow(f: Forest, x: Index, y: Index, p: Option<Id>, i: nat, q: Id)
    requires AtNode(f, p) && i < |Kids(f, p)| && q in SubFirst(f, p, i)
    requires AgreeOutside(x, y, Sub(f, Kids(f, p)[i]))
    requires KidsIndexed(f, x, Some(q))
    ensures KidsIndexed(f, y, Some(q))
  {
    SubFirstMembers(f, p, i);
    SubFirstApart(f, p, i, i);
    var j :| 0 <= j < i && q in Sub(f, Kids(f, p)[j]);
    forall k | k in Sub(f, q)
      ensures k in SubFirst(f, p, i)
    {
      AncTrans(f, Kids(f, p)[j], q, k);
      assert k in Sub(f, Kids(f, p)[j]);
    }
    KidsIndexedFrame(f, x, y, q, Sub(f, Kids(f, p)[i]));
  }

  lemma NumberNextKid(f: Forest, x: Index, y: Index, p: Option<Id>, i: nat, next: nat)
    requires AtNode(f, p) && i < |Kids(f, p)|
    requires LaidUpTo(x, p, Kids(f, p), i, next) && InnerIndexed(f, x, SubFirst(f, p, i))
    requires AgreeOutside(x, y, Sub(f, Kids(f, p)[i]))
    requires x.lft.Keys <= y.lft.Keys && x.rgt.Keys <= y.rgt.Keys
    requires y.L(Kids(f, p)[i]) == next && InnerIndexed(f, y, Sub(f, Kids(f, p)[i]))
    ensures LaidUpTo(y, p, Kids(f, p), i + 1, y.R(Kids(f, p)[i]) + 1)
    ensures InnerIndexed(f, y, SubFirst(f, p, i + 1))
  {
    var c := Kids(f, p)[i];
    assert c in Kids(f, p);
    UnderKid(f, p, c);
    forall j | 0 <= j < i
      ensures Kids(f, p)[j] !in Sub(f, c)
    {
      EarlierKid(f, p, i, j);
    }
    LayNextKid(x, y, p, Kids(f, p), i, next, Sub(f, c));
    forall q | q in SubFirst(f, p, i)
      ensures KidsIndexed(f, y, Some(q))
    {
      EarlierBelow(f, x, y, p, i, q);
    }
  }

  /** Closing `n` finishes the numbering of its whole subtree. */
  lemma NumberClosed(f: Forest, x: Index, y: Index, n: Id, q: Id)
    requires n in f.par && q in Sub(f, n)
    requires LaidUpTo(x, Some(n), Kids(f, Some(n)), |Kids(f, Some(n))|, y.R(n))
    requires InnerIndexed(f, x, Under(f, Some(n)))
    requires AgreeOutside(x, y, {n}) && x.L(n) == y.L(n)
    ensures KidsIndexed(f, y, Some(q))
  {
    if q != n {
      if n in Sub(f, q) { AncDepth(f, q, n); AncDepth(f, n, q); }
      KidsIndexedFrame(f, x, y, q, {n});
    } else {
      var kids := Kids(f, Some(n));
      forall i | 0 <= i < |kids|
        ensures kids[i] != n
      {
        assert kids[i] in kids;
        UnderKid(f, Some(n), kids[i]);
      }
      LaidClosed(x, y, n, kids);
    }
  }

  lemma SubtreeClosed(f: Forest, x: Index, y: Index, n: Id)
    requires n in f.par && n in x.lft && y == x.(rgt := x.rgt[n := y.R(n)])
    requires LaidUpTo(x, Some(n), Kids(f, Some(n)), |Kids(f, Some(n))|, y.R(n))
    requires InnerIndexed(f, x, Under(f, Some(n)))
    ensures InnerIndexed(f, y, Sub(f, n))
  {
    forall q | q in Sub(f, n)
      ensures KidsIndexed(f, y, Some(q))
    {
      NumberClosed(f, x, y, n, q);
    }
  }

  /** Opening `n`, numbering everything below it and closing it numbers the subtree of `n`. */
  lemma {:induction false} VisitNumbersSubtree(f: Forest, x0: Index, x2: Index, n: Id, counter: nat, next: nat)
    requires n in f.par && counter + 1 + 2 * Width(f, Some(n), |Kids(f, Some(n))|) == next
    requires AgreeOutside(x0.(lft := x0.lft[n := counter]), x2, Under(f, Some(n)))
    requires x0.lft.Keys + {n} <= x2.lft.Keys && x0.rgt.Keys <= x2.rgt.Keys
    requires LaidUpTo(x2, Some(n), Kids(f, Some(n)), |Kids(f, Some(n))|, next)
    requires InnerIndexed(f, x2, Under(f, Some(n)))
    ensures var x3 := x2.(rgt := x2.rgt[n := next]);
            && x3.L(n) == counter && x3.R(n) == next && next + 1 == counter + 2 * Size(f, n)
            && AgreeOutside(x0, x3, Sub(f, n)) && InnerIndexed(f, x3, Sub(f, n))
  {
    WidthAll(f, Some(n));
    UnderSelf(f, n);
    AgreeVisit(x0, x2, n, counter, next, Under(f, Some(n)), Sub(f, n));
    SubtreeClosed(f, x2, x2.(rgt := x2.rgt[n := next]), n);
  }

  /** Where the loop over the children of `p` stands after `i` of them. */
  ghost predicate Progress(f: Forest, x0: Index, x: Index, p: Option<Id>, i: nat, counter: nat, next: nat)
    requires i <= |Kids(f, p)|
  {
    && next == counter + 2 * Width(f, p, i)
    && LaidUpTo(x, p, Kids(f, p), i, next) && InnerIndexed(f, x, SubFirst(f, p, i))
    && AgreeOutside(x0, x, Under(f, p))
    && x0.lft.Keys <= x.lft.Keys && x0.rgt.Keys <= x.rgt.Keys
  }

  lemma ProgressStart(f: Forest, x: Index, p: Option<Id>, counter: nat)
    requires counter == Start(x, p)
    ensures Progress(f, x, x, p, 0, counter, counter)
  {
  }

  lemma {:induction false} ProgressSoFar(f: Forest, x0: Index, x: Index, p: Option<Id>, i: nat, counter: nat, next: nat)
    requires i <= |Kids(f, p)| && Progress(f, x0, x, p, i, counter, next)
    ensures next == counter + 2 * Width(f, p, i)
  {
  }

  lemma {:induction false} ProgressDone(f: Forest, x0: Index, x: Index, p: Option<Id>, counter: nat, next: nat)
    requires AtNode(f, p) && Progress(f, x0, x, p, |Kids(f, p)|, counter, next)
    ensures next == counter + 2 * Width(f, p, |Kids(f, p)|)
    ensures LaidUpTo(x, p, Kids(f, p), |Kids(f, p)|, next) && InnerIndexed(f, x, Under(f, p))
    ensures AgreeOutside(x0, x, Under(f, p)) && x0.lft.Keys <= x.lft.Keys && x0.rgt.Keys <= x.rgt.Keys
  {
    SubFirstAll(f, p);
  }

  lemma ProgressStep(f: Forest, x0: Index, x: Index, y: Index, p: Option<Id>, i: nat, counter: nat, next: nat)
    requires AtNode(f, p) && i < |Kids(f, p)| && Progress(f, x0, x, p, i, counter, next)
    requires y.L(Kids(f, p)[i]) == next && y.R(Kids(f, p)[i]) + 1 == next + 2 * Size(f, Kids(f, p)[i])
    requires AgreeOutside(x, y, Sub(f, Kids(f, p)[i])) && InnerIndexed(f, y, Sub(f, Kids(f, p)[i]))
    requires x.lft.Keys <= y.lft.Keys && x.rgt.Keys <= y.rgt.Keys
    ensures Progress(f, x0, y, p, i + 1, counter, y.R(Kids(f, p)[i]) + 1)
  {
    assert Kids(f, p)[i] in Kids(f, p);
    UnderKid(f, p, Kids(f, p)[i]);
    NumberNextKid(f, x, y, p, i, next);
    AgreeTrans(x0, x, y, Under(f, p), Sub(f, Kids(f, p)[i]), Under(f, p));
  }

  lemma {:induction false} KidFits(f: Forest, p: Option<Id>, i: nat)
    requires AtNode(f, p) && i < |Kids(f, p)|
    ensures var c := Kids(f, p)[i];
            && c in f.par && Under(f, Some(c)) < Under(f, p)
            && Width(f, p, i) + Size(f, c) <= Width(f, p, |Kids(f, p)|)
  {
    assert Kids(f, p)[i] in Kids(f, p);
    UnderKid(f, p, Kids(f, p)[i]);
    WidthFits(f, p, i + 1);
    WidthAll(f, p);
  }

  lemma AgreeVisit(x0: Index, x2: Index, n: Id, counter: nat, next: nat, u: set<Id>, s: set<Id>)
    requires AgreeOutside(x0.(lft := x0.lft[n := counter]), x2, u)
    requires n !in u && u + {n} <= s
    ensures x2.L(n) == counter && AgreeOutside(x0, x2.(rgt := x2.rgt[n := next]), s)
  {
  }

  lemma LaidClosed(x: Index, y: Index, n: Id, kids: seq<Id>)
    requires LaidUpTo(x, Some(n), kids, |kids|, y.R(n)) && AgreeOutside(x, y, {n}) && x.L(n) == y.L(n)
    requires n !in kids
    ensures KidsLaid(y, Some(n), kids)
  {
    forall i | 0 <= i < |kids|
      ensures KidOpens(y, Some(n), kids, i)
    {
      assert KidOpens(x, Some(n), kids, i);
    }
  }

  lemma {:induction false} DeletedRows(f: Forest, n: Id, gone: set<Id>)
    requires n in f.par && gone == set m | m in [n] + Walk(f, Kids(f, Some(n)), |f.order|)
    ensures gone == Sub(f, n)
    ensures Deleted(f, n).order == Without(f.order, gone) && Deleted(f, n).par == f.par - gone
  {
    KidsAt(f, Some(n));
    UnderSelf(f, n);
    forall k
      ensures k in gone <==> k in Sub(f, n)
    {
      WalkMembers(f, Kids(f, Some(n)), Some(n), |f.order|, k);
      ReachedUnder(f, Some(n), k);
    }
  }

  class Repo {
    var order: seq<Id>
    var par: map<Id, Option<Id>>
    var lft: map<Id, nat>
    var rgt: map<Id, nat>
    var cells: map<(Id, Id), Cell>
    var nextId: Id
    /** The forest these rows describe. */
    ghost var forest: Forest

    ghost function X(): Index
      reads this
    {
      Index(lft, rgt)
    }

    ghost predicate Linked()
      reads this
    {
      order == forest.order && par == forest.par
    }

    ghost predicate Valid()
      reads this
    {
      && Linked()
      && Indexed(forest, X())
      && Drawn(par, nextId)
    }

    ghost function S(): Sheet
      requires Valid()
      reads this
    {
      RawSheet(forest, X())
    }

    constructor ()
      ensures Valid() && order == [] && cells == map[]
    {
      order, par, lft, rgt, cells, nextId := [], map[], map[], map[], map[], 0;
      forest := RawForest([], map[], map[]);
    }

    // ----- numbering -----

    method ChildrenTable() returns (children: map<Option<Id>, seq<Id>>)
      requires Linked()
      ensures IsTable(children, forest)
    {
      children := map[];
      for i := 0 to |order|
        invariant forall p :: Get(children, p) == KidsOf(order[..i], par, p)
      {
        var n := order[i];
        assert n in par;
        KidsOfSnoc(order, par, i);
        ghost var was := children;
        children := children[par[n] := Get(children, par[n]) + [n]];
        forall p
          ensures Get(children, p) == KidsOf(order[..i + 1], par, p)
        {
          assert Get(was, p) == KidsOf(order[..i], par, p);
        }
      }
      assert order[..|order|] == order;
    }

    method Visit(children: map<Option<Id>, seq<Id>>, n: Id, counter: nat, ghost f: Forest) returns (next: nat)
      requires Linked() && forest == f && IsTable(children, f)
      requires n in par && 1 <= counter && counter + 2 * Size(f, n) <= 2 * |order| + 1
      modifies this`lft, this`rgt
      ensures next == counter + 2 * Size(f, n)
      ensures X().L(n) == counter && X().R(n) + 1 == next
      ensures AgreeOutside(old(X()), X(), Sub(f, n)) && InnerIndexed(f, X(), Sub(f, n))
      ensures old(lft.Keys) <= lft.Keys && old(rgt.Keys) <= rgt.Keys
      decreases Under(f, Some(n)), |order| + 1
    {
      ghost var x0 := X();
      WidthAll(f, Some(n));
      assert counter <= 2 * |order|; // the numbering iterator still has a value
      lft := lft[n := counter];
      next := VisitKids(children, Some(n), counter + 1, f);
      assert next <= 2 * |order|; // and one to close with
      VisitNumbersSubtree(f, x0, X(), n, counter, next);
      rgt := rgt[n := next];
      next := next + 1;
    }

    method VisitKids(children: map<Option<Id>, seq<Id>>, p: Option<Id>, counter: nat, ghost f: Forest)
      returns (next: nat)
      requires Linked() && forest == f && AtNode(f, p) && IsTable(children, f)
      requires 1 <= counter && counter + 2 * Width(f, p, |Kids(f, p)|) <= 2 * |order| + 1
      requires counter == Start(X(), p)
      modifies this`lft, this`rgt
      ensures next == counter + 2 * Width(f, p, |Kids(f, p)|)
      ensures LaidUpTo(X(), p, Kids(f, p), |Kids(f, p)|, next) && InnerIndexed(f, X(), Under(f, p))
      ensures AgreeOutside(old(X()), X(), Under(f, p))
      ensures old(lft.Keys) <= lft.Keys && old(rgt.Keys) <= rgt.Keys
      decreases Under(f, p), |order|
    {
      hide LaidUpTo, InnerIndexed, AgreeOutside, Width, SubFirst, Kids, Progress;
      var kids := Get(children, p);
      next := counter;
      ProgressStart(f, X(), p, counter);
      for i := 0 to |kids|
        invariant Progress(f, old(X()), X(), p, i, counter, next)
      {
        ProgressSoFar(f, old(X()), X(), p, i, counter, next);
        KidFits(f, p, i);
        ghost var x, was := X(), next;
        next := Visit(children, kids[i], next, f);
        ProgressStep(f, old(X()), x, X(), p, i, counter, was);
      }
      ProgressDone(f, old(X()), X(), p, counter, next);
    }

    /** Assign lft/rgt to the whole sheet, depth first. */
    method RebuildNestedSet()
      requires Linked()
      modifies this`lft, this`rgt
      ensures Indexed(forest, X())
    {
      var children := ChildrenTable();
      WidthAll(forest, None);
      var next := VisitKids(children, None, 1, forest);
    }

    /** Store edited rows and renumber them. */
    method Store(newOrder: seq<Id>, newPar: map<Id, Option<Id>>, ghost g: Forest)
      requires newOrder == g.order && newPar == g.par
      modifies this`order, this`par, this`forest, this`lft, this`rgt
      ensures Linked() && forest == g && Indexed(g, X())
    {
      order, par := newOrder, newPar;
      forest := g;
      RebuildNestedSet();
    }

    // ----- queries -----

    /** The node and its ancestors, nearest first. */
    method AncestorsSelf(n: Id) returns (r: Result<seq<Id>, RepoError>)
      requires Valid()
      ensures r == if n in par then Ok(ParentChain(forest, n)) else Err(NotFound)
    {
      if n !in par { return Err(NotFound); }
      AncestorQuery(S(), n);
      r := Ok(Reverse(SortBy(Keep(order, AncestorRows(order, Index(lft, rgt), n)), lft)));
    }

    /** The proper subtree of a node, parents before children. */
    method Descendants(n: Id) returns (r: Result<seq<Id>, RepoError>)
      requires Valid()
      ensures r == if n in par then Ok(Walk(forest, Kids(forest, Some(n)), |order|)) else Err(NotFound)
    {
      if n !in par { return Err(NotFound); }
      DescendantQuery(S(), n);
      r := Ok(SortBy(Keep(order, DescendantRows(order, Index(lft, rgt), n)), lft));
    }

    method ListNodes() returns (r: seq<Id>)
      requires Valid()
      ensures r == Preorder(forest)
    {
      PreorderQuery(S());
      r := SortBy(order, lft);
    }

    // ----- mutators -----

    method CreateNode(p: Option<Id>) returns (n: Id)
      requires Valid() && (p.Some? ==> p.value in par)
      modifies this
      ensures Valid() && n == old(nextId) && n !in old(par)
      ensures forest == Created(old(forest), n, p)
      ensures cells == old(cells)
    {
      hide Indexed, NoDup;
      n := nextId;
      nextId := nextId + 1;
      ghost var f := forest;
      ghost var g := Created(f, n, p);
      Store(order + [n], par[n := p], g);
      assert par.Keys == f.par.Keys + {n};
    }

    /**
     * Upsert one cell, whether or not the row exists; a version guard that does not match the stored
     * counter refuses the write.
     */
    method SetValue(n: Id, c: Id, value: Value, expected: Option<nat>) returns (r: Result<nat, RepoError>)
      requires Valid()
      modifies this`cells
      ensures Valid()
      ensures var current := if (n, c) in old(cells) then old(cells)[(n, c)].version else 0;
              if expected.Some? && expected.value != current
              then r == Err(StaleVersion(current)) && cells == old(cells)
              else r == Ok(current + 1) && cells == old(cells)[(n, c) := Cell(value, current + 1)]
    {
      if (n, c) in cells {
        var row := cells[(n, c)];
        if expected.Some? && row.version != expected.value {
          return Err(StaleVersion(row.version));
        }
        cells := cells[(n, c) := Cell(value, row.version + 1)];
        return Ok(row.version + 1);
      }
      if expected.Some? && expected.value != 0 {
        return Err(StaleVersion(0));
      }
      cells := cells[(n, c) := Cell(value, 1)];
      r := Ok(1);
    }

    /** Re-parent and renumber.  The guard reads the stored interval, not the parent chain. */
    method MoveNode(n: Id, newParent: Option<Id>, anchor: Option<Id>) returns (r: Option<RepoError>)
      requires Valid()
      modifies this
      ensures Valid() && cells == old(cells)
      ensures r == old(MoveError(forest, n, newParent, anchor))
      ensures r.Some? ==> forest == old(forest) && X() == old(X())
      ensures r.None? ==> forest == Moved(old(forest), n, newParent)
    {
      hide Indexed, Anc, MovedDepth, NoDup;
      if n !in par { return Some(NotFound); }
      if newParent.Some? {
        var dest := newParent.value;
        if dest == n { return Some(Cycle); }
        if dest !in par { return Some(NotFound); }
        IndexIsAncestry(S(), n, dest);
        var x := Index(lft, rgt);
        if x.L(n) <= x.L(dest) && x.R(dest) <= x.R(n) { return Some(Cycle); }
      }
      if anchor.Some? && anchor.value !in par { return Some(StaleMove); }
      ghost var f := forest;
      Store(order, par[n := newParent], Moved(f, n, newParent));
      r := None;
    }

    /** Sweep the cells of the rows in `gone`, drop the rows and renumber the rest. */
    method RemoveRows(gone: set<Id>, ghost g: Forest)
      requires Valid() && g.order == Without(order, gone) && g.par == par - gone
      modifies this
      ensures Valid() && forest == g && cells == CellsOutside(old(cells), gone)
    {
      hide Indexed, Without, CellsOutside, NoDup;
      cells := CellsOutside(cells, gone);
      lft, rgt := lft - gone, rgt - gone;
      Store(Without(order, gone), par - gone, g);
    }

    /** Cascade delete: the node and its whole subtree go, with every cell they carry. */
    method DeleteNode(n: Id) returns (r: Result<seq<Id>, RepoError>)
      requires Valid()
      modifies this
      ensures Valid()
      ensures n !in old(par) ==> r == Err(NotFound) && forest == old(forest) && cells == old(cells)
      ensures n in old(par) ==>
                && r == Ok([n] + old(Walk(forest, Kids(forest, Some(n)), |order|)))
                && forest == Deleted(old(forest), n)
                && cells == CellsOutside(old(cells), Sub(old(forest), n))
    {
      if n !in par { return Err(NotFound); }
      ghost var f := forest;
      var below := Descendants(n);
      var gone := set m | m in [n] + below.value;
      DeletedRows(f, n, gone);
      RemoveRows(gone, Deleted(f, n));
      r := Ok([n] + below.value);
    }
  }
}
