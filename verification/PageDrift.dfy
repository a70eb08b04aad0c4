/**
 * Pages under inserts: every create renumbers the sheet, so a cursor taken before it is an old
 * key.  This module says what a create does to the stored numbers, and when an old cursor still
 * resumes where its page ended.
 */
module PageDrift {
  import opened Common
  import opened Forests
  import opened NestedSets
  import opened ForestEdits
  import opened EditLaws
  import opened Sorting
  import opened Preorders
  import opened Explore

  // ----- one forest has one numbering -----

  lemma {:induction false} KidNumber(s: Sheet, p: Option<Id>, i: nat)
    requires AtNode(s.f, p) && i < |Kids(s.f, p)|
    ensures s.x.L(Kids(s.f, p)[i]) == Start(s.x, p) + 2 * Width(s.f, p, i)
  {
    CursorCounts(s, p, i);
    KidOpensAt(s, p, i);
  }

  /** Two indexes of one forest agree on every node. */
  lemma {:induction false} IndexIsUnique(s: Sheet, z: Sheet, k: Id)
    requires s.f == z.f && k in s.f.par
    ensures s.x.L(k) == z.x.L(k) && s.x.R(k) == z.x.R(k)
    decreases s.f.depth[k]
  {
    var f, p := s.f, s.f.par[k];
    assert f.LinkOk(k);
    if p.Some? { IndexIsUnique(s, z, p.value); }
    var i := KidIndex(f, p, k);
    KidNumber(s, p, i);
    KidNumber(z, p, i);
    SpanCounts(s, k);
    SpanCounts(z, k);
  }

  // ----- what a create does to the numbers -----

  /** The number a new last child of `p` opens with: where `p` used to close, or one past the last. */
  ghost function Slot(s: Sheet, p: Option<Id>): nat
    requires AtNode(s.f, p)
  {
    match p case None => 2 * |s.f.order| + 1 case Some(q) => s.x.R(q)
  }

  function Shift(v: nat, cut: nat): nat {
    if v < cut then v else v + 2
  }

  lemma SlotIsNext(s: Sheet, p: Option<Id>)
    requires AtNode(s.f, p)
    ensures Slot(s, p) == Cursor(s.x, p, Kids(s.f, p), |Kids(s.f, p)|)
  {
    if p == None {
      CursorCounts(s, None, |Kids(s.f, None)|);
      WidthAll(s.f, None);
      NodeCount(s.f);
    } else {
      assert KidsIndexed(s.f, s.x, p);
    }
  }

  lemma SlotTaken(s: Sheet, p: Option<Id>, k: Id)
    requires AtNode(s.f, p) && k in s.f.par
    ensures s.x.L(k) != Slot(s, p) && (s.x.R(k) == Slot(s, p) <==> p == Some(k))
  {
    InRange(s, k);
    if p.Some? {
      OpensDistinct(s, k, p.value);
      OpensDistinct(s, p.value, k);
    }
  }

  /** The numbering after a create: everything from the slot on moves by two. */
  ghost function Shifted(s: Sheet, n: Id, p: Option<Id>): Index
    requires AtNode(s.f, p)
  {
    var cut, ids := Slot(s, p), s.f.par.Keys + {n};
    Index(map k | k in ids :: if k == n then cut else Shift(s.x.L(k), cut),
          map k | k in ids :: if k == n then cut + 1 else Shift(s.x.R(k), cut))
  }

  lemma ShiftedAt(s: Sheet, n: Id, p: Option<Id>, k: Id)
    requires AtNode(s.f, p) && n !in s.f.par
    ensures Shifted(s, n, p).L(n) == Slot(s, p) && Shifted(s, n, p).R(n) == Slot(s, p) + 1
    ensures k in s.f.par ==> Shifted(s, n, p).L(k) == Shift(s.x.L(k), Slot(s, p))
    ensures k in s.f.par ==> Shifted(s, n, p).R(k) == Shift(s.x.R(k), Slot(s, p))
  {
  }

  /** The slot is nobody's opening number, so moving by two keeps neighbours adjacent. */
  lemma KidStillOpens(s: Sheet, n: Id, p: Option<Id>, q: Option<Id>, i: nat)
    requires n !in s.f.par && AtNode(s.f, p) && AtNode(s.f, q) && i < |Kids(s.f, q)|
    ensures KidOpens(Shifted(s, n, p), q, Kids(s.f, q) + (if q == p then [n] else []), i)
  {
    var kids := Kids(s.f, q);
    KidSpan(s, q, i);
    KidOpensAt(s, q, i);
    SlotTaken(s, p, kids[i]);
    ShiftedAt(s, n, p, kids[i]);
    if i > 0 {
      KidSpan(s, q, i - 1);
      ShiftedAt(s, n, p, kids[i - 1]);
    } else {
      InRange(s, kids[i]);
      if p.Some? { InRange(s, p.value); }
      if q.Some? { ShiftedAt(s, n, p, q.value); }
    }
  }

  /** What stands just before the end of the children of `q`: the number their next cursor follows. */
  lemma CursorAfterKids(s: Sheet, n: Id, p: Option<Id>, q: Option<Id>)
    requires n !in s.f.par && AtNode(s.f, p) && AtNode(s.f, q)
    ensures var kids, y := Kids(s.f, q), Shifted(s, n, p);
            Cursor(y, q, kids, |kids|) ==
            (if Cursor(s.x, q, kids, |kids|) <= Slot(s, p) then 0 else 2) + Cursor(s.x, q, kids, |kids|)
  {
    hide Shifted, Kids, Slot, Width, Indexed;
    var kids := Kids(s.f, q);
    SlotIsNext(s, p);
    CursorCounts(s, p, |Kids(s.f, p)|);
    if kids != [] {
      KidSpan(s, q, |kids| - 1);
      ShiftedAt(s, n, p, kids[|kids| - 1]);
    } else if q.Some? {
      ShiftedAt(s, n, p, q.value);
    }
  }

  lemma NewKidOpens(s: Sheet, n: Id, p: Option<Id>)
    requires n !in s.f.par && AtNode(s.f, p)
    ensures KidOpens(Shifted(s, n, p), p, Kids(s.f, p) + [n], |Kids(s.f, p)|)
  {
    SlotIsNext(s, p);
    CursorAfterKids(s, n, p, p);
    ShiftedAt(s, n, p, n);
    var kids, y := Kids(s.f, p), Shifted(s, n, p);
    assert Cursor(y, p, kids + [n], |kids|) == Cursor(y, p, kids, |kids|);
  }

  lemma StillCloses(s: Sheet, n: Id, p: Option<Id>, q: Id)
    requires n !in s.f.par && AtNode(s.f, p) && q in s.f.par
    ensures var kids := Kids(s.f, Some(q)) + (if Some(q) == p then [n] else []);
            Shifted(s, n, p).R(q) == Cursor(Shifted(s, n, p), Some(q), kids, |kids|)
  {
    var kids, y := Kids(s.f, Some(q)), Shifted(s, n, p);
    ShiftedAt(s, n, p, q);
    SlotTaken(s, p, q);
    assert KidsIndexed(s.f, s.x, Some(q));
    if p == Some(q) {
      ShiftedAt(s, n, p, n);
      assert (kids + [n])[|kids|] == n;
    } else {
      CursorAfterKids(s, n, p, Some(q));
      assert kids + [] == kids;
    }
  }

  lemma KidsStayLaid(s: Sheet, n: Id, p: Option<Id>, q: Option<Id>)
    requires n !in s.f.par && AtNode(s.f, p) && AtNode(s.f, q)
    ensures KidsIndexed(Created(s.f, n, p), Shifted(s, n, p), q)
  {
    hide KidOpens, Shifted, Created, Kids, Slot;
    KidsCreated(s.f, n, p, q);
    var kids := Kids(s.f, q) + (if q == p then [n] else []);
    forall i | 0 <= i < |kids|
      ensures KidOpens(Shifted(s, n, p), q, kids, i)
    {
      if i < |Kids(s.f, q)| { KidStillOpens(s, n, p, q, i); } else { NewKidOpens(s, n, p); }
    }
    if q.Some? { StillCloses(s, n, p, q.value); }
  }

  lemma NewNodeIsLeaf(s: Sheet, n: Id, p: Option<Id>)
    requires n !in s.f.par && AtNode(s.f, p)
    ensures KidsIndexed(Created(s.f, n, p), Shifted(s, n, p), Some(n))
  {
    KidsCreated(s.f, n, p, Some(n));
    ShiftedAt(s, n, p, n);
    assert p != Some(n);
  }

  lemma ShiftedIsIndex(s: Sheet, n: Id, p: Option<Id>)
    requires n !in s.f.par && AtNode(s.f, p)
    ensures Indexed(Created(s.f, n, p), Shifted(s, n, p))
  {
    var g, y := Created(s.f, n, p), Shifted(s, n, p);
    KidsStayLaid(s, n, p, None);
    forall q | q in g.par
      ensures KidsIndexed(g, y, Some(q))
    {
      if q == n { NewNodeIsLeaf(s, n, p); } else { KidsStayLaid(s, n, p, Some(q)); }
    }
  }

  /**
   * What a create does to the stored numbers: the new row takes the two numbers where its parent
   * used to close, everything before keeps its numbers and everything from there on moves by two.
   */
  lemma CreateShiftsNumbers(s: Sheet, z: Sheet, n: Id, p: Option<Id>, k: Id)
    requires n !in s.f.par && AtNode(s.f, p) && z.f == Created(s.f, n, p)
    ensures z.x.L(n) == Slot(s, p) && z.x.R(n) == Slot(s, p) + 1
    ensures k in s.f.par ==> z.x.L(k) == Shift(s.x.L(k), Slot(s, p)) && z.x.R(k) == Shift(s.x.R(k), Slot(s, p))
  {
    ShiftedIsIndex(s, n, p);
    var y := RawSheet(z.f, Shifted(s, n, p));
    ShiftedAt(s, n, p, k);
    IndexIsUnique(z, y, n);
    if k in s.f.par { IndexIsUnique(z, y, k); }
  }

  // ----- cursors across a create -----

  /** Following the cursor over these rows goes on right after row `c`. */
  ghost predicate ResumesAfter(items: seq<Row>, cursor: Row, c: Id) {
    0 < FirstBeyond(items, cursor) <= |items| && items[FirstBeyond(items, cursor) - 1].name == c
  }

  lemma PreorderRows(s: Sheet)
    ensures InKeyOrder(Rows(s.x, Preorder(s.f)))
  {
    PreorderQuery(s);
    AscendingRows(s.x, Preorder(s.f), 1, 2 * |s.f.order| + 1);
  }

  lemma PreorderHolds(s: Sheet, c: Id)
    requires c in s.f.par
    ensures c in Preorder(s.f)
  {
    PreorderQuery(s);
  }

  /**
   * An old cursor at row `c` resumes right after `c`, in any listing by lft that holds `c`, exactly when the
   * create did not move `c`: the new row came at the top level, or `c` opens before the end of its parent.
   */
  lemma CursorSurvivesIn(s: Sheet, z: Sheet, n: Id, p: Option<Id>, c: Id, listed: seq<Id>)
    requires n !in s.f.par && AtNode(s.f, p) && z.f == Created(s.f, n, p) && c in s.f.par
    requires InKeyOrder(Rows(z.x, listed)) && c in listed
    ensures ResumesAfter(Rows(z.x, listed), Row(s.x.L(c), c), c) <==> p == None || s.x.L(c) < s.x.R(p.value)
  {
    var items, cursor := Rows(z.x, listed), Row(s.x.L(c), c);
    CreateShiftsNumbers(s, z, n, p, c);
    InRange(s, c);
    var j :| 0 <= j < |listed| && listed[j] == c;
    assert items[j].name == c;
    if z.x.L(c) == s.x.L(c) {
      assert items[j] == cursor;
      CursorLandsAfter(items, j);
    } else {
      assert Beyond(items[j], cursor);
      EarlierNames(z, listed, FirstBeyond(items, cursor), j);
    }
  }

  lemma EarlierNames(z: Sheet, listed: seq<Id>, i: nat, j: nat)
    requires InKeyOrder(Rows(z.x, listed)) && i <= j < |listed|
    ensures i > 0 ==> Rows(z.x, listed)[i - 1].name != listed[j]
  {
    if i > 0 { assert Beyond(Rows(z.x, listed)[j], Rows(z.x, listed)[i - 1]); }
  }

  /** So it is in the listing of the whole sheet. */
  lemma CursorSurvivesCreate(s: Sheet, z: Sheet, n: Id, p: Option<Id>, c: Id)
    requires n !in s.f.par && AtNode(s.f, p) && z.f == Created(s.f, n, p) && c in s.f.par
    ensures ResumesAfter(Rows(z.x, Preorder(z.f)), Row(s.x.L(c), c), c) <==> p == None || s.x.L(c) < s.x.R(p.value)
  {
    PreorderRows(z);
    PreorderHolds(z, c);
    CursorSurvivesIn(s, z, n, p, c, Preorder(z.f));
  }

  /** When it does, following it collects exactly the rows listed after `c`, each once. */
  lemma ResumedPagesAreTheRest(s: Sheet, z: Sheet, n: Id, p: Option<Id>, c: Id, listed: seq<Id>, limit: nat)
    returns (j: nat)
    requires n !in s.f.par && AtNode(s.f, p) && z.f == Created(s.f, n, p) && c in s.f.par && 1 <= limit
    requires p == None || s.x.L(c) < s.x.R(p.value)
    requires InKeyOrder(Rows(z.x, listed)) && c in listed
    ensures j < |listed| && listed[j] == c
    ensures var items, cursor := Rows(z.x, listed), Row(s.x.L(c), c);
            cursor in items && Concat(Follow(items, Some(cursor), limit)) == items[j + 1..]
  {
    var items, cursor := Rows(z.x, listed), Row(s.x.L(c), c);
    CreateShiftsNumbers(s, z, n, p, c);
    InRange(s, c);
    j :| 0 <= j < |listed| && listed[j] == c;
    assert items[j] == cursor;
    CursorLandsAfter(items, j);
    FollowIsExhaustive(items, Some(cursor), limit);
  }

  // ----- an insert to the left that does move the page -----

  function ThreeRoots(): Forest {
    var f := RawForest([1, 2, 3], map[1 := None, 2 := None, 3 := None], map[1 := 0, 2 := 0, 3 := 0]);
    NoDupFrom(f.order);
    f
  }

  function ThreeNumbers(): Index {
    Index(map[1 := 1, 2 := 3, 3 := 5], map[1 := 2, 2 := 4, 3 := 6])
  }

  lemma {:induction false} RootsOnly(order: seq<Id>, par: map<Id, Option<Id>>, q: Id)
    requires forall k :: k in order ==> k in par && par[k] == None
    ensures KidsOf(order, par, None) == order && KidsOf(order, par, Some(q)) == []
  {
    if order != [] {
      hide KidsOf;
      var rest, k := order[..|order| - 1], order[|order| - 1];
      assert k in order && order == rest + [k];
      SnocMembers(order);
      RootsOnly(rest, par, q);
      KidsOfLast(rest, par, k, None);
      KidsOfLast(rest, par, k, Some(q));
    }
  }

  /** Three top-level rows, numbered 1-2, 3-4, 5-6. */
  lemma ThreeRootsIndexed()
    ensures Indexed(ThreeRoots(), ThreeNumbers())
  {
    hide RawForest.Valid, KidsOf;
    var f: Forest, x := ThreeRoots(), ThreeNumbers();
    RootsOnly(f.order, f.par, 0);
    var kids: seq<Id> := [1, 2, 3];
    forall i | 0 <= i < |kids|
      ensures KidOpens(x, None, kids, i)
    {
      assert i == 0 || i == 1 || i == 2;
    }
    forall q: Id | q in f.par
      ensures KidsIndexed(f, x, Some(q))
    {
      RootsOnly(f.order, f.par, q);
    }
  }

  lemma RepeatedPage()
    ensures PageAt([Row(1, 1), Row(2, 4), Row(5, 2), Row(7, 3)], Some(Row(3, 2)), 1).window == [Row(5, 2)]
  {
    var items := [Row(1, 1), Row(2, 4), Row(5, 2), Row(7, 3)];
    assert items[1..] == [Row(2, 4), Row(5, 2), Row(7, 3)] && items[1..][1..] == [Row(5, 2), Row(7, 3)];
    assert FirstBeyond(items, Row(3, 2)) == 2;
  }

  /** A child added under the first of three rows: the cursor at the second shows the second row again. */
  lemma InsertToTheLeftRepeatsRow() returns (s: Sheet, z: Sheet)
    ensures s == RawSheet(ThreeRoots(), ThreeNumbers()) && z.f == Created(s.f, 4, Some(1))
    ensures s.x.L(2) == 3
    ensures Rows(z.x, Preorder(z.f)) == [Row(1, 1), Row(2, 4), Row(5, 2), Row(7, 3)]
    ensures !ResumesAfter(Rows(z.x, Preorder(z.f)), Row(3, 2), 2)
    ensures PageAt(Rows(z.x, Preorder(z.f)), Some(Row(3, 2)), 1).window == [Row(5, 2)]
  {
    hide RawForest.Valid, Indexed, Created, Shifted, ResumesAfter, Preorder, PageAt;
    ThreeRootsIndexed();
    s := RawSheet(ThreeRoots(), ThreeNumbers());
    ShiftedIsIndex(s, 4, Some(1));
    z := RawSheet(Created(s.f, 4, Some(1)), Shifted(s, 4, Some(1)));
    CursorSurvivesCreate(s, z, 4, Some(1), 2);
    ThreeRootsListed(s, z);
    RepeatedPage();
  }

  lemma ThreeRootsListed(s: Sheet, z: Sheet)
    requires s == RawSheet(ThreeRoots(), ThreeNumbers()) && z.f == Created(s.f, 4, Some(1))
    ensures Rows(z.x, Preorder(z.f)) == [Row(1, 1), Row(2, 4), Row(5, 2), Row(7, 3)]
  {
    ThreeRootsRenumbered(s, z);
    CreatedRows(s.f, 4, Some(1));
    hide *;
    FourListed(z);
  }

  lemma FourListed(z: Sheet)
    requires |z.f.order| == 4 && z.f.par.Keys == {1, 2, 3, 4}
    requires z.x.L(1) == 1 && z.x.L(4) == 2 && z.x.L(2) == 5 && z.x.L(3) == 7
    ensures Rows(z.x, Preorder(z.f)) == [Row(1, 1), Row(2, 4), Row(5, 2), Row(7, 3)]
  {
    var listed: seq<Id> := [1, 4, 2, 3];
    FourAscending(z.x);
    hide *;
    PreorderQuery(z);
    forall k: Id
      ensures k in listed <==> k in z.f.par.Keys
    {
      assert k in listed <==> k == 1 || k == 4 || k == 2 || k == 3;
    }
    AscendingUnique(Preorder(z.f), listed, z.x.lft, 1, 9);
  }

  lemma FourAscending(x: Index)
    requires x.L(1) == 1 && x.L(4) == 2 && x.L(2) == 5 && x.L(3) == 7
    ensures Ascending([1, 4, 2, 3], x.lft, 1, 9)
    ensures Rows(x, [1, 4, 2, 3]) == [Row(1, 1), Row(2, 4), Row(5, 2), Row(7, 3)]
  {
    hide Ascending;
    AscendingFromKeys([1, 4, 2, 3], x.lft, 1, 9);
  }

  lemma ThreeRootsRenumbered(s: Sheet, z: Sheet)
    requires s == RawSheet(ThreeRoots(), ThreeNumbers()) && z.f == Created(s.f, 4, Some(1))
    ensures z.x.L(1) == 1 && z.x.L(4) == 2 && z.x.L(2) == 5 && z.x.L(3) == 7
  {
    hide RawForest.Valid, Indexed, Created;
    CreateShiftsNumbers(s, z, 4, Some(1), 1);
    CreateShiftsNumbers(s, z, 4, Some(1), 2);
    CreateShiftsNumbers(s, z, 4, Some(1), 3);
  }
}
