/**
 * What the stored order looks like after each edit, said column by column: who stands before whom,
 * in terms of the order before the edit.
 */
module ColumnLaws {
  import opened Common
  import opened Sorting
  import opened Columns

  lemma {:induction false} KeepBefore(s: seq<Id>, keep: set<Id>, a: Id, b: Id)
    ensures Before(Keep(s, keep), a, b) <==> a in keep && b in keep && Before(s, a, b)
  {
    if s != [] {
      var t, x := s[..|s| - 1], s[|s| - 1];
      assert s == t + [x];
      KeepBefore(t, keep, a, b);
      KeepMembers(t, keep);
      BeforeConcat(t, [x], a, b);
      BeforeSingle(x, a, b);
      BeforeConcat(Keep(t, keep), if x in keep then [x] else [], a, b);
    }
  }

  /**
   * An accepted reordering: every label comes before every other column and every named column before
   * every unnamed one; labels keep their order, the named stand as named, the rest keep theirs.
   */
  lemma {:induction false} ReorderedPlaces(order: seq<Id>, labels: set<Id>, named: seq<Id>, a: Id, b: Id)
    requires Orderable(order, labels, named) && a in order && b in order
    ensures Before(Reordered(order, labels, named), a, b) <==>
            if a in labels then b !in labels || Before(order, a, b)
            else if a in named then b !in labels && (b !in named || Before(named, a, b))
            else b !in labels && b !in named && Before(order, a, b)
  {
    var shown, rest := Keep(order, labels), Keep(order, Rest(order, labels, named));
    KeepMembers(order, labels);
    KeepMembers(order, Rest(order, labels, named));
    KeepBefore(order, labels, a, b);
    KeepBefore(order, Rest(order, labels, named), a, b);
    BeforeMembers(named, a, b);
    BeforeMembers(order, a, b);
    hide Keep, Before;
    BeforeConcat(shown + named, rest, a, b);
    BeforeConcat(shown, named, a, b);
  }

  lemma BeforeMembers(s: seq<Id>, a: Id, b: Id)
    ensures Before(s, a, b) ==> a in s && b in s
  {
  }

  /** An insertion puts the new column right after its anchor, or last, and disturbs no other pair. */
  lemma {:induction false} InsertedPlaces(order: seq<Id>, anchor: Option<Id>, n: Id, a: Id, b: Id)
    requires NoDup(order) && n !in order && (anchor.Some? ==> anchor.value in order)
    ensures n in Inserted(order, anchor, n)
    ensures a != n && b != n ==> (Before(Inserted(order, anchor, n), a, b) <==> Before(order, a, b))
    ensures a in order ==> (Before(Inserted(order, anchor, n), a, n) <==>
                              anchor == None || anchor == Some(a) || Before(order, a, anchor.value))
  {
    match anchor {
      case None =>
        BeforeConcat(order, [n], a, b);
        BeforeConcat(order, [n], a, n);
        BeforeMembers(order, a, n);
        BeforeSingle(n, a, b);
      case Some(x) =>
        var i := IndexOf(order, x);
        var front, back := order[..i + 1], order[i + 1..];
        assert order == front + back && front[i] == x;
        SplitAt(order, i, a);
        hide NoDup, Before;
        BeforeConcat(front, back, a, b);
        BeforeConcat(front + [n], back, a, b);
        BeforeConcat(front, [n], a, b);
        BeforeSingle(n, a, b);
        BeforeConcat(front + [n], back, a, n);
        BeforeConcat(front, [n], a, n);
        BeforeSingle(n, a, n);
        BeforeMembers(front, a, n);
        BeforeMembers(back, a, n);
    }
  }

  /** The first `i + 1` elements are the last of them and those before it. */
  lemma {:induction false} SplitAt(order: seq<Id>, i: nat, a: Id)
    requires NoDup(order) && i < |order|
    ensures a in order[..i + 1] <==> a == order[i] || Before(order, a, order[i])
  {
    if Before(order, a, order[i]) {
      var j, k :| 0 <= j < k < |order| && order[j] == a && order[k] == order[i];
      if i < k { NoDupAt(order, i, k); } else if k < i { NoDupAt(order, k, i); }
      assert order[..i + 1][j] == a;
    }
    if a in order[..i + 1] {
      var j :| 0 <= j < i + 1 && order[..i + 1][j] == a;
      assert order[j] == a;
    }
    assert order[..i + 1][i] == order[i];
  }

  /** A deletion loses that column and disturbs no other pair. */
  lemma DroppedPlaces(order: seq<Id>, c: Id, a: Id, b: Id)
    ensures a in Dropped(order, c) <==> a in order && a != c
    ensures Before(Dropped(order, c), a, b) <==> a != c && b != c && Before(order, a, b)
  {
    KeepMembers(order, Others(order, c));
    KeepBefore(order, Others(order, c), a, b);
    BeforeMembers(order, a, b);
  }

  // ----- the whole order after an edit -----

  ghost predicate SameColumns(order: seq<Id>, z: seq<Id>) {
    NoDup(z) && forall c :: c in z <==> c in order
  }

  /** Labels first, then the named as named, then the rest, all else in its old order. */
  ghost predicate LabelsNamedRest(order: seq<Id>, labels: set<Id>, named: seq<Id>, z: seq<Id>) {
    && SameColumns(order, z)
    && forall a, b {:trigger Before(z, a, b)} :: a in order && b in order ==>
         (Before(z, a, b) <==> if a in labels then b !in labels || Before(order, a, b)
                               else if a in named then b !in labels && (b !in named || Before(named, a, b))
                               else b !in labels && b !in named && Before(order, a, b))
  }

  lemma {:induction false} ReorderedShows(order: seq<Id>, labels: set<Id>, named: seq<Id>)
    requires NoDup(order) && Orderable(order, labels, named)
    ensures LabelsNamedRest(order, labels, named, Reordered(order, labels, named))
  {
    ReorderedIsPermutation(order, labels, named);
    hide Reordered, NoDup, Before, Orderable;
    forall a, b | a in order && b in order
      ensures Before(Reordered(order, labels, named), a, b) <==>
              if a in labels then b !in labels || Before(order, a, b)
              else if a in named then b !in labels && (b !in named || Before(named, a, b))
              else b !in labels && b !in named && Before(order, a, b)
    {
      ReorderedPlaces(order, labels, named, a, b);
    }
  }

  /** The new column right after its anchor, or last; the others as they were. */
  ghost predicate ShowsAfter(order: seq<Id>, anchor: Option<Id>, n: Id, z: seq<Id>) {
    && NoDup(z) && (forall c :: c in z <==> c in order || c == n)
    && KeepPlaces(order, z) && StandsAfter(order, anchor, n, z)
  }

  ghost predicate KeepPlaces(order: seq<Id>, z: seq<Id>) {
    forall a, b {:trigger Before(z, a, b)} :: a in order && b in order ==> (Before(z, a, b) <==> Before(order, a, b))
  }

  ghost predicate StandsAfter(order: seq<Id>, anchor: Option<Id>, n: Id, z: seq<Id>) {
    forall a {:trigger Before(z, a, n)} :: a in order ==>
      (Before(z, a, n) <==> anchor == None || anchor == Some(a) || Before(order, a, anchor.value))
  }

  lemma {:induction false} InsertedShows(order: seq<Id>, anchor: Option<Id>, n: Id)
    requires NoDup(order) && n !in order && (anchor.Some? ==> anchor.value in order)
    ensures ShowsAfter(order, anchor, n, Inserted(order, anchor, n))
  {
    InsertedNoDup(order, anchor, n);
    hide Inserted, NoDup, Before, KeepPlaces, StandsAfter;
    InsertedKeeps(order, anchor, n);
    InsertedStands(order, anchor, n);
  }

  lemma {:induction false} InsertedKeeps(order: seq<Id>, anchor: Option<Id>, n: Id)
    requires NoDup(order) && n !in order && (anchor.Some? ==> anchor.value in order)
    ensures KeepPlaces(order, Inserted(order, anchor, n))
  {
    hide Inserted, NoDup, Before;
    forall a, b | a in order && b in order
      ensures Before(Inserted(order, anchor, n), a, b) <==> Before(order, a, b)
    {
      InsertedPlaces(order, anchor, n, a, b);
    }
  }

  lemma {:induction false} InsertedStands(order: seq<Id>, anchor: Option<Id>, n: Id)
    requires NoDup(order) && n !in order && (anchor.Some? ==> anchor.value in order)
    ensures StandsAfter(order, anchor, n, Inserted(order, anchor, n))
  {
    hide Inserted, NoDup, Before;
    forall a | a in order
      ensures Before(Inserted(order, anchor, n), a, n) <==>
              anchor == None || anchor == Some(a) || Before(order, a, anchor.value)
    {
      InsertedPlaces(order, anchor, n, a, a);
    }
  }

  ghost predicate Loses(order: seq<Id>, c: Id, z: seq<Id>) {
    && NoDup(z) && (forall a :: a in z <==> a in order && a != c)
    && forall a, b {:trigger Before(z, a, b)} :: a != c && b != c ==> (Before(z, a, b) <==> Before(order, a, b))
  }

  lemma {:induction false} DroppedShows(order: seq<Id>, c: Id)
    requires NoDup(order)
    ensures Loses(order, c, Dropped(order, c))
  {
    KeepMembers(order, Others(order, c));
    hide Before, NoDup;
    forall a, b | a != c && b != c
      ensures Before(Dropped(order, c), a, b) <==> Before(order, a, b)
    {
      DroppedPlaces(order, c, a, b);
    }
  }

  // ----- names and stored orders -----

  /** `e` is the id or the field key of column `c`. */
  ghost predicate Names(field: map<Id, Id>, e: Id, c: Id) {
    e == c || (c in field && field[c] == e)
  }

  /** A name leads to the first column in view that has it as its id or as its field key. */
  lemma {:induction false} ResolveIsFirst(cols: seq<Id>, field: map<Id, Id>, e: Id)
    ensures match Resolve(cols, field, e)
            case None => forall c :: c in cols ==> !Names(field, e, c)
            case Some(c) => exists i :: 0 <= i < |cols| && cols[i] == c && Names(field, e, c)
                                        && forall j :: 0 <= j < i ==> !Names(field, e, cols[j])
  {
    if cols != [] {
      ResolveIsFirst(cols[1..], field, e);
      assert cols == [cols[0]] + cols[1..];
      if !Names(field, e, cols[0]) && Resolve(cols, field, e).Some? {
        var c := Resolve(cols, field, e).value;
        var i :| 0 <= i < |cols| - 1 && cols[1..][i] == c && Names(field, e, c)
          && forall j :: 0 <= j < i ==> !Names(field, e, cols[1..][j]);
        assert cols[i + 1] == c;
        forall j | 0 <= j < i + 1
          ensures !Names(field, e, cols[j])
        {
          if j > 0 { assert cols[j] == cols[1..][j - 1]; }
        }
      }
    }
  }

  /** Some entry of the order leads to `c`. */
  ghost predicate LedTo(cols: seq<Id>, field: map<Id, Id>, order: seq<Id>, c: Id) {
    exists e :: e in order && Resolve(cols, field, e) == Some(c)
  }

  /** Reading the order from its start, there is a point where `a` was mentioned and `b` was not. */
  ghost predicate MentionedFirst(cols: seq<Id>, field: map<Id, Id>, order: seq<Id>, a: Id, b: Id) {
    exists k :: 0 <= k <= |order| && LedTo(cols, field, order[..k], a) && !LedTo(cols, field, order[..k], b)
  }

  lemma {:induction false} LedToSnoc(cols: seq<Id>, field: map<Id, Id>, order: seq<Id>, c: Id)
    requires order != []
    ensures LedTo(cols, field, order, c) <==>
            LedTo(cols, field, order[..|order| - 1], c) || Resolve(cols, field, order[|order| - 1]) == Some(c)
  {
    hide Resolve;
    SnocMembers(order);
  }

  lemma MentionedSnoc(cols: seq<Id>, field: map<Id, Id>, order: seq<Id>, a: Id, b: Id)
    requires order != []
    ensures var before := order[..|order| - 1];
            MentionedFirst(cols, field, order, a, b) <==>
              || MentionedFirst(cols, field, before, a, b)
              || (LedTo(cols, field, order, a) && !LedTo(cols, field, order, b))
  {
    hide LedTo;
    var before := order[..|order| - 1];
    assert order[..|order|] == order;
    if MentionedFirst(cols, field, before, a, b) {
      var k :| 0 <= k <= |before| && LedTo(cols, field, before[..k], a) && !LedTo(cols, field, before[..k], b);
      assert before[..k] == order[..k];
    }
    if MentionedFirst(cols, field, order, a, b) {
      var k :| 0 <= k <= |order| && LedTo(cols, field, order[..k], a) && !LedTo(cols, field, order[..k], b);
      if k < |order| { assert before[..k] == order[..k]; }
    }
  }

  lemma {:induction false} MentionedIsLedTo(cols: seq<Id>, field: map<Id, Id>, order: seq<Id>, a: Id, b: Id)
    ensures MentionedFirst(cols, field, order, a, b) ==> LedTo(cols, field, order, a)
    ensures LedTo(cols, field, order, a) && !LedTo(cols, field, order, b) ==> MentionedFirst(cols, field, order, a, b)
  {
    assert order[..|order|] == order;
    if k :| 0 <= k <= |order| && LedTo(cols, field, order[..k], a) && !LedTo(cols, field, order[..k], b) {
      var e :| e in order[..k] && Resolve(cols, field, e) == Some(a);
      assert e in order;
    }
  }

  /**
   * What a stored order comes down to: the columns it leads to, labels left out, by their first mention.
   */
  lemma {:induction false} OrderForWritePlaces(cols: seq<Id>, labels: set<Id>, field: map<Id, Id>, order: seq<Id>,
                                               a: Id, b: Id)
    ensures a in OrderForWrite(cols, labels, field, order) <==> a !in labels && LedTo(cols, field, order, a)
    ensures b in OrderForWrite(cols, labels, field, order) <==> b !in labels && LedTo(cols, field, order, b)
    ensures Before(OrderForWrite(cols, labels, field, order), a, b) <==>
            && a !in labels && b !in labels
            && LedTo(cols, field, order, b) && MentionedFirst(cols, field, order, a, b)
  {
    hide Resolve, LedTo, MentionedFirst;
    if order == [] {
      assert !LedTo(cols, field, [], a) && !LedTo(cols, field, [], b) by { NothingLedTo(cols, field); }
    } else {
      var before, e := order[..|order| - 1], order[|order| - 1];
      OrderForWritePlaces(cols, labels, field, before, a, b);
      LedToSnoc(cols, field, order, a);
      LedToSnoc(cols, field, order, b);
      MentionedSnoc(cols, field, order, a, b);
      MentionedIsLedTo(cols, field, before, a, b);
      var was := OrderForWrite(cols, labels, field, before);
      BeforeMembers(was, a, b);
      if Resolve(cols, field, e).Some? {
        var c := Resolve(cols, field, e).value;
        BeforeConcat(was, [c], a, b);
        BeforeSingle(c, a, b);
      }
    }
  }

  lemma NothingLedTo(cols: seq<Id>, field: map<Id, Id>)
    ensures forall c :: !LedTo(cols, field, [], c)
  {
  }
}
