/**
 * Stored column order: an integer position per column, all zero in legacy rows, read back by a
 * stable sort over insertion order.  Column ids and field keys are names from one universe.
 */
module Columns {
  import opened Common
  import opened Sorting

  datatype ColumnError = UnknownColumn(name: Id) | DuplicateColumn(name: Id) | LabelColumn(name: Id) | IncompleteOrder

  // ----- the sequence being kept -----

  function IndexOf(s: seq<Id>, x: Id): (i: nat)
    requires x in s
    ensures i < |s| && s[i] == x
  {
    if s[0] == x then 0
    else
      assert s == [s[0]] + s[1..];
      1 + IndexOf(s[1..], x)
  }

  /** The order with a new column after its anchor, or last. */
  function Inserted(order: seq<Id>, anchor: Option<Id>, n: Id): seq<Id>
    requires anchor.Some? ==> anchor.value in order
  {
    match anchor
    case None => order + [n]
    case Some(a) => var i := IndexOf(order, a); order[..i + 1] + [n] + order[i + 1..]
  }

  /** Label columns first, then the named ones as named, then the rest as they stood. */
  function Reordered(order: seq<Id>, labels: set<Id>, named: seq<Id>): seq<Id> {
    Keep(order, labels) + named + Keep(order, Rest(order, labels, named))
  }

  function Rest(order: seq<Id>, labels: set<Id>, named: seq<Id>): set<Id> {
    set c | c in order && c !in labels && c !in named
  }

  /** What `reorder_columns` accepts. */
  predicate Orderable(order: seq<Id>, labels: set<Id>, named: seq<Id>) {
    && (forall c :: c in named ==> c in order && c !in labels)
    && forall i, j :: 0 <= i < j < |named| ==> named[i] != named[j]
  }

  ghost predicate Numbered(t: seq<Id>, idx: map<Id, int>) {
    forall i {:trigger t[i]} :: 0 <= i < |t| ==> t[i] in idx && idx[t[i]] == i + 1
  }

  /** Positions 1..N read back as the list they number. */
  lemma {:induction false} NumberedSorts(order: seq<Id>, t: seq<Id>, idx: map<Id, int>)
    requires NoDup(order) && Numbered(t, idx)
    requires forall k :: k in order <==> k in t
    ensures SortBy(order, idx) == t
  {
    AscendingFromKeys(t, idx, 1, |t| + 1);
    SortIs(order, t, idx, 1, |t| + 1);
  }

  lemma {:induction false} SortNoDup(order: seq<Id>, idx: map<Id, int>)
    requires NoDup(order)
    ensures NoDup(SortBy(order, idx)) && forall k :: k in SortBy(order, idx) <==> k in order
  {
    SortMembers(order, idx);
    SameSizeNoDup(order, SortBy(order, idx));
  }

  lemma {:induction false} SameSizeNoDup(a: seq<Id>, b: seq<Id>)
    requires NoDup(a) && |a| == |b| && forall k :: k in a <==> k in b
    ensures NoDup(b)
  {
    NoDupCard(a);
    assert Elements(a) == Elements(b);
    CardNoDup(b);
  }

  lemma {:induction false} CardNoDup(b: seq<Id>)
    ensures |Elements(b)| <= |b|
    ensures |Elements(b)| == |b| ==> NoDup(b)
  {
    if b != [] {
      var t, x := b[..|b| - 1], b[|b| - 1];
      assert b == t + [x];
      CardNoDup(t);
      assert Elements(b) == Elements(t) + {x};
      if x in t {
        assert Elements(b) == Elements(t);
      }
    }
  }

  lemma {:induction false} InsertedIs(order: seq<Id>, anchor: Option<Id>, n: Id)
    requires NoDup(order) && n !in order && (anchor.Some? ==> anchor.value in order)
    ensures forall k :: k in Inserted(order, anchor, n) <==> k in order || k == n
  {
    if anchor.Some? {
      var i := IndexOf(order, anchor.value);
      assert order == order[..i + 1] + order[i + 1..];
    }
  }

  lemma {:induction false} InsertedNoDup(order: seq<Id>, anchor: Option<Id>, n: Id)
    requires NoDup(order) && n !in order && (anchor.Some? ==> anchor.value in order)
    ensures NoDup(Inserted(order, anchor, n)) && forall k :: k in Inserted(order, anchor, n) <==> k in order || k == n
  {
    InsertedIs(order, anchor, n);
    NoDupSnoc(order, n);
    SameSizeNoDup(order + [n], Inserted(order, anchor, n));
  }

  /** A reordering names every column exactly once. */
  lemma {:induction false} ReorderedIsPermutation(order: seq<Id>, labels: set<Id>, named: seq<Id>)
    requires NoDup(order) && Orderable(order, labels, named)
    ensures forall k :: k in Reordered(order, labels, named) <==> k in order
    ensures |Reordered(order, labels, named)| == |order| && NoDup(Reordered(order, labels, named))
  {
    var rest := Rest(order, labels, named);
    KeepMembers(order, labels);
    KeepMembers(order, rest);
    NoDupFrom(named);
    var a, c := Keep(order, labels), Keep(order, rest);
    NoDupConcat(a, named);
    NoDupConcat(a + named, c);
    var r := a + named + c;
    forall k
      ensures k in r <==> k in order
    {
    }
    NoDupCard(r);
    NoDupCard(order);
    assert Elements(r) == Elements(order);
  }

  lemma {:induction false} NoDupConcat(a: seq<Id>, b: seq<Id>)
    requires NoDup(a) && NoDup(b) && forall k :: k in a ==> k !in b
    ensures NoDup(a + b)
  {
    if b == [] {
      assert a + b == a;
    } else {
      var t, x := b[..|b| - 1], b[|b| - 1];
      SnocMembers(b);
      NoDupConcat(a, t);
      NoDupSnoc(a + t, x);
      assert a + b == (a + t) + [x];
    }
  }

  // ----- numbering loops -----

  /** Give the columns of `t` the positions 1, 2, ... in turn. */
  method NumberAll(t: seq<Id>, idx0: map<Id, int>) returns (idx: map<Id, int>)
    requires NoDup(t)
    ensures Numbered(t, idx) && idx.Keys == idx0.Keys + Elements(t)
  {
    idx := idx0;
    for i := 0 to |t|
      invariant forall j {:trigger t[j]} :: 0 <= j < i ==> t[j] in idx && idx[t[j]] == j + 1
      invariant idx.Keys == idx0.Keys + Elements(t[..i])
    {
      assert t[..i + 1] == t[..i] + [t[i]];
      forall j | 0 <= j < i ensures t[j] != t[i] { NoDupAt(t, j, i); }
      idx := idx[t[i] := i + 1];
    }
    assert t[..|t|] == t;
  }

  ghost predicate Shifted(t: seq<Id>, idx: map<Id, int>, cut: int) {
    forall i {:trigger t[i]} :: 0 <= i < |t| ==> t[i] in idx && idx[t[i]] == if i + 1 > cut then i + 2 else i + 1
  }

  /** Making room moves no column past another. */
  lemma {:induction false} ShiftedSorts(base: seq<Id>, t: seq<Id>, idx: map<Id, int>, cut: int)
    requires NoDup(base) && Shifted(t, idx, cut)
    requires forall k :: k in base <==> k in t
    ensures SortBy(base, idx) == t
  {
    AscendingFromKeys(t, idx, 1, |t| + 2);
    SortIs(base, t, idx, 1, |t| + 2);
  }

  /** A shifted numbering leaves exactly one slot for the new column. */
  lemma {:induction false} ShiftMakesRoom(t: seq<Id>, idx: map<Id, int>, anchor: Id, n: Id)
    requires NoDup(t) && anchor in t && n !in t && Shifted(t, idx, IndexOf(t, anchor) + 1)
    ensures Numbered(Inserted(t, Some(anchor), n), idx[n := IndexOf(t, anchor) + 2])
  {
    hide NoDup;
    var i := IndexOf(t, anchor);
    var r := Inserted(t, Some(anchor), n);
    forall j | 0 <= j < |r|
      ensures r[j] in idx[n := i + 2] && idx[n := i + 2][r[j]] == j + 1
    {
      if j <= i { assert r[j] == t[j]; } else if j > i + 1 { assert r[j] == t[j - 1]; }
    }
  }

  ghost predicate MakesRoom(shown: seq<Id>, idx: map<Id, int>, after: Option<Id>, slot: int)
    requires after.Some? ==> after.value in shown
  {
    match after
    case None => slot == |shown| + 1 && Numbered(shown, idx)
    case Some(a) => slot == IndexOf(shown, a) + 2 && Shifted(shown, idx, slot - 1)
  }

  /** The new column put at its slot is read back right after its anchor, or last. */
  lemma {:induction false} CreateShows(grown: seq<Id>, shown: seq<Id>, idx: map<Id, int>, after: Option<Id>,
                                       slot: int, n: Id)
    requires NoDup(grown) && NoDup(shown) && n !in shown && forall k :: k in grown <==> k in shown || k == n
    requires (after.Some? ==> after.value in shown) && MakesRoom(shown, idx, after, slot)
    ensures SortBy(grown, idx[n := slot]) == Inserted(shown, after, n)
  {
    match after {
      case None => AppendNumbered(shown, idx, n);
      case Some(a) => ShiftMakesRoom(shown, idx, a, n);
    }
    InsertedIs(shown, after, n);
    NumberedSorts(grown, Inserted(shown, after, n), idx[n := slot]);
  }

  function Others(order: seq<Id>, c: Id): set<Id> {
    (set k | k in order) - {c}
  }

  /** The order without one column. */
  function Dropped(order: seq<Id>, c: Id): seq<Id> {
    Keep(order, Others(order, c))
  }

  lemma {:induction false} DeleteShows(base: seq<Id>, idx: map<Id, int>, keep: set<Id>, c: Id)
    requires c !in keep
    ensures SortBy(Keep(base, keep), idx - {c}) == Keep(SortBy(base, idx), keep)
  {
    SortKeep(base, idx, keep);
    KeepMembers(base, keep);
    SortSameKeys(Keep(base, keep), idx, idx - {c});
  }

  lemma {:induction false} DropShows(base: seq<Id>, idx: map<Id, int>, c: Id)
    ensures SortBy(Dropped(base, c), idx - {c}) == Dropped(SortBy(base, idx), c)
  {
    DeleteShows(base, idx, Others(base, c), c);
    SortMembers(base, idx);
    assert Others(base, c) == Others(SortBy(base, idx), c);
  }

  // ----- the in-memory repository -----

  class MemoryColumns {
    var order: seq<Id>
    var idx: map<Id, int>
    var labels: set<Id>
    var nextId: Id

    ghost predicate Valid()
      reads this
    {
      NoDup(order) && forall c :: c in order ==> c < nextId
    }

    /** What the readers see. */
    function Visible(): seq<Id>
      reads this
    {
      SortBy(order, idx)
    }

    constructor (legacy: seq<Id>, labels: set<Id>, next: Id)
      requires NoDup(legacy) && forall c :: c in legacy ==> c < next
      ensures Valid() && Visible() == legacy && this.labels == labels
    {
      order, idx, this.labels, nextId := legacy, map c | c in legacy :: 0, labels, next;
      new;
      SortTies(legacy, idx);
    }

    /** Renumber in the current order, then shift everything right of the anchor by one. */
    method NextIdx(after: Option<Id>) returns (slot: Result<int, ColumnError>)
      requires Valid()
      modifies this`idx
      ensures Visible() == old(Visible())
      ensures after.Some? && after.value !in old(Visible()) ==> slot == Err(UnknownColumn(after.value))
      ensures (after.Some? ==> after.value in old(Visible())) ==>
                slot.Ok? && MakesRoom(old(Visible()), idx, after, slot.value)
    {
      hide SortBy, NoDup, IndexOf, ShiftedUpTo, Numbered, MakesRoom;
      var ordered := Visible();
      SortNoDup(order, idx);
      idx := NumberAll(ordered, idx);
      ShiftStart(ordered, idx, after);
      NumberedSorts(order, ordered, idx);
      if after.None? { return Ok(|ordered| + 1); }
      if after.value !in ordered { return Err(UnknownColumn(after.value)); }
      var anchor := idx[after.value];
      for j := 0 to |ordered|
        invariant ShiftedUpTo(ordered, idx, anchor, j)
      {
        ShiftStep(ordered, idx, anchor, j);
        if idx[ordered[j]] > anchor {
          idx := idx[ordered[j] := idx[ordered[j]] + 1];
        }
      }
      ShiftEnd(ordered, idx, after.value, anchor);
      ShiftedSorts(order, ordered, idx, anchor);
      slot := Ok(anchor + 1);
    }

    /** Append a column to the store and show it after its anchor, or last. */
    method CreateColumn(after: Option<Id>, isLabel: bool) returns (r: Result<Id, ColumnError>)
      requires Valid()
      modifies this
      ensures Valid()
      ensures after.Some? && after.value !in old(Visible()) ==>
                r == Err(UnknownColumn(after.value)) && Visible() == old(Visible()) && labels == old(labels)
      ensures (after.Some? ==> after.value in old(Visible())) ==>
                && r.Ok? && r.value !in old(Visible())
                && Visible() == Inserted(old(Visible()), after, r.value)
                && labels == if isLabel then old(labels) + {r.value} else old(labels)
    {
      hide SortBy, Inserted, NoDup;
      var n := nextId;
      nextId := nextId + 1;
      ghost var shown := Visible();
      SortNoDup(order, idx);
      var slot := NextIdx(after);
      if slot.Err? { return Err(slot.error); }
      NoDupSnoc(order, n);
      CreateShows(order + [n], shown, idx, after, slot.value, n);
      idx := idx[n := slot.value];
      order := order + [n];
      if isLabel { labels := labels + {n}; }
      r := Ok(n);
    }

    /** Rewrite the stored order of the whole sheet. */
    method ReorderColumns(ids: seq<Id>) returns (r: Option<ColumnError>)
      requires Valid()
      modifies this`idx
      ensures r.None? <==> Orderable(old(Visible()), labels, ids)
      ensures r.None? ==> Visible() == Reordered(old(Visible()), labels, ids) && Numbered(Visible(), idx)
      ensures r.Some? ==> idx == old(idx)
    {
      var ordered := Visible();
      SortNoDup(order, idx);
      r := CheckOrder(ordered, labels, ids);
      if r.Some? { return; }
      ReorderedIsPermutation(ordered, labels, ids);
      idx := NumberAll(Reordered(ordered, labels, ids), idx);
      NumberedSorts(order, Reordered(ordered, labels, ids), idx);
    }

    method DeleteColumn(c: Id) returns (r: Option<ColumnError>)
      requires Valid()
      modifies this
      ensures Valid() && (r.None? <==> c in old(Visible()))
      ensures r.None? ==> Visible() == Dropped(old(Visible()), c) && labels == old(labels) - {c}
      ensures r.Some? ==> Visible() == old(Visible()) && labels == old(labels)
    {
      hide SortBy, Keep, NoDup;
      SortMembers(order, idx);
      if c !in order { return Some(UnknownColumn(c)); }
      DropShows(order, idx, c);
      KeepMembers(order, Others(order, c));
      order, idx, labels := Dropped(order, c), idx - {c}, labels - {c};
      r := None;
    }
  }

  /** The first `j` columns are shifted past the anchor's position, the others still numbered plainly. */
  ghost predicate ShiftedUpTo(t: seq<Id>, idx: map<Id, int>, anchor: int, j: int) {
    forall k {:trigger t[k]} :: 0 <= k < |t| ==>
        t[k] in idx && idx[t[k]] == if k < j && k + 1 > anchor then k + 2 else k + 1
  }

  lemma {:induction false} ShiftStart(t: seq<Id>, idx: map<Id, int>, after: Option<Id>)
    requires Numbered(t, idx)
    ensures after.Some? && after.value in t ==>
              after.value in idx && idx[after.value] == IndexOf(t, after.value) + 1 &&
                ShiftedUpTo(t, idx, idx[after.value], 0)
    ensures after.None? ==> MakesRoom(t, idx, None, |t| + 1)
  {
    if after.Some? && after.value in t { assert t[IndexOf(t, after.value)] == after.value; }
  }

  lemma {:induction false} ShiftEnd(t: seq<Id>, idx: map<Id, int>, a: Id, anchor: int)
    requires a in t && anchor == IndexOf(t, a) + 1 && ShiftedUpTo(t, idx, anchor, |t|)
    ensures Shifted(t, idx, anchor) && MakesRoom(t, idx, Some(a), anchor + 1)
  {
  }

  lemma {:induction false} ShiftStep(t: seq<Id>, idx: map<Id, int>, anchor: int, j: nat)
    requires NoDup(t) && j < |t| && ShiftedUpTo(t, idx, anchor, j)
    ensures t[j] in idx && idx[t[j]] == j + 1
    ensures ShiftedUpTo(t, if j + 1 > anchor then idx[t[j] := j + 2] else idx, anchor, j + 1)
  {
    forall k | 0 <= k < |t| && k != j
      ensures t[k] != t[j]
    {
      if k < j { NoDupAt(t, k, j); } else { NoDupAt(t, j, k); }
    }
  }

  lemma AppendNumbered(t: seq<Id>, idx: map<Id, int>, n: Id)
    requires Numbered(t, idx) && n !in t
    ensures Numbered(t + [n], idx[n := |t| + 1])
  {
    forall i | 0 <= i < |t| + 1
      ensures (t + [n])[i] in idx[n := |t| + 1] && idx[n := |t| + 1][(t + [n])[i]] == i + 1
    {
      if i < |t| { assert t[i] in t; }
    }
  }

  lemma {:induction false} SortSameKeys(s: seq<Id>, a: map<Id, int>, b: map<Id, int>)
    requires forall k :: k in s ==> Key(a, k) == Key(b, k)
    ensures SortBy(s, a) == SortBy(s, b)
  {
    if s != [] {
      var t, x := s[..|s| - 1], s[|s| - 1];
      assert s == t + [x];
      SortSameKeys(t, a, b);
      SortMembers(t, a);
      InsertSameKeys(SortBy(t, a), x, a, b);
    }
  }

  lemma {:induction false} InsertSameKeys(t: seq<Id>, x: Id, a: map<Id, int>, b: map<Id, int>)
    requires Key(a, x) == Key(b, x) && forall k :: k in t ==> Key(a, k) == Key(b, k)
    ensures InsertSorted(t, x, a) == InsertSorted(t, x, b)
  {
    if t != [] {
      assert t[|t| - 1] in t;
      InsertSameKeys(t[..|t| - 1], x, a, b);
    }
  }

  /** Entry `i` is the first that cannot be ordered, and this is what is wrong with it. */
  ghost predicate Blames(ordered: seq<Id>, labels: set<Id>, ids: seq<Id>, i: nat, e: ColumnError) {
    && i < |ids| && Orderable(ordered, labels, ids[..i])
    && match e
       case UnknownColumn(c) => c == ids[i] && c !in ordered
       case DuplicateColumn(c) => c == ids[i] && c in ordered && c in ids[..i]
       case LabelColumn(c) => c == ids[i] && c in ordered && c !in ids[..i] && c in labels
       case IncompleteOrder => false
  }

  /** Every entry must be a column of the sheet, named once, and not a label. */
  method CheckOrder(ordered: seq<Id>, labels: set<Id>, ids: seq<Id>) returns (r: Option<ColumnError>)
    ensures r.None? <==> Orderable(ordered, labels, ids)
    ensures r.Some? ==> exists i :: Blames(ordered, labels, ids, i, r.value)
  {
    var seen: set<Id> := {};
    for i := 0 to |ids|
      invariant Orderable(ordered, labels, ids[..i])
      invariant seen == set c | c in ids[..i]
    {
      assert ids[..i + 1] == ids[..i] + [ids[i]];
      if ids[i] !in ordered {
        assert ids[i] in ids;
        assert Blames(ordered, labels, ids, i, UnknownColumn(ids[i]));
        return Some(UnknownColumn(ids[i]));
      }
      if ids[i] in seen {
        var j :| 0 <= j < i && ids[j] == ids[i];
        assert Blames(ordered, labels, ids, i, DuplicateColumn(ids[i]));
        return Some(DuplicateColumn(ids[i]));
      }
      if ids[i] in labels {
        assert ids[i] in ids;
        assert Blames(ordered, labels, ids, i, LabelColumn(ids[i]));
        return Some(LabelColumn(ids[i]));
      }
      seen := seen + {ids[i]};
    }
    assert ids[..|ids|] == ids;
    r := None;
  }

  // ----- the SQL repository -----

  /** Every row at or beyond `free` moves one further. */
  method MoveRight(t: seq<Id>, idx0: map<Id, int>, free: int) returns (idx: map<Id, int>)
    requires NoDup(t) && ShiftedUpTo(t, idx0, free - 1, 0)
    ensures ShiftedUpTo(t, idx, free - 1, |t|)
  {
    hide NoDup, ShiftedUpTo;
    idx := idx0;
    for j := 0 to |t|
      invariant ShiftedUpTo(t, idx, free - 1, j)
    {
      ShiftStep(t, idx, free - 1, j);
      if idx[t[j]] >= free { idx := idx[t[j] := idx[t[j]] + 1]; }
    }
  }

  /**
   * Rows in no particular storage order; a query orders by position, then creation time, then
   * name, which three stable sorts do from the least significant key up.
   */
  class SqlColumns {
    var rows: seq<Id>
    var idx: map<Id, int>
    var creation: map<Id, int>
    var labels: set<Id>

    ghost predicate Valid()
      reads this
    {
      NoDup(rows)
    }

    function ByCreation(): seq<Id>
      reads this`rows, this`creation
    {
      SortBy(SortBy(rows, map k | k in rows :: k), creation)
    }

    function Visible(): seq<Id>
      reads this
    {
      SortBy(ByCreation(), idx)
    }

    lemma QueryMembers()
      requires Valid()
      ensures NoDup(ByCreation()) && NoDup(Visible())
      ensures forall k :: k in ByCreation() <==> k in rows
      ensures forall k :: k in Visible() <==> k in rows
    {
      var names: map<Id, int> := map k | k in rows :: k;
      SortNoDup(rows, names);
      SortNoDup(SortBy(rows, names), creation);
      SortNoDup(ByCreation(), idx);
    }

    /** Renumber in the current order, then move every row at or beyond the slot one further. */
    method PositionColumn(after: Option<Id>) returns (slot: Result<int, ColumnError>)
      requires Valid()
      modifies this`idx
      ensures Visible() == old(Visible())
      ensures after.Some? && after.value !in old(Visible()) ==> slot == Err(UnknownColumn(after.value))
      ensures (after.Some? ==> after.value in old(Visible())) ==>
                slot.Ok? && MakesRoom(old(Visible()), idx, after, slot.value)
    {
      hide SortBy, NoDup, IndexOf, ShiftedUpTo, Numbered, MakesRoom, ByCreation;
      var ordered := Visible();
      QueryMembers();
      idx := NumberAll(ordered, idx);
      ShiftStart(ordered, idx, after);
      NumberedSorts(ByCreation(), ordered, idx);
      if after.None? { return Ok(|ordered| + 1); }
      if after.value !in ordered { return Err(UnknownColumn(after.value)); }
      var free := idx[after.value] + 1;
      idx := MoveRight(ordered, idx, free);
      ShiftEnd(ordered, idx, after.value, free - 1);
      ShiftedSorts(ByCreation(), ordered, idx, free - 1);
      slot := Ok(free);
    }

    /** Insert a row under a fresh name; its creation time does not matter for where it shows. */
    method CreateColumn(n: Id, now: int, after: Option<Id>, isLabel: bool) returns (r: Result<Id, ColumnError>)
      requires Valid() && n !in rows
      modifies this
      ensures Valid()
      ensures after.Some? && after.value !in old(Visible()) ==>
                r == Err(UnknownColumn(after.value)) && Visible() == old(Visible()) && labels == old(labels)
      ensures (after.Some? ==> after.value in old(Visible())) ==>
                && r == Ok(n) && Visible() == Inserted(old(Visible()), after, n)
                && labels == if isLabel then old(labels) + {n} else old(labels)
    {
      hide SortBy, Inserted, NoDup;
      ghost var shown := Visible();
      QueryMembers();
      var slot := PositionColumn(after);
      if slot.Err? { return Err(slot.error); }
      ghost var room := idx;
      NoDupSnoc(rows, n);
      rows, creation, idx := rows + [n], creation[n := now], idx[n := slot.value];
      QueryMembers();
      CreateShows(ByCreation(), shown, room, after, slot.value, n);
      if isLabel { labels := labels + {n}; }
      r := Ok(n);
    }

    method ReorderColumns(ids: seq<Id>) returns (r: Option<ColumnError>)
      requires Valid()
      modifies this`idx
      ensures r.None? <==> Orderable(old(Visible()), labels, ids)
      ensures r.None? ==> Visible() == Reordered(old(Visible()), labels, ids) && Numbered(Visible(), idx)
      ensures r.Some? ==> idx == old(idx)
    {
      var ordered := Visible();
      QueryMembers();
      r := CheckOrder(ordered, labels, ids);
      if r.Some? { return; }
      ReorderedIsPermutation(ordered, labels, ids);
      idx := NumberAll(Reordered(ordered, labels, ids), idx);
      NumberedSorts(ByCreation(), Reordered(ordered, labels, ids), idx);
    }

    method DeleteColumn(c: Id) returns (r: Option<ColumnError>)
      requires Valid()
      modifies this
      ensures Valid() && (r.None? <==> c in old(Visible()))
      ensures r.None? ==> Visible() == Dropped(old(Visible()), c) && labels == old(labels) - {c}
      ensures r.Some? ==> Visible() == old(Visible()) && labels == old(labels)
    {
      hide SortBy, Keep, NoDup;
      QueryMembers();
      if c !in rows { return Some(UnknownColumn(c)); }
      DropQueried(c);
      KeepMembers(rows, Others(rows, c));
      rows, idx, labels := Dropped(rows, c), idx - {c}, labels - {c};
      r := None;
    }

    /** Dropping a row before the three sorts or after them is the same. */
    lemma DropQueried(c: Id)
      requires Valid()
      ensures var less := Dropped(rows, c);
              SortBy(SortBy(SortBy(less, map k | k in less :: k), creation), idx - {c}) == Dropped(Visible(), c)
    {
      hide SortBy, Keep, NoDup;
      var less, keep := Dropped(rows, c), Others(rows, c);
      var names: map<Id, int> := map k | k in rows :: k;
      var fewer: map<Id, int> := map k | k in less :: k;
      KeepMembers(rows, keep);
      SortKeep(rows, names, keep);
      SortSameKeys(less, names, fewer);
      SortKeep(SortBy(rows, names), creation, keep);
      DeleteShows(ByCreation(), idx, keep, c);
      QueryMembers();
      assert keep == Others(Visible(), c);
    }
  }

  // ----- resolving and replaying a stored order -----

  /** The first column in view whose id or field key is `e`. */
  function Resolve(cols: seq<Id>, field: map<Id, Id>, e: Id): Option<Id> {
    if cols == [] then None
    else if e == cols[0] || (cols[0] in field && field[cols[0]] == e) then Some(cols[0])
    else Resolve(cols[1..], field, e)
  }

  lemma {:induction false} ResolveInView(cols: seq<Id>, field: map<Id, Id>, e: Id)
    ensures Resolve(cols, field, e).Some? ==> Resolve(cols, field, e).value in cols
    ensures e in cols ==> Resolve(cols, field, e).Some?
  {
    if cols != [] {
      ResolveInView(cols[1..], field, e);
      assert cols == [cols[0]] + cols[1..];
    }
  }

  function ResolveAll(cols: seq<Id>, field: map<Id, Id>, order: seq<Id>): seq<Option<Id>> {
    seq(|order|, i requires 0 <= i < |order| => Resolve(cols, field, order[i]))
  }

  /** The named ids are all the non-label columns, each once. */
  predicate CompleteOrder(cols: seq<Id>, labels: set<Id>, ids: seq<Id>) {
    Orderable(cols, labels, ids) && forall c :: c in cols && c !in labels ==> c in ids
  }

  /** Entry by entry, `order` names `ids`. */
  ghost predicate Spells(cols: seq<Id>, field: map<Id, Id>, order: seq<Id>, ids: seq<Id>) {
    |ids| == |order| && forall i :: 0 <= i < |order| ==> Resolve(cols, field, order[i]) == Some(ids[i])
  }

  /** The pre-pass of a column-order call: accept exactly complete orders, as ids. */
  method ResolveOrderParams(cols: seq<Id>, labels: set<Id>, field: map<Id, Id>, order: seq<Id>)
    returns (r: Result<seq<Id>, ColumnError>)
    ensures r.Ok? ==> CompleteOrder(cols, labels, r.value) && Spells(cols, field, order, r.value)
    ensures r.Err? ==> forall ids :: Spells(cols, field, order, ids) ==> !CompleteOrder(cols, labels, ids)
  {
    var resolved: seq<Id> := [];
    var seen: set<Id> := {};
    for i := 0 to |order|
      invariant |resolved| == i && Orderable(cols, labels, resolved)
      invariant forall j :: 0 <= j < i ==> Resolve(cols, field, order[j]) == Some(resolved[j])
      invariant seen == set c | c in resolved
    {
      var c := Resolve(cols, field, order[i]);
      ResolveInView(cols, field, order[i]);
      if c.None? { return Err(UnknownColumn(order[i])); }
      if c.value in labels {
        RefusedOrder(cols, labels, field, order, i, resolved, c.value);
        return Err(LabelColumn(order[i]));
      }
      if c.value in seen {
        RefusedOrder(cols, labels, field, order, i, resolved, c.value);
        return Err(DuplicateColumn(order[i]));
      }
      seen := seen + {c.value};
      resolved := resolved + [c.value];
    }
    if exists c :: c in cols && c !in labels && c !in seen {
      ghost var c :| c in cols && c !in labels && c !in seen;
      forall ids | Spells(cols, field, order, ids)
        ensures !CompleteOrder(cols, labels, ids)
      {
        assert ids == resolved;
      }
      return Err(IncompleteOrder);
    }
    r := Ok(resolved);
  }

  lemma {:induction false} RefusedOrder(cols: seq<Id>, labels: set<Id>, field: map<Id, Id>, order: seq<Id>, i: nat,
                                        resolved: seq<Id>, c: Id)
    requires i < |order| && |resolved| == i && Resolve(cols, field, order[i]) == Some(c) &&
             (c in labels || c in resolved)
    requires forall j :: 0 <= j < i ==> Resolve(cols, field, order[j]) == Some(resolved[j])
    ensures forall ids :: Spells(cols, field, order, ids) ==> !CompleteOrder(cols, labels, ids)
  {
    forall ids | Spells(cols, field, order, ids)
      ensures !CompleteOrder(cols, labels, ids)
    {
      assert ids[i] == c && ids[i] in ids;
      if c in resolved {
        var j :| 0 <= j < i && resolved[j] == c;
        assert ids[j] == ids[i];
      }
    }
  }

  predicate Writable(cols: seq<Id>, labels: set<Id>, field: map<Id, Id>, e: Id) {
    Resolve(cols, field, e).Some? && Resolve(cols, field, e).value !in labels
  }

  /** What is left of a stored order when it is applied: unknown, label and repeated entries are dropped. */
  function OrderForWrite(cols: seq<Id>, labels: set<Id>, field: map<Id, Id>, order: seq<Id>): seq<Id> {
    if order == [] then []
    else
      var before, e := OrderForWrite(cols, labels, field, order[..|order| - 1]), order[|order| - 1];
      if Writable(cols, labels, field, e) && Resolve(cols, field, e).value !in before
      then before + [Resolve(cols, field, e).value] else before
  }

  method ComputeOrderForWrite(cols: seq<Id>, labels: set<Id>, field: map<Id, Id>, order: seq<Id>) returns (out: seq<Id>)
    ensures out == OrderForWrite(cols, labels, field, order)
  {
    out := [];
    var seen: set<Id> := {};
    for i := 0 to |order|
      invariant out == OrderForWrite(cols, labels, field, order[..i])
      invariant seen == set c | c in out
    {
      assert order[..i + 1][..i] == order[..i];
      var c := Resolve(cols, field, order[i]);
      if c.None? || c.value in labels || c.value in seen { continue; }
      seen := seen + {c.value};
      out := out + [c.value];
    }
    assert order[..|order|] == order;
  }

  /** Whatever happened to the columns since, the reduced order is one the repository accepts. */
  lemma {:induction false} StaleOrderIsOrderable(cols: seq<Id>, labels: set<Id>, field: map<Id, Id>, order: seq<Id>)
    ensures Orderable(cols, labels, OrderForWrite(cols, labels, field, order))
    ensures |OrderForWrite(cols, labels, field, order)| <= |order|
  {
    if order != [] {
      StaleOrderIsOrderable(cols, labels, field, order[..|order| - 1]);
      ResolveInView(cols, field, order[|order| - 1]);
      assert forall c :: c in OrderForWrite(cols, labels, field, order[..|order| - 1]) ==> c in cols;
    }
  }

  lemma {:induction false} FullOrderResolves(cols: seq<Id>, labels: set<Id>, field: map<Id, Id>, order: seq<Id>, i: nat)
    requires |OrderForWrite(cols, labels, field, order)| == |order| && i < |order|
    ensures Resolve(cols, field, order[i]) == Some(OrderForWrite(cols, labels, field, order)[i])
  {
    StaleOrderIsOrderable(cols, labels, field, order[..|order| - 1]);
    if i < |order| - 1 { FullOrderResolves(cols, labels, field, order[..|order| - 1], i); }
  }

  lemma OrderablePrefix(cols: seq<Id>, labels: set<Id>, order: seq<Id>)
    requires order != [] && Orderable(cols, labels, order)
    ensures Orderable(cols, labels, order[..|order| - 1]) && order[|order| - 1] !in order[..|order| - 1]
    ensures order[|order| - 1] in cols && order[|order| - 1] !in labels
  {
    var before := order[..|order| - 1];
    forall c | c in before ensures c in cols && c !in labels { assert c in order; }
    assert order[|order| - 1] in order;
  }

  lemma {:induction false} SelfResolvingOrder(cols: seq<Id>, labels: set<Id>, field: map<Id, Id>, order: seq<Id>)
    requires Orderable(cols, labels, order)
    requires forall c :: c in order ==> Resolve(cols, field, c) == Some(c)
    ensures OrderForWrite(cols, labels, field, order) == order
  {
    if order != [] {
      hide Resolve, Orderable;
      var before, e := order[..|order| - 1], order[|order| - 1];
      assert order == before + [e] && e in order;
      OrderablePrefix(cols, labels, order);
      SelfResolvingOrder(cols, labels, field, before);
    }
  }

  /** No column in view before `c` has the id of `c` as its field key. */
  ghost predicate NotShadowed(cols: seq<Id>, field: map<Id, Id>, c: Id)
    requires c in cols
  {
    forall d :: d in cols[..IndexOf(cols, c)] ==> !(d in field && field[d] == c)
  }

  lemma {:induction false} ResolvesToItself(cols: seq<Id>, field: map<Id, Id>, c: Id)
    requires c in cols
    ensures Resolve(cols, field, c) == Some(c) <==> NotShadowed(cols, field, c)
  {
    var i := IndexOf(cols, c);
    if cols[0] == c {
      assert cols[..0] == [];
    } else {
      assert cols == [cols[0]] + cols[1..];
      ResolvesToItself(cols[1..], field, c);
      assert cols[..i] == [cols[0]] + cols[1..][..i - 1];
      ResolveInView(cols[1..], field, c);
    }
  }

  /**
   * On unchanged columns the replay hands the repository the very list that was accepted, exactly
   * when no named id is shadowed by an earlier column's field key.  The direct call resolves its
   * list a second time in the handler, so it is no different.
   */
  lemma {:induction false} AcceptedOrderReplaysExactly(cols: seq<Id>, labels: set<Id>, field: map<Id, Id>, ids: seq<Id>)
    requires CompleteOrder(cols, labels, ids)
    ensures OrderForWrite(cols, labels, field, ids) == ids <==>
            forall c :: c in cols && c !in labels ==> NotShadowed(cols, field, c)
  {
    forall c | c in cols
      ensures Resolve(cols, field, c) == Some(c) <==> NotShadowed(cols, field, c)
    {
      ResolvesToItself(cols, field, c);
    }
    if OrderForWrite(cols, labels, field, ids) == ids {
      forall c | c in cols && c !in labels
        ensures Resolve(cols, field, c) == Some(c)
      {
        var i :| 0 <= i < |ids| && ids[i] == c;
        FullOrderResolves(cols, labels, field, ids, i);
      }
    } else if forall c :: c in cols && c !in labels ==> NotShadowed(cols, field, c) {
      SelfResolvingOrder(cols, labels, field, ids);
    }
  }

  lemma {:induction false} AppliedAlike(cols: seq<Id>, labels: set<Id>, ids: seq<Id>, named: seq<Id>)
    requires CompleteOrder(cols, labels, ids)
    ensures Reordered(cols, labels, named) == Reordered(cols, labels, ids) <==>
            named + Keep(cols, Rest(cols, labels, named)) == ids
  {
    KeepNothing(cols, Rest(cols, labels, ids));
    hide Keep, CompleteOrder, Rest;
    var shown, tail := Keep(cols, labels), Keep(cols, Rest(cols, labels, named));
    assert Reordered(cols, labels, ids) == shown + ids;
    assert Reordered(cols, labels, named) == shown + (named + tail);
    SamePrefixCancels(shown, named + tail, ids);
  }

  lemma SamePrefixCancels(a: seq<Id>, b: seq<Id>, c: seq<Id>)
    ensures a + b == a + c <==> b == c
  {
    if a + b == a + c {
      assert b == (a + b)[|a|..] && c == (a + c)[|a|..];
    }
  }

  lemma {:induction false} KeepNothing(s: seq<Id>, keep: set<Id>)
    requires forall c :: c in s ==> c !in keep
    ensures Keep(s, keep) == []
  {
    if s != [] { KeepNothing(s[..|s| - 1], keep); }
  }

  // ----- which sheets apply every accepted order as accepted -----

  /** Replayed on unchanged columns, the order has the effect it was accepted for. */
  ghost predicate AppliesAsAccepted(cols: seq<Id>, labels: set<Id>, field: map<Id, Id>, ids: seq<Id>) {
    Reordered(cols, labels, OrderForWrite(cols, labels, field, ids)) == Reordered(cols, labels, ids)
  }

  /** There is something to reorder: two columns that are not labels. */
  ghost predicate TwoMovable(cols: seq<Id>, labels: set<Id>) {
    exists c, d :: c in cols && d in cols && c != d && c !in labels && d !in labels
  }

  ghost predicate NoneShadowed(cols: seq<Id>, labels: set<Id>, field: map<Id, Id>) {
    forall c :: c in cols && c !in labels ==> NotShadowed(cols, field, c)
  }

  /** Some entry of a request names the column: its id, or its field key. */
  ghost predicate Nameable(cols: seq<Id>, field: map<Id, Id>, c: Id) {
    Resolve(cols, field, c) == Some(c) || (c in field && Resolve(cols, field, field[c]) == Some(c))
  }

  lemma {:induction false} NamedByIdOrKey(cols: seq<Id>, field: map<Id, Id>, e: Id, c: Id)
    requires Resolve(cols, field, e) == Some(c)
    ensures e == c || (c in field && field[c] == e)
  {
    if !(e == cols[0] || (cols[0] in field && field[cols[0]] == e)) { NamedByIdOrKey(cols[1..], field, e, c); }
  }

  /** A complete order that begins with a column of our choice. */
  lemma CompleteFrom(cols: seq<Id>, labels: set<Id>, c: Id) returns (ids: seq<Id>)
    requires NoDup(cols) && c in cols && c !in labels
    ensures ids != [] && ids[0] == c && CompleteOrder(cols, labels, ids)
  {
    var others := Elements(cols) - labels - {c};
    var rest := Keep(cols, others);
    KeepMembers(cols, others);
    ids := [c] + rest;
    forall i, j | 0 <= i < j < |ids|
      ensures ids[i] != ids[j]
    {
      assert ids[j] == rest[j - 1] && rest[j - 1] in rest;
      if i > 0 { NoDupAt(rest, i - 1, j - 1); }
    }
    forall d | d in cols && d !in labels ensures d in ids { assert d != c ==> d in rest; }
  }

  lemma {:induction false} FirstNamed(cols: seq<Id>, labels: set<Id>, field: map<Id, Id>, ids: seq<Id>)
    requires ids != [] && Writable(cols, labels, field, ids[0])
    ensures var named := OrderForWrite(cols, labels, field, ids);
            named != [] && Some(named[0]) == Resolve(cols, field, ids[0])
  {
    hide Resolve;
    var before := ids[..|ids| - 1];
    if |ids| > 1 {
      FirstNamed(cols, labels, field, before);
    } else {
      assert before == [];
    }
  }

  /** Whatever the replay names is what some writable entry resolves to. */
  lemma {:induction false} NamedBySome(cols: seq<Id>, labels: set<Id>, field: map<Id, Id>, ids: seq<Id>, c: Id)
    returns (e: Id)
    requires c in OrderForWrite(cols, labels, field, ids)
    ensures e in ids && Writable(cols, labels, field, e) && Resolve(cols, field, e) == Some(c)
  {
    hide Resolve;
    var before := ids[..|ids| - 1];
    if c in OrderForWrite(cols, labels, field, before) {
      e := NamedBySome(cols, labels, field, before, c);
    } else {
      e := ids[|ids| - 1];
    }
  }

  lemma {:induction false} NothingNamed(cols: seq<Id>, labels: set<Id>, field: map<Id, Id>, ids: seq<Id>)
    ensures OrderForWrite(cols, labels, field, ids) == [] <==>
            forall e :: e in ids ==> !Writable(cols, labels, field, e)
  {
    if ids != [] {
      hide Resolve, Writable;
      NothingNamed(cols, labels, field, ids[..|ids| - 1]);
      SnocMembers(ids);
    }
  }

  /** If every complete order is applied as accepted, a writable column leads to itself. */
  lemma {:induction false} WritableIsItself(cols: seq<Id>, labels: set<Id>, field: map<Id, Id>, c: Id)
    requires NoDup(cols) && c in cols && c !in labels && Writable(cols, labels, field, c)
    requires forall ids :: CompleteOrder(cols, labels, ids) ==> AppliesAsAccepted(cols, labels, field, ids)
    ensures Resolve(cols, field, c) == Some(c)
  {
    hide *;
    var ids := CompleteFrom(cols, labels, c);
    AppliedAsNamed(cols, labels, field, ids);
    FirstNamed(cols, labels, field, ids);
  }

  lemma {:induction false} AppliedAsNamed(cols: seq<Id>, labels: set<Id>, field: map<Id, Id>, ids: seq<Id>)
    requires CompleteOrder(cols, labels, ids)
    ensures var named := OrderForWrite(cols, labels, field, ids);
            AppliesAsAccepted(cols, labels, field, ids) <==> named + Keep(cols, Rest(cols, labels, named)) == ids
  {
    AppliedAlike(cols, labels, ids, OrderForWrite(cols, labels, field, ids));
  }

  /** If every complete order is applied as accepted and there are two to arrange, every column is writable. */
  lemma {:induction false} EveryoneWritable(cols: seq<Id>, labels: set<Id>, field: map<Id, Id>, c: Id, d: Id)
    requires NoDup(cols) && c in cols && d in cols && c != d && c !in labels && d !in labels
    requires forall ids :: CompleteOrder(cols, labels, ids) ==> AppliesAsAccepted(cols, labels, field, ids)
    ensures Writable(cols, labels, field, c)
  {
    hide *;
    var ids := CompleteFrom(cols, labels, c);
    var named := OrderForWrite(cols, labels, field, ids);
    AppliedAsNamed(cols, labels, field, ids);
    if named != [] {
      assert named[0] == c;
      var e := NamedBySome(cols, labels, field, ids, c);
      CompleteMembers(cols, labels, ids, ids, e);
      WritableIsItself(cols, labels, field, e);
    } else {
      var other := CompleteFrom(cols, labels, d);
      NothingNamed(cols, labels, field, ids);
      NothingNamed(cols, labels, field, other);
      forall e | e in other ensures e in ids { CompleteMembers(cols, labels, other, ids, e); }
      AppliedAsNamed(cols, labels, field, other);
    }
  }

  lemma CompleteMembers(cols: seq<Id>, labels: set<Id>, ids: seq<Id>, other: seq<Id>, e: Id)
    requires CompleteOrder(cols, labels, ids) && CompleteOrder(cols, labels, other) && e in ids
    ensures e in cols && e !in labels && e in other
  {
  }

  /**
   * With two columns to arrange, every complete order is applied as accepted if and only if no column's
   * id is the field key of a column before it.
   */
  lemma {:induction false} CompleteOrdersApplyExactly(cols: seq<Id>, labels: set<Id>, field: map<Id, Id>)
    requires NoDup(cols) && TwoMovable(cols, labels)
    ensures (forall ids :: CompleteOrder(cols, labels, ids) ==> AppliesAsAccepted(cols, labels, field, ids)) <==>
            NoneShadowed(cols, labels, field)
  {
    hide CompleteOrder, OrderForWrite, Reordered, NotShadowed, Resolve, Writable;
    if forall ids :: CompleteOrder(cols, labels, ids) ==> AppliesAsAccepted(cols, labels, field, ids) {
      hide AppliesAsAccepted;
      forall c | c in cols && c !in labels
        ensures NotShadowed(cols, field, c)
      {
        var d :| d in cols && d != c && d !in labels;
        EveryoneWritable(cols, labels, field, c, d);
        WritableIsItself(cols, labels, field, c);
        ResolvesToItself(cols, field, c);
      }
    } else {
      var ids :| CompleteOrder(cols, labels, ids) && !AppliesAsAccepted(cols, labels, field, ids);
      AcceptedOrderReplaysExactly(cols, labels, field, ids);
    }
  }

  /** With fewer than two columns to arrange there is only one order. */
  lemma {:induction false} OneMovable(cols: seq<Id>, labels: set<Id>, field: map<Id, Id>, ids: seq<Id>)
    requires NoDup(cols) && !TwoMovable(cols, labels) && CompleteOrder(cols, labels, ids)
    ensures AppliesAsAccepted(cols, labels, field, ids)
  {
    var named := OrderForWrite(cols, labels, field, ids);
    var other := Keep(cols, Rest(cols, labels, named));
    StaleOrderIsOrderable(cols, labels, field, ids);
    KeepMembers(cols, Rest(cols, labels, named));
    AppliedAsNamed(cols, labels, field, ids);
    hide OrderForWrite, Reordered, Keep;
    if ids == [] {
      KeepNothing(cols, Rest(cols, labels, named));
    } else {
      OnlyMovable(cols, labels, ids[0], ids);
      OnlyMovable(cols, labels, ids[0], named);
      OnlyMovable(cols, labels, ids[0], other);
      assert named == [] ==> ids[0] in other;
    }
  }

  lemma {:induction false} OnlyMovable(cols: seq<Id>, labels: set<Id>, c: Id, s: seq<Id>)
    requires !TwoMovable(cols, labels) && c in cols && c !in labels
    requires NoDup(s) || Orderable(cols, labels, s)
    requires forall d :: d in s ==> d in cols && d !in labels
    ensures s == [] || s == [c]
  {
    if s != [] { assert s[0] in s; }
    if |s| > 1 {
      assert s[1] in s;
      if NoDup(s) { NoDupAt(s, 0, 1); }
    }
  }

  /** A request that spells the order out, when every column has a name to be called by. */
  lemma {:induction false} SpellOut(cols: seq<Id>, field: map<Id, Id>, ids: seq<Id>) returns (order: seq<Id>)
    requires forall c :: c in ids ==> Nameable(cols, field, c)
    ensures Spells(cols, field, order, ids)
  {
    if ids == [] {
      order := [];
    } else {
      hide Resolve, Nameable;
      SnocMembers(ids);
      var c := ids[|ids| - 1];
      order := SpellOut(cols, field, ids[..|ids| - 1]);
      order := order + [NameOf(cols, field, c)];
    }
  }

  ghost function NameOf(cols: seq<Id>, field: map<Id, Id>, c: Id): (e: Id)
    requires Nameable(cols, field, c)
    ensures Resolve(cols, field, e) == Some(c)
  {
    if Resolve(cols, field, c) == Some(c) then c else field[c]
  }

  /** The request is accepted as `ids`. */
  ghost predicate AcceptedAs(cols: seq<Id>, labels: set<Id>, field: map<Id, Id>, order: seq<Id>, ids: seq<Id>) {
    Spells(cols, field, order, ids) && CompleteOrder(cols, labels, ids)
  }

  /** Some column that every order has to name cannot be named. */
  ghost predicate SomeUnnameable(cols: seq<Id>, labels: set<Id>, field: map<Id, Id>) {
    exists c :: c in cols && c !in labels && !Nameable(cols, field, c)
  }

  /**
   * On unchanged columns every accepted request is applied as accepted if and only if no column's id
   * is the field key of a column before it, or there are no two columns to arrange, or some column
   * cannot be named, so that nothing is ever accepted.
   */
  lemma {:induction false} AcceptedOrdersApplyExactly(cols: seq<Id>, labels: set<Id>, field: map<Id, Id>)
    requires NoDup(cols)
    ensures (forall order, ids :: AcceptedAs(cols, labels, field, order, ids) ==>
                                    AppliesAsAccepted(cols, labels, field, ids)) <==>
            || NoneShadowed(cols, labels, field)
            || !TwoMovable(cols, labels) || SomeUnnameable(cols, labels, field)
  {
    hide Resolve, AppliesAsAccepted, NoneShadowed, TwoMovable, Nameable;
    if !TwoMovable(cols, labels) {
      forall order, ids | AcceptedAs(cols, labels, field, order, ids)
        ensures AppliesAsAccepted(cols, labels, field, ids)
      {
        OneMovable(cols, labels, field, ids);
      }
    } else if SomeUnnameable(cols, labels, field) {
      forall order, ids
        ensures !AcceptedAs(cols, labels, field, order, ids)
      {
        AcceptedIsNameable(cols, labels, field, order, ids);
      }
    } else {
      CompleteOrdersApplyExactly(cols, labels, field);
      forall ids | CompleteOrder(cols, labels, ids)
        ensures exists order :: AcceptedAs(cols, labels, field, order, ids)
      {
        var order := SpellOut(cols, field, ids);
        assert AcceptedAs(cols, labels, field, order, ids);
      }
    }
  }

  lemma {:induction false} AcceptedIsNameable(cols: seq<Id>, labels: set<Id>, field: map<Id, Id>, order: seq<Id>,
                                              ids: seq<Id>)
    requires SomeUnnameable(cols, labels, field)
    ensures !AcceptedAs(cols, labels, field, order, ids)
  {
    hide Resolve;
    if AcceptedAs(cols, labels, field, order, ids) {
      var c :| c in cols && c !in labels && !Nameable(cols, field, c);
      var i :| 0 <= i < |ids| && ids[i] == c;
      NamedByIdOrKey(cols, field, order[i], c);
    }
  }

  /** Columns 1 and 2, column 1 keyed 2 and column 2 keyed 7: the id 2 is shadowed. */
  lemma ShadowedColumns()
    ensures var cols, field := [1, 2], map[1 := 2, 2 := 7];
            && Resolve(cols, field, 7) == Some(2) && Resolve(cols, field, 1) == Some(1) &&
              Resolve(cols, field, 2) == Some(1)
            && OrderForWrite(cols, {}, field, [2, 1]) == [1]
  {
    var cols: seq<Id>, field: map<Id, Id> := [1, 2], map[1 := 2, 2 := 7];
    assert [2, 1][..1] == [2] && [2][..0] == [];
    assert cols[1..] == [2];
    assert OrderForWrite(cols, {}, field, [2]) == [1];
  }

  lemma TwoColumnsReordered()
    ensures Reordered([1, 2], {}, [2, 1]) == [2, 1] && Reordered([1, 2], {}, [1]) == [1, 2]
  {
    var cols: seq<Id> := [1, 2];
    KeepNothing(cols, {});
    KeepNothing(cols, Rest(cols, {}, [2, 1]));
    assert Rest(cols, {}, [1]) == {2};
    assert cols[..1] == [1] && [1][..0] == [];
    assert Keep([1], {2}) == [];
    assert Keep(cols, {2}) == Keep([1], {2}) + [2];
  }

  /** The request for 7 and then 1 is accepted as column 2 before column 1, and applied the other way round. */
  lemma ShadowedOrderDiverges()
    ensures var cols, field := [1, 2], map[1 := 2, 2 := 7];
            && Resolve(cols, field, 7) == Some(2) && Resolve(cols, field, 1) == Some(1)
            && CompleteOrder(cols, {}, [2, 1]) && OrderForWrite(cols, {}, field, [2, 1]) == [1]
            && Reordered(cols, {}, [2, 1]) == [2, 1]
            && Reordered(cols, {}, OrderForWrite(cols, {}, field, [2, 1])) == [1, 2]
  {
    hide Resolve, OrderForWrite, Reordered;
    ShadowedColumns();
    TwoColumnsReordered();
  }

  /** The anchor to insert after, or none when it no longer exists. */
  function AfterForWrite(cols: seq<Id>, field: map<Id, Id>, after: Option<Id>): Option<Id> {
    match after case None => None case Some(a) => Resolve(cols, field, a)
  }

  /** Applying a stored order never fails, however stale. */
  method ApplyStoredOrder(repo: MemoryColumns, field: map<Id, Id>, order: seq<Id>)
    requires repo.Valid()
    modifies repo`idx
    ensures repo.Visible() ==
            old(Reordered(repo.Visible(), repo.labels, OrderForWrite(repo.Visible(), repo.labels, field, order)))
  {
    var named := ComputeOrderForWrite(repo.Visible(), repo.labels, field, order);
    StaleOrderIsOrderable(repo.Visible(), repo.labels, field, order);
    var refused := repo.ReorderColumns(named);
  }

  /** Applying a stored insertion never fails: a vanished anchor means last. */
  method ApplyStoredInsert(repo: MemoryColumns, field: map<Id, Id>, after: Option<Id>, isLabel: bool) returns (n: Id)
    requires repo.Valid()
    modifies repo
    ensures repo.Valid() && n !in old(repo.Visible())
    ensures repo.Visible() == (ResolveAnchorInView(old(repo.Visible()), field, after);
                               Inserted(old(repo.Visible()), AfterForWrite(old(repo.Visible()), field, after), n))
  {
    ResolveAnchorInView(repo.Visible(), field, after);
    var r := repo.CreateColumn(AfterForWrite(repo.Visible(), field, after), isLabel);
    n := r.value;
  }

  lemma ResolveAnchorInView(cols: seq<Id>, field: map<Id, Id>, after: Option<Id>)
    ensures AfterForWrite(cols, field, after).Some? ==> AfterForWrite(cols, field, after).value in cols
  {
    if after.Some? { ResolveInView(cols, field, after.value); }
  }
}
