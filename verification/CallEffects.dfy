/**
 * What each call does to the sheet, said in terms of rows, parents, cells, grants and columns, when
 * it is refused, and that direct calls, approvals and batches have exactly these effects.
 */
module CallEffects {
  import opened Common
  import opened Forests
  import opened ForestEdits
  import opened TreeRepository
  import opened EditLaws
  import opened Columns
  import opened ColumnLaws
  import opened Authority
  import opened Governance
  import opened Entitlement

  // ----- cells -----

  function VersionAt(s: Sheet, n: Id, c: Id): nat {
    if (n, c) in s.cells then s.cells[(n, c)].version else 0
  }

  /** The cell takes the value and the next version; nothing else changes. */
  ghost predicate UpdateEffect(s: Sheet, n: Id, c: Id, v: Value, z: Sheet) {
    && z == s.(cells := z.cells)
    && (n, c) in z.cells && z.cells[(n, c)].value == v && z.cells[(n, c)].version == VersionAt(s, n, c) + 1
    && forall nc :: nc != (n, c) ==> SameCell(s, z, nc)
  }

  ghost predicate SameCell(s: Sheet, z: Sheet, nc: (Id, Id)) {
    (nc in z.cells <==> nc in s.cells) && (nc in s.cells ==> z.cells[nc] == s.cells[nc])
  }

  /** Entry `i` is the last of the list for column `c`. */
  ghost predicate LastFor(values: seq<(Id, Value)>, i: nat, c: Id) {
    i < |values| && values[i].0 == c && forall j :: i < j < |values| ==> values[j].0 != c
  }

  /** The cell stays when the list does not mention its column, and else holds the last value listed for it. */
  ghost predicate CellHolds(s: Sheet, n: Id, values: seq<(Id, Value)>, z: Sheet, c: Id) {
    && ((forall i: nat :: !LastFor(values, i, c)) ==> SameCell(s, z, (n, c)))
    && forall i: nat :: LastFor(values, i, c) ==>
                          && (n, c) in z.cells && z.cells[(n, c)].value == values[i].1
                          && z.cells[(n, c)].version > VersionAt(s, n, c)
  }

  lemma {:induction false} WritesHold(s: Sheet, n: Id, values: seq<(Id, Value)>, c: Id)
    requires WriteCells(s, n, values).Ok?
    ensures CellHolds(s, n, values, WriteCells(s, n, values).value, c)
  {
    if values != [] {
      var before, cv := values[..|values| - 1], values[|values| - 1];
      WritesHold(s, n, before, c);
      LastForSnoc(values, c);
      var y, z := WriteCells(s, n, before).value, WriteCells(s, n, values).value;
      assert z == WriteCell(y, n, cv.0, cv.1);
      if cv.0 == c {
        assert LastFor(values, |values| - 1, c);
        assert VersionAt(y, n, c) >= VersionAt(s, n, c) by {
          if i: nat :| LastFor(before, i, c) { assert (n, c) in y.cells; } else { assert SameCell(s, y, (n, c)); }
        }
      } else {
        assert SameCell(y, z, (n, c));
        if forall i: nat :: !LastFor(values, i, c) {
          forall i: nat
            ensures !LastFor(before, i, c)
          {
            assert !LastFor(values, i, c);
          }
        }
      }
    }
  }

  lemma LastForSnoc(values: seq<(Id, Value)>, c: Id)
    requires values != []
    ensures values[|values| - 1].0 == c ==> forall i: nat :: LastFor(values, i, c) <==> i == |values| - 1
    ensures values[|values| - 1].0 != c ==>
              forall i: nat :: LastFor(values, i, c) <==> LastFor(values[..|values| - 1], i, c)
  {
  }

  lemma {:induction false} WritesSucceedExactly(s: Sheet, n: Id, values: seq<(Id, Value)>)
    ensures WriteCells(s, n, values).Ok? <==> forall i :: 0 <= i < |values| ==> values[i].0 in s.cols
    ensures WriteCells(s, n, values).Err? ==> WriteCells(s, n, values).error == Missing
  {
    if values != [] {
      WritesSucceedExactly(s, n, values[..|values| - 1]);
      if WriteCells(s, n, values[..|values| - 1]).Ok? { CellWritesKeepTheRest(s, n, values[..|values| - 1]); }
    }
  }

  // ----- the effect of each call -----

  /** A new row is the last child of `p`, with exactly the given values; every other row and cell stays. */
  ghost predicate AddEffect(s: Sheet, p: Option<Id>, values: seq<(Id, Value)>, z: Sheet) {
    && z == s.(forest := z.forest, cells := z.cells, nextId := s.nextId + 1)
    && s.nextId !in s.forest.par && z.forest.par == s.forest.par[s.nextId := p]
    && (forall q :: Kids(z.forest, q) == Kids(s.forest, q) + (if q == p then [s.nextId] else []))
    && RowWritten(s, s.nextId, values, z)
  }

  /** One parent changes, and no row its place in insertion order. */
  ghost predicate MoveEffect(s: Sheet, n: Id, to: Option<Id>, z: Sheet) {
    z == s.(forest := z.forest) && z.forest.par == s.forest.par[n := to] && z.forest.order == s.forest.order
  }

  /** Exactly the rows at or below `n` go, with their cells; the others keep parent, order and cells. */
  ghost predicate DeleteEffect(s: Sheet, n: Id, z: Sheet)
    requires n in s.forest.par
  {
    && z == s.(forest := z.forest, cells := z.cells)
    && (forall k :: k in z.forest.par <==> k in s.forest.par && !Anc(s.forest, n, k))
    && (forall k :: k in z.forest.par ==> z.forest.par[k] == s.forest.par[k])
    && (forall a, b {:trigger Before(z.forest.order, a, b)} :: a in z.forest.par && b in z.forest.par ==>
          (Before(z.forest.order, a, b) <==> Before(s.forest.order, a, b)))
    && (forall nc :: nc in z.cells <==> nc in s.cells && !(nc.0 in s.forest.par && Anc(s.forest, n, nc.0)))
    && forall nc :: nc in z.cells ==> z.cells[nc] == s.cells[nc]
  }

  ghost predicate GrantEffect(s: Sheet, c: Id, o: Option<User>, es: Option<seq<User>>, z: Sheet) {
    && c in s.cols && z == s.(cols := s.cols[c := Acl(if o.Some? then o.value else s.cols[c].owner,
                                                      if es.Some? then es.value else s.cols[c].editors)])
  }

  /** Grant `g` is switched off, and all others stay. */
  ghost predicate RevokeEffect(s: Sheet, g: nat, z: Sheet) {
    && g < |s.grants| && z == s.(grants := z.grants) && |z.grants| == |s.grants|
    && z.grants[g] == s.grants[g].(active := false)
    && forall i :: 0 <= i < |s.grants| && i != g ==> z.grants[i] == s.grants[i]
  }

  ghost predicate OrderEffect(s: Sheet, order: seq<Id>, z: Sheet) {
    && z == s.(colOrder := z.colOrder)
    && LabelsNamedRest(s.colOrder, s.labels, OrderForWrite(s.colOrder, s.labels, s.field, order), z.colOrder)
  }

  /** A new column under a fresh id, after its anchor or last; its owner is the one named, or whoever runs the call. */
  ghost predicate ColumnEffect(s: Sheet, key: Id, o: User, isLabel: bool, after: Option<Id>, actor: User, z: Sheet) {
    && z == s.(colOrder := z.colOrder, cols := z.cols, field := z.field, labels := z.labels, nextId := s.nextId + 1)
    && s.nextId !in s.cols && z.cols == s.cols[s.nextId := Acl(if o == "" then actor else o, [])]
    && z.field == s.field[s.nextId := key] && z.labels == (if isLabel then s.labels + {s.nextId} else s.labels)
    && ShowsAfter(s.colOrder, if after == None then None else Resolve(s.colOrder, s.field, after.value),
                  s.nextId, z.colOrder)
  }

  /** The column goes, with its place, its key, its mark as a label and its cells. */
  ghost predicate DropEffect(s: Sheet, c: Id, z: Sheet) {
    && z == s.(colOrder := z.colOrder, cols := z.cols, field := z.field, labels := z.labels, cells := z.cells)
    && Loses(s.colOrder, c, z.colOrder)
    && z.cols == s.cols - {c} && z.field == s.field - {c} && z.labels == s.labels - {c}
    && (forall nc: (Id, Id) :: nc in z.cells <==> nc in s.cells && nc.1 != c)
    && forall nc: (Id, Id) :: nc in z.cells ==> z.cells[nc] == s.cells[nc]
  }

  ghost predicate Effect(s: Sheet, call: Call, actor: User, z: Sheet) {
    match call
    case UpdateCell(n, c, v, _) => UpdateEffect(s, n, c, v, z)
    case AddNode(p, values) => AddEffect(s, p, values, z)
    case MoveNode(n, to) => MoveEffect(s, n, to, z)
    case DeleteNode(n) => n in s.forest.par && DeleteEffect(s, n, z)
    case DelegateBranch(b, u) => z == s.(grants := s.grants + [Grant(b, u, actor, true)])
    case RevokeDelegation(g) => RevokeEffect(s, g, z)
    case GrantColumn(c, o, es) => GrantEffect(s, c, o, es, z)
    case SetColumnOrder(order) => OrderEffect(s, order, z)
    case AddColumn(key, o, isLabel, after) => ColumnEffect(s, key, o, isLabel, after, actor, z)
    case DeleteColumn(c) => DropEffect(s, c, z)
  }

  lemma UpdateTakesEffect(s: Sheet, n: Id, c: Id, v: Value, base: Option<nat>)
    requires Update(s, n, c, v, base).Ok?
    ensures UpdateEffect(s, n, c, v, Update(s, n, c, v, base).value)
  {
  }

  /** Writing a row's cells, over all columns and all other cells. */
  ghost predicate RowWritten(s: Sheet, n: Id, values: seq<(Id, Value)>, z: Sheet) {
    (forall c: Id :: CellHolds(s, n, values, z, c)) && forall nc: (Id, Id) :: nc.0 != n ==> SameCell(s, z, nc)
  }

  lemma {:induction false} WritesRow(s: Sheet, n: Id, values: seq<(Id, Value)>)
    requires WriteCells(s, n, values).Ok?
    ensures RowWritten(s, n, values, WriteCells(s, n, values).value)
  {
    hide WriteCells, CellHolds;
    forall c: Id
      ensures CellHolds(s, n, values, WriteCells(s, n, values).value, c)
    {
      WritesHold(s, n, values, c);
    }
    CellWritesKeepTheRest(s, n, values);
  }

  lemma SameCellsWritten(s: Sheet, y: Sheet, n: Id, values: seq<(Id, Value)>, z: Sheet)
    requires RowWritten(y, n, values, z) && y.cells == s.cells
    ensures RowWritten(s, n, values, z)
  {
    hide LastFor;
    forall c: Id
      ensures CellHolds(s, n, values, z, c)
    {
      assert CellHolds(y, n, values, z, c);
    }
    forall nc: (Id, Id) | nc.0 != n
      ensures SameCell(s, z, nc)
    {
      assert SameCell(y, z, nc);
    }
  }

  lemma GrownIs(s: Sheet, p: Option<Id>)
    requires AtNode(s.forest, p)
    ensures s.nextId !in s.forest.par
    ensures Grown(s, p) == s.(forest := Created(s.forest, s.nextId, p), nextId := s.nextId + 1)
  {
    hide Created, NoDup, TidyColumns;
  }

  lemma AddTakesEffect(s: Sheet, p: Option<Id>, values: seq<(Id, Value)>)
    requires Add(s, p, values).Ok?
    ensures AddEffect(s, p, values, Add(s, p, values).value)
  {
    var y := Grown(s, p);
    assert AtNode(s.forest, p) && Add(s, p, values) == WriteCells(y, s.nextId, values);
    hide *;
    var z := Add(s, p, values).value;
    GrownIs(s, p);
    CreatedIsLastChild(s.forest, s.nextId, p);
    CellWritesKeepTheRest(y, s.nextId, values);
    WritesRow(y, s.nextId, values);
    SameCellsWritten(s, y, s.nextId, values, z);
    AddEffectIs(s, p, values, z);
  }

  lemma AddEffectIs(s: Sheet, p: Option<Id>, values: seq<(Id, Value)>, z: Sheet)
    requires AtNode(s.forest, p) && s.nextId !in s.forest.par
    requires z == s.(forest := Created(s.forest, s.nextId, p), cells := z.cells, nextId := s.nextId + 1)
    requires Created(s.forest, s.nextId, p).par == s.forest.par[s.nextId := p]
    requires forall q :: Kids(Created(s.forest, s.nextId, p), q) ==
                         Kids(s.forest, q) + (if q == p then [s.nextId] else [])
    requires RowWritten(s, s.nextId, values, z)
    ensures AddEffect(s, p, values, z)
  {
    hide Created, RowWritten, Kids;
  }

  lemma MoveTakesEffect(s: Sheet, n: Id, to: Option<Id>)
    requires Move(s, n, to).Ok?
    ensures MoveEffect(s, n, to, Move(s, n, to).value)
  {
    hide MovedDepth, Anc, NoDup;
  }

  lemma DeleteTakesEffect(s: Sheet, n: Id)
    requires Delete(s, n).Ok?
    ensures n in s.forest.par && DeleteEffect(s, n, Delete(s, n).value)
  {
    var z := Delete(s, n).value;
    assert z == s.(forest := Deleted(s.forest, n), cells := CellsOutside(s.cells, Sub(s.forest, n)));
    forall a, b | a in z.forest.par && b in z.forest.par
      ensures Before(z.forest.order, a, b) <==> Before(s.forest.order, a, b)
    {
      DeletedRowsAre(s.forest, n, a, b);
    }
    hide Before, Without, NoDup, Anc;
  }

  lemma OrderTakesEffect(s: Sheet, order: seq<Id>)
    requires Reorder(s, order).Ok?
    ensures OrderEffect(s, order, Reorder(s, order).value)
  {
    hide Reordered, NoDup, SameMembers, OrderForWrite, Below;
    ReorderedShows(s.colOrder, s.labels, OrderForWrite(s.colOrder, s.labels, s.field, order));
  }

  lemma ColumnTakesEffect(s: Sheet, key: Id, o: User, isLabel: bool, after: Option<Id>, actor: User)
    requires Insert(s, key, if o == "" then actor else o, isLabel, after).Ok?
    ensures ColumnEffect(s, key, o, isLabel, after, actor,
                         Insert(s, key, if o == "" then actor else o, isLabel, after).value)
  {
    hide Inserted, NoDup;
    InsertedShows(s.colOrder, AfterForWrite(s.colOrder, s.field, after), s.nextId);
  }

  lemma DropTakesEffect(s: Sheet, c: Id)
    requires Drop(s, c).Ok?
    ensures DropEffect(s, c, Drop(s, c).value)
  {
    hide Dropped, NoDup;
    DroppedShows(s.colOrder, c);
  }

  /** Every call that is carried out has its effect, and nothing else. */
  lemma HandlersTakeEffect(s: Sheet, call: Call, actor: User)
    requires Handle(s, call, actor).Ok?
    ensures Effect(s, call, actor, Handle(s, call, actor).value)
  {
    hide UpdateEffect, AddEffect, MoveEffect, DeleteEffect, OrderEffect, ColumnEffect, DropEffect,
      Update, Add, Move, Delete, Reorder, Insert, Drop;
    match call {
      case UpdateCell(n, c, v, base) => UpdateTakesEffect(s, n, c, v, base);
      case AddNode(p, values) => AddTakesEffect(s, p, values);
      case MoveNode(n, to) => MoveTakesEffect(s, n, to);
      case DeleteNode(n) => DeleteTakesEffect(s, n);
      case SetColumnOrder(order) => OrderTakesEffect(s, order);
      case AddColumn(key, o, isLabel, after) => ColumnTakesEffect(s, key, o, isLabel, after, actor);
      case DeleteColumn(c) => DropTakesEffect(s, c);
      case _ =>
    }
  }

  // ----- when a call cannot be carried out -----

  /** Why the call cannot be carried out on this sheet, if it cannot. */
  ghost predicate RefusedAs(s: Sheet, call: Call, actor: User, e: Refusal) {
    match call
    case UpdateCell(n, c, _, base) =>
      || (e == Missing && c !in s.cols)
      || (e == Stale && c in s.cols && base.Some? && base.value != VersionAt(s, n, c))
    case AddNode(p, values) =>
      e == Missing && (!AtNode(s.forest, p) || exists i :: 0 <= i < |values| && values[i].0 !in s.cols)
    case MoveNode(n, to) =>
      || (e == Missing && (n !in s.forest.par || !AtNode(s.forest, to)))
      || (e == CycleRefused && n in s.forest.par && to.Some? && AtNode(s.forest, to) && Anc(s.forest, n, to.value))
    case DeleteNode(n) => e == Missing && n !in s.forest.par
    case DelegateBranch(_, _) => false
    case RevokeDelegation(g) => e == Missing && g >= |s.grants|
    case GrantColumn(c, o, es) =>
      || (e == BadParams && NamesDomain(o, es))
      || (e == Missing && !NamesDomain(o, es) && c !in s.cols)
    case SetColumnOrder(_) => false
    case AddColumn(_, o, _, _) => e == BadParams && IsDomain(if o == "" then actor else o)
    case DeleteColumn(c) => e == Missing && c !in s.cols
  }

  ghost predicate NamesDomain(o: Option<User>, es: Option<seq<User>>) {
    (o.Some? && IsDomain(o.value)) || (es.Some? && exists p :: p in es.value && IsDomain(p))
  }

  lemma AddRefusedExactly(s: Sheet, p: Option<Id>, values: seq<(Id, Value)>)
    ensures Add(s, p, values).Err? <==> !AtNode(s.forest, p) || exists i :: 0 <= i < |values| && values[i].0 !in s.cols
    ensures Add(s, p, values).Err? ==> Add(s, p, values).error == Missing
  {
    hide WriteCells, Created, NoDup, SameMembers;
    if AtNode(s.forest, p) {
      GrownIs(s, p);
      WritesSucceedExactly(Grown(s, p), s.nextId, values);
    }
  }

  /** A call is refused exactly for these reasons, and otherwise carried out. */
  lemma HandlersRefuseExactly(s: Sheet, call: Call, actor: User, e: Refusal)
    ensures Handle(s, call, actor) == Err(e) <==> RefusedAs(s, call, actor, e)
  {
    hide Add, Anc, Moved, Deleted, Dropped, Inserted, Reordered, OrderForWrite, NoDup, SameMembers, Resolve, Orderable;
    match call {
      case AddNode(p, values) => AddRefusedExactly(s, p, values);
      case MoveNode(n, to) => MoveRefusedExactly(s.forest, n, to, None);
      case SetColumnOrder(order) => StaleOrderIsOrderable(s.colOrder, s.labels, s.field, order);
      case AddColumn(_, _, _, after) => ResolveAnchorInView(s.colOrder, s.field, after);
      case _ =>
    }
  }
}
