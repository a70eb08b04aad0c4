/** Whose agreement stands behind every change of a cell, over whole runs. */
module GovernedWrites {
  import opened Common
  import opened Forests
  import opened TreeRepository
  import opened Columns
  import opened Governance
  import opened GovernanceLaws
  import opened Signatures

  // ----- cells -----

  function CellAt(s: Sheet, n: Id, c: Id): Option<Cell> {
    if (n, c) in s.cells then Some(s.cells[(n, c)]) else None
  }

  predicate Writes(call: Call, n: Id, c: Id) {
    call.UpdateCell? && call.node == n && call.col == c
  }

  /** Row `n` and column `c` existed before whatever `z` still has of them. */
  ghost predicate NothingRevived(s: Sheet, z: Sheet, n: Id, c: Id) {
    s.nextId <= z.nextId && (n in z.forest.par ==> n in s.forest.par) && (c in z.cols ==> c in s.cols)
  }

  ghost predicate Kept(s: Sheet, z: Sheet, n: Id, c: Id) {
    n in z.forest.par && c in z.cols ==> CellAt(z, n, c) == CellAt(s, n, c)
  }

  lemma {:induction false} WriteCellsElsewhere(s: Sheet, k: Id, values: seq<(Id, Value)>, n: Id, c: Id)
    requires WriteCells(s, k, values).Ok? && k != n
    ensures NothingRevived(s, WriteCells(s, k, values).value, n, c) && Kept(s, WriteCells(s, k, values).value, n, c)
  {
    if values != [] { WriteCellsElsewhere(s, k, values[..|values| - 1], n, c); }
  }

  lemma KeptTrans(s: Sheet, y: Sheet, z: Sheet, n: Id, c: Id)
    requires NothingRevived(y, z, n, c)
    ensures Kept(s, y, n, c) && Kept(y, z, n, c) ==> Kept(s, z, n, c)
  {
  }

  lemma GrownKeeps(s: Sheet, p: Option<Id>, n: Id, c: Id)
    requires AtNode(s.forest, p) && n < s.nextId
    ensures NothingRevived(s, Grown(s, p), n, c) && Kept(s, Grown(s, p), n, c)
  {
  }

  lemma AddKeeps(s: Sheet, p: Option<Id>, values: seq<(Id, Value)>, n: Id, c: Id)
    requires Add(s, p, values).Ok? && n < s.nextId
    ensures NothingRevived(s, Add(s, p, values).value, n, c) && Kept(s, Add(s, p, values).value, n, c)
  {
    hide Grown, Kept, WriteCells;
    GrownKeeps(s, p, n, c);
    WriteCellsElsewhere(Grown(s, p), s.nextId, values, n, c);
    KeptTrans(s, Grown(s, p), Add(s, p, values).value, n, c);
  }

  lemma MoveKeeps(s: Sheet, k: Id, to: Option<Id>, n: Id, c: Id)
    requires Move(s, k, to).Ok?
    ensures NothingRevived(s, Move(s, k, to).value, n, c) && Kept(s, Move(s, k, to).value, n, c)
  {
  }

  lemma DeleteKeeps(s: Sheet, k: Id, n: Id, c: Id)
    requires Delete(s, k).Ok?
    ensures NothingRevived(s, Delete(s, k).value, n, c) && Kept(s, Delete(s, k).value, n, c)
  {
  }

  lemma DropKeeps(s: Sheet, d: Id, n: Id, c: Id)
    requires Drop(s, d).Ok?
    ensures NothingRevived(s, Drop(s, d).value, n, c) && Kept(s, Drop(s, d).value, n, c)
  {
  }

  /** One handler run changes the cell of a surviving row and column only when it is an update of that cell. */
  lemma HandleKeeps(s: Sheet, call: Call, actor: User, n: Id, c: Id)
    requires Handle(s, call, actor).Ok? && n < s.nextId && c < s.nextId
    ensures NothingRevived(s, Handle(s, call, actor).value, n, c)
    ensures Writes(call, n, c) || Kept(s, Handle(s, call, actor).value, n, c)
  {
    hide Add, Move, Delete, Drop, NoDup, SameMembers, Below;
    match call {
      case UpdateCell(_, _, _, _) =>
      case AddNode(p, values) => AddKeeps(s, p, values, n, c);
      case MoveNode(k, to) => MoveKeeps(s, k, to, n, c);
      case DeleteNode(k) => DeleteKeeps(s, k, n, c);
      case DelegateBranch(_, _) =>
      case RevokeDelegation(_) =>
      case GrantColumn(_, _, _) =>
      case SetColumnOrder(_) =>
      case AddColumn(_, _, _, _) =>
      case DeleteColumn(d) => DropKeeps(s, d, n, c);
    }
  }

  lemma {:induction false} ReplayKeeps(s: Sheet, items: seq<Item>, requester: User, r: nat, n: Id, c: Id)
    requires ReplayItems(s, items, requester, r).Ok? && n < s.nextId && c < s.nextId
    ensures NothingRevived(s, ReplayItems(s, items, requester, r).value.sheet, n, c)
    ensures (exists it :: it in items && Writes(it.call, n, c)) ||
            Kept(s, ReplayItems(s, items, requester, r).value.sheet, n, c)
  {
    if items != [] {
      ReplayLast(s, items, requester, r);
      hide Handle, DecidersNow, Kept, ReplayItems;
      var before, it := items[..|items| - 1], items[|items| - 1];
      var z := ReplayItems(s, before, requester, r).value.sheet;
      ReplayKeeps(s, before, requester, r, n, c);
      assert forall i :: i in before ==> i in items;
      HandleKeeps(z, it.call, DecidersNow(z, it.call, Stored(it, requester)).value.approver, n, c);
      KeptTrans(s, z, ReplayItems(s, items, requester, r).value.sheet, n, c);
    }
  }

  // ----- the whole run -----

  /** The last step is an update of the cell by someone who edits the column now. */
  ghost predicate DirectWrite(w: World, a: Action, n: Id, c: Id) {
    && a.Do? && Writes(a.call, n, c)
    && c in w.sheet.cols && a.actor in ColumnApprovers(w.sheet, c)
  }

  /** At step `t` of the run `u`, an owner or editor of `c` at that moment, signed `call` of request `r`. */
  ghost predicate Consented(w: World, acts: seq<Action>, t: nat, r: nat, call: Call, u: User, c: Id) {
    SignedAt(w, acts, t, r, call, u) && u in OwnerAndEditors(Run(w, acts[..t]).sheet, c)
  }

  /**
   * Request `r` is approved, and one of its calls is a write of the cell signed by an owner or editor of
   * the column.
   */
  ghost predicate ApprovedWrite(w: World, acts: seq<Action>, r: nat, n: Id, c: Id) {
    && r < |Run(w, acts).requests| && Run(w, acts).requests[r].status == Approved
    && exists call, t, u ::
         && call in Calls(Run(w, acts).requests[r].body) && Writes(call, n, c)
         && Signs(Run(w, acts).requests[r], call, u) && Consented(w, acts, t, r, call, u, c)
  }

  lemma DecidersOfWrites(s: Sheet, q: Request, call: Call, u: User, n: Id, c: Id)
    requires Writes(call, n, c) && MayDecide(s, q, call, u)
    ensures u in OwnerAndEditors(s, c)
  {
  }

  /** An approval that changes the cell holds a write of it. */
  lemma ApprovalWrites(w: World, r: nat, actor: User, n: Id, c: Id) returns (call: Call)
    requires Approve(w, r, actor).Ok? && r < |w.requests| && n < w.sheet.nextId && c < w.sheet.nextId
    requires !Kept(w.sheet, Approve(w, r, actor).value.sheet, n, c)
    ensures Approve(w, r, actor).value.requests[r].status == Approved
    ensures Writes(call, n, c) && call in Calls(Approve(w, r, actor).value.requests[r].body)
  {
    hide Handle, ReplayItems, DecidersNow, SignItems;
    var q := w.requests[r];
    match q.body {
      case Single(c0, approver, _) =>
        call := c0;
        HandleKeeps(w.sheet, c0, DecidersNow(w.sheet, c0, approver).value.approver, n, c);
      case Batch(items) =>
        var signed := SignItems(w.sheet, items, q.requester, actor).value;
        ReplayKeeps(w.sheet, signed, q.requester, r, n, c);
        var i :| 0 <= i < |signed| && Writes(signed[i].call, n, c);
        call := signed[i].call;
        assert Calls(Batch(signed))[i] == call;
    }
  }

  /** A direct call that changes the cell is a write of it by someone in charge of the column. */
  lemma DirectWrites(w: World, call: Call, actor: User, n: Id, c: Id)
    requires Execute(w, call, actor).Ok? && n < w.sheet.nextId && c < w.sheet.nextId
    requires !Kept(w.sheet, Execute(w, call, actor).value.sheet, n, c)
    ensures DirectWrite(w, Do(call, actor), n, c)
  {
    assert Kept(w.sheet, w.sheet, n, c);
    hide Handle, Kept, Authorize, Resolved, Writes;
    var ready := Resolved(w.sheet, call).value;
    HandleKeeps(w.sheet, ready, actor, n, c);
    WriteResolved(w.sheet, call, ready, actor, n, c);
  }

  /** A write resolves to itself, and is authorised for those in charge of the column. */
  lemma WriteResolved(s: Sheet, call: Call, ready: Call, actor: User, n: Id, c: Id)
    requires Resolved(s, call) == Ok(ready) && Writes(ready, n, c)
    requires Authorize(s, ready, actor).Ok? && Authorize(s, ready, actor).value.ok
    ensures Writes(call, n, c) && c in s.cols && actor in ColumnApprovers(s, c)
  {
    hide ColumnApprovers, ResolvedOrder, Resolve;
  }

  lemma {:induction false} ApprovalsWriteByConsent(w: World, acts: seq<Action>, r: nat, actor: User, n: Id, c: Id)
    requires w.requests == [] && acts != [] && acts[|acts| - 1] == Accept(r, actor)
    requires Approve(Run(w, acts[..|acts| - 1]), r, actor).Ok?
    requires var s := Run(w, acts[..|acts| - 1]).sheet;
             n < s.nextId && c < s.nextId && !Kept(s, Run(w, acts).sheet, n, c)
    ensures ApprovedWrite(w, acts, r, n, c)
  {
    hide Approve, Kept, Calls, OwnerAndEditors, Signs, Writes, MayDecide;
    var before := Run(w, acts[..|acts| - 1]);
    RequestThere(before, r, actor);
    var call := ApprovalWrites(before, r, actor, n, c);
    var u := ClosedIsSigned(before, r, actor, call);
    var t := SignaturesAreGenuine(w, acts, r, call, u);
    var was := Run(w, acts[..t]);
    DecidersOfWrites(was.sheet, was.requests[r], call, u, n, c);
    assert Consented(w, acts, t, r, call, u, c);
  }

  lemma OtherStepsKeep(w: World, a: Action, n: Id, c: Id)
    requires !Kept(w.sheet, Step(w, a).sheet, n, c)
    ensures a.Do? || a.Accept?
    ensures a.Do? ==> Execute(w, a.call, a.actor) == Ok(Step(w, a))
    ensures a.Accept? ==> Approve(w, a.req, a.actor) == Ok(Step(w, a))
  {
  }

  lemma BelowNext(s: Sheet, n: Id, c: Id)
    requires n in s.forest.par && c in s.cols
    ensures n < s.nextId && c < s.nextId
  {
  }

  /**
   * Governed writes.  In every run, the cell of a row and column that exist before and after the
   * last step changes only by a direct update of someone in charge of the column, or by the replay
   * of a request whose write of that very cell carries the signature of an owner or editor of the
   * column, who was one at the step of signing it.
   */
  lemma {:induction false} CellsChangeByConsent(w: World, acts: seq<Action>, n: Id, c: Id)
    requires w.requests == [] && acts != []
    requires var s, z := Run(w, acts[..|acts| - 1]).sheet, Run(w, acts).sheet;
             n in s.forest.par && c in s.cols && !Kept(s, z, n, c)
    ensures var before, a := Run(w, acts[..|acts| - 1]), acts[|acts| - 1];
            DirectWrite(before, a, n, c) || (a.Accept? && ApprovedWrite(w, acts, a.req, n, c))
  {
    hide Step, Kept, Execute, Approve, DirectWrite, ApprovedWrite, SameMembers, Below;
    var before, a := Run(w, acts[..|acts| - 1]), acts[|acts| - 1];
    OtherStepsKeep(before, a, n, c);
    BelowNext(before.sheet, n, c);
    match a {
      case Do(call, actor) => DirectWrites(before, call, actor, n, c);
      case Accept(r, actor) => ApprovalsWriteByConsent(w, acts, r, actor, n, c);
    }
  }
}
