/** Who may act without asking, what acting changes, and how delegation moves that right around. */
module Entitlement {
  import opened Common
  import opened Forests
  import opened ForestEdits
  import opened TreeRepository
  import opened Authority
  import opened Governance
  import opened GovernanceLaws

  /** `u` is the structural approver at `n`. */
  ghost predicate Rules(s: Sheet, n: Option<Id>, u: User) {
    AtNode(s.forest, n) && u == StructuralApprover(s.forest, s.grants, s.owner, n)
  }

  /** The access policy, call by call, without reference to how it is resolved. */
  ghost predicate Entitled(s: Sheet, call: Call, u: User) {
    match call
    case UpdateCell(_, c, _, _) => c in s.cols && u in ColumnApprovers(s, c)
    case DeleteColumn(c) => c in s.cols && u in ColumnApprovers(s, c)
    case GrantColumn(c, _, _) => c in s.cols && (u == s.cols[c].owner || u == s.owner)
    case AddNode(p, _) => Rules(s, p, u)
    case DeleteNode(n) => Rules(s, Some(n), u)
    case DelegateBranch(b, _) => Rules(s, Some(b), u)
    case MoveNode(n, to) => n in s.forest.par && Rules(s, s.forest.par[n], u) && Rules(s, to, u)
    case RevokeDelegation(g) =>
      && g < |s.grants| && s.grants[g].root in s.forest.par
      && (u == s.grants[g].grantedBy || Rules(s, Some(s.grants[g].root), u))
    case SetColumnOrder(_) => u == s.owner
    case AddColumn(_, _, _, _) => u == s.owner
  }

  lemma AuthorityIsPolicy(s: Sheet, call: Call, u: User)
    ensures Entitled(s, call, u) <==> Authorize(s, call, u).Ok? && Authorize(s, call, u).value.ok
  {
    match call {
      case MoveNode(n, to) =>
        if n in s.forest.par { assert s.forest.LinkOk(n); }
      case _ =>
    }
  }

  /** The call ran at once, as `u`, and filed nothing. */
  ghost predicate RanDirectly(w: World, z: World, call: Call, u: User) {
    z.requests == w.requests && z.log == w.log + [Event(Ran(call), None, u)] && Handle(w.sheet, call, u) == Ok(z.sheet)
  }

  /** The call was filed, and the sheet left alone. */
  ghost predicate WasFiled(w: World, z: World, call: Call, u: User) {
    exists approver :: z == File(w, Single(call, approver, {}), u)
  }

  /**
   * A call whose references resolve either runs at once, exactly when its actor is entitled and the
   * sheet does not make owners ask, or is filed, or is refused and changes nothing.
   */
  lemma RunsExactlyWhenEntitled(w: World, call: Call, ready: Call, u: User)
    requires Resolved(w.sheet, call) == Ok(ready)
    ensures var z, direct := Step(w, Do(call, u)), Entitled(w.sheet, ready, u) && !MustSuggest(w.sheet, ready);
            && (direct && Handle(w.sheet, ready, u).Ok? ==> RanDirectly(w, z, ready, u))
            && (direct && Handle(w.sheet, ready, u).Err? ==> z == w)
            && (!direct && Authorize(w.sheet, ready, u).Ok? ==> WasFiled(w, z, ready, u))
            && (!direct && Authorize(w.sheet, ready, u).Err? ==> z == w)
  {
    AuthorityIsPolicy(w.sheet, ready, u);
    var auth := Authorize(w.sheet, ready, u);
    if auth.Ok? {
      assert File(w, Single(ready, auth.value.approver, {}), u) == File(w, Single(ready, auth.value.approver, {}), u);
    }
  }

  // ----- deciding about a request -----

  /** Who may sign a request for the call, as things stand; narrower than who may run it. */
  ghost predicate Decides(s: Sheet, call: Call, stored: User, u: User) {
    match call
    case UpdateCell(_, c, _, _) => u in OwnerAndEditors(s, c)
    case DeleteColumn(c) => u in OwnerAndEditors(s, c)
    case GrantColumn(c, _, _) => c in s.cols && u == s.cols[c].owner
    case AddNode(p, _) => Rules(s, p, u)
    case DeleteNode(n) => Rules(s, Some(n), u)
    case DelegateBranch(b, _) => Rules(s, Some(b), u)
    case MoveNode(n, to) => n in s.forest.par && (Rules(s, s.forest.par[n], u) || Rules(s, to, u))
    case RevokeDelegation(g) => if g < |s.grants| then u == s.grants[g].grantedBy else u == stored
    case SetColumnOrder(_) => u == s.owner
    case AddColumn(_, _, _, _) => u == s.owner
  }

  lemma DecidersArePolicy(s: Sheet, call: Call, stored: User, u: User)
    requires DecidersNow(s, call, stored).Ok?
    ensures u in DecidersNow(s, call, stored).value.allowed <==> Decides(s, call, stored, u)
  {
    if call.MoveNode? { assert s.forest.LinkOk(call.node); }
  }

  /** Signing a batch signs exactly the unsigned items the actor decides about, and forgets no earlier signature. */
  lemma {:induction false} SigningIsExact(s: Sheet, items: seq<Item>, requester: User, actor: User, i: nat)
    requires SignItems(s, items, requester, actor).Ok? && i < |items|
    ensures var signed := SignItems(s, items, requester, actor).value;
            && |signed| == |items| && signed[i].call == items[i].call
            && signed[i].approvedBy ==
               if items[i].approvedBy.None? && Decides(s, items[i].call, Stored(items[i], requester), actor)
                                       then Some(actor) else items[i].approvedBy
  {
    SigningKeepsCalls(s, items, requester, actor);
    if i == |items| - 1 {
      hide Decides;
      DecidersArePolicy(s, items[i].call, Stored(items[i], requester), actor);
    } else {
      SigningIsExact(s, items[..|items| - 1], requester, actor, i);
      SigningKeepsCalls(s, items[..|items| - 1], requester, actor);
    }
  }

  /** Item `i` is signed already, or its signature is the actor's to give. */
  ghost predicate Ready(s: Sheet, items: seq<Item>, requester: User, actor: User, i: nat)
    requires i < |items|
  {
    items[i].approvedBy.Some? || Decides(s, items[i].call, Stored(items[i], requester), actor)
  }

  /** A batch is applied exactly when this approval leaves no item unsigned and every item replays. */
  lemma {:induction false} BatchClosesExactly(w: World, r: nat, actor: User)
    requires r < |w.requests| && w.requests[r].status == Proposed && w.requests[r].body.Batch? &&
             w.requests[r].body.items != []
    requires SignItems(w.sheet, w.requests[r].body.items, w.requests[r].requester, actor).Ok?
    ensures var q, z := w.requests[r], Step(w, Accept(r, actor));
            && var signed := SignItems(w.sheet, q.body.items, q.requester, actor).value;
            z.requests[r].status == Approved <==>
              && (forall i {:trigger Ready(w.sheet, q.body.items, q.requester, actor, i)} ::
                    0 <= i < |q.body.items| ==> Ready(w.sheet, q.body.items, q.requester, actor, i))
              && ReplayItems(w.sheet, signed, q.requester, r).Ok?
  {
    hide SignItems, ReplayItems, Ready;
    var q := w.requests[r];
    var signed := SignItems(w.sheet, q.body.items, q.requester, actor).value;
    SigningKeepsCalls(w.sheet, q.body.items, q.requester, actor);
    forall i | 0 <= i < |signed|
      ensures signed[i].approvedBy.Some? <==> Ready(w.sheet, q.body.items, q.requester, actor, i)
    {
      SignedIsReady(w.sheet, q.body.items, q.requester, actor, i);
    }
    AllSignedPointwise(signed, w.sheet, q.body.items, q.requester, actor);
  }

  lemma {:induction false} SignedIsReady(s: Sheet, items: seq<Item>, requester: User, actor: User, i: nat)
    requires SignItems(s, items, requester, actor).Ok? && i < |items|
    ensures i < |SignItems(s, items, requester, actor).value|
    ensures SignItems(s, items, requester, actor).value[i].approvedBy.Some? <==> Ready(s, items, requester, actor, i)
  {
    hide SignItems, Decides;
    SigningIsExact(s, items, requester, actor, i);
  }

  lemma AllSignedPointwise(signed: seq<Item>, s: Sheet, items: seq<Item>, requester: User, actor: User)
    requires |signed| == |items|
    requires forall i :: 0 <= i < |signed| ==> (signed[i].approvedBy.Some? <==> Ready(s, items, requester, actor, i))
    ensures AllSigned(signed) <==> forall i {:trigger Ready(s, items, requester, actor, i)} ::
                                     0 <= i < |items| ==> Ready(s, items, requester, actor, i)
  {
    if AllSigned(signed) {
      forall i | 0 <= i < |items| ensures Ready(s, items, requester, actor, i) { assert signed[i] in signed; }
    }
  }

  /**
   * A single request other than a move is applied by the first signature of anyone who decides, as the
   * routed approver.
   */
  lemma SingleClosesExactly(w: World, r: nat, actor: User)
    requires r < |w.requests| && w.requests[r].status == Proposed
    requires w.requests[r].body.Single? && !w.requests[r].body.call.MoveNode?
    requires DecidersNow(w.sheet, w.requests[r].body.call, w.requests[r].body.approver).Ok?
    ensures var b, z := w.requests[r].body, Step(w, Accept(r, actor));
            var ran := Handle(w.sheet, b.call, DecidersNow(w.sheet, b.call, b.approver).value.approver);
            && (z.requests[r].status == Approved <==> Decides(w.sheet, b.call, b.approver, actor) && ran.Ok?)
            && (z.requests[r].status == Approved ==> z.sheet == ran.value)
            && (z.requests[r].status != Approved ==> z == w)
  {
    NoCoApprovers(w.sheet, w.requests[r].body.call, w.requests[r].body.approver);
    hide Decides, Handle, DecidersNow;
    DecidersArePolicy(w.sheet, w.requests[r].body.call, w.requests[r].body.approver, actor);
  }

  /** Only a move needs a second approver. */
  lemma NoCoApprovers(s: Sheet, call: Call, stored: User)
    requires !call.MoveNode? && DecidersNow(s, call, stored).Ok?
    ensures DecidersNow(s, call, stored).value.co == {}
  {
    hide StructuralApprover, ColumnApprovers, OwnerAndEditors;
  }

  /** `u` decides about some item. */
  ghost predicate DecidesSome(s: Sheet, items: seq<Item>, requester: User, u: User) {
    exists it :: it in items && Decides(s, it.call, Stored(it, requester), u)
  }

  lemma {:induction false} AllowedIsSomeItem(s: Sheet, items: seq<Item>, requester: User, u: User)
    requires AllowedOnItems(s, items, requester).Ok?
    ensures u in AllowedOnItems(s, items, requester).value <==> DecidesSome(s, items, requester, u)
  {
    if items != [] {
      hide Decides, DecidersNow;
      var before, it := items[..|items| - 1], items[|items| - 1];
      assert items == before + [it];
      AllowedIsSomeItem(s, before, requester, u);
      DecidersArePolicy(s, it.call, Stored(it, requester), u);
      if DecidesSome(s, before, requester, u) {
        var x :| x in before && Decides(s, x.call, Stored(x, requester), u);
        assert x in items;
      }
      assert it in items;
    }
  }

  /** A batch is rejected whole exactly by someone who decides about one of its items; nothing is applied. */
  lemma BatchRejectedExactly(w: World, r: nat, actor: User)
    requires r < |w.requests| && w.requests[r].status == Proposed && w.requests[r].body.Batch? &&
             w.requests[r].body.items != []
    requires AllowedOnItems(w.sheet, w.requests[r].body.items, w.requests[r].requester).Ok?
    ensures var q, z := w.requests[r], Step(w, Refuse(r, actor));
            && (z.requests[r].status == Rejected <==> DecidesSome(w.sheet, q.body.items, q.requester, actor))
            && z.sheet == w.sheet
  {
    AllowedIsSomeItem(w.sheet, w.requests[r].body.items, w.requests[r].requester, actor);
  }

  // ----- what a handler changes -----

  /** Each call changes only its own part of the sheet, whoever runs it. */
  lemma HandlersKeepTheRest(s: Sheet, call: Call, actor: User)
    requires Handle(s, call, actor).Ok?
    ensures var z := Handle(s, call, actor).value;
            && z.owner == s.owner && z.roles == s.roles && z.ownersSuggest == s.ownersSuggest
            && (!(call.AddNode? || call.MoveNode? || call.DeleteNode?) ==> z.forest == s.forest)
            && (!(call.DelegateBranch? || call.RevokeDelegation?) ==> z.grants == s.grants)
            && (!(call.GrantColumn? || call.AddColumn? || call.DeleteColumn?) ==> z.cols == s.cols)
            && (!(call.SetColumnOrder? || call.AddColumn? || call.DeleteColumn?) ==>
                z.colOrder == s.colOrder && z.labels == s.labels)
            && (!(call.UpdateCell? || call.AddNode? || call.DeleteNode? || call.DeleteColumn?) ==> z.cells == s.cells)
  {
    hide NoDup, SameMembers, Below, Created, Moved, Deleted;
    if call.AddNode? && AtNode(s.forest, call.parent) {
      CellWritesKeepTheRest(Grown(s, call.parent), s.nextId, call.values);
    }
  }

  lemma {:induction false} CellWritesKeepTheRest(s: Sheet, n: Id, values: seq<(Id, Value)>)
    requires WriteCells(s, n, values).Ok?
    ensures WriteCells(s, n, values).value == s.(cells := WriteCells(s, n, values).value.cells)
    ensures var cells := WriteCells(s, n, values).value.cells;
            forall nc: (Id, Id) :: nc.0 != n && (nc in s.cells || nc in cells) ==>
              nc in s.cells && nc in cells && cells[nc] == s.cells[nc]
  {
    if values != [] { CellWritesKeepTheRest(s, n, values[..|values| - 1]); }
  }

  // ----- direct calls, over whole runs -----

  lemma {:induction false} ReplayEvents(s: Sheet, items: seq<Item>, requester: User, r: nat, e: Event)
    requires ReplayItems(s, items, requester, r).Ok? && e in ReplayItems(s, items, requester, r).value.ran
    ensures e.request == Some(r)
  {
    if items != [] {
      ReplayLast(s, items, requester, r);
      hide Handle, DecidersNow;
      var before := items[..|items| - 1];
      if e in ReplayItems(s, before, requester, r).value.ran { ReplayEvents(s, before, requester, r, e); }
    }
  }

  /** Whatever an approval records belongs to its request. */
  lemma ApprovalEvents(w: World, r: nat, actor: User, i: nat)
    requires Approve(w, r, actor).Ok? && |w.log| <= i < |Approve(w, r, actor).value.log|
    ensures Approve(w, r, actor).value.log[i].request.Some?
  {
    hide Handle, DecidersNow, SignItems, ReplayItems;
    var q, e := w.requests[r], Approve(w, r, actor).value.log[i];
    if q.body.Batch? {
      var signed := SignItems(w.sheet, q.body.items, q.requester, actor).value;
      var ran := ReplayItems(w.sheet, signed, q.requester, r).value.ran;
      if i - |w.log| < |ran| {
        assert e == ran[i - |w.log|];
        ReplayEvents(w.sheet, signed, q.requester, r, e);
      }
    }
  }

  /** Step `t` of the run is `u` making this call, entitled to it at that moment, and it is entry `i` of the log. */
  ghost predicate RanAt(w: World, acts: seq<Action>, t: nat, i: nat, call: Call, u: User) {
    t < |acts| && RanNow(Run(w, acts[..t]), acts[t], i, call, u)
  }

  ghost predicate RanNow(w: World, a: Action, i: nat, call: Call, u: User) {
    && a.Do? && a.actor == u && Resolved(w.sheet, a.call) == Ok(call)
    && Entitled(w.sheet, call, u) && !MustSuggest(w.sheet, call)
    && i == |w.log| && RanDirectly(w, Step(w, a), call, u)
  }

  lemma NewDirectEvent(w: World, a: Action, i: nat, call: Call, u: User)
    requires |w.log| <= i < |Step(w, a).log| && Step(w, a).log[i] == Event(Ran(call), None, u)
    ensures RanNow(w, a, i, call, u)
  {
    hide Handle, Entitled, Resolved, Authorize, Itemize, Approve, AllowedOn;
    match a {
      case Do(asked, actor) => RunsExactlyWhenEntitled(w, asked, Resolved(w.sheet, asked).value, actor);
      case Accept(r, actor) => ApprovalEvents(w, r, actor, i);
      case Suggest(_, _) =>
      case Refuse(_, _) =>
      case Retract(_, _) =>
      case AssignRoles(_) =>
    }
  }

  /**
   * Mutate or suggest.  In every run, each entry of the log that belongs to no request was made by a
   * call of a user whom the policy entitled to it at that moment, on a sheet that did not make
   * owners ask, and the sheet took that call's effect at once.
   */
  lemma {:induction false} DirectEventsAreEntitled(w: World, acts: seq<Action>, i: nat, call: Call, u: User)
    returns (t: nat)
    requires w.log == [] && i < |Run(w, acts).log| && Run(w, acts).log[i] == Event(Ran(call), None, u)
    ensures RanAt(w, acts, t, i, call, u)
  {
    hide Step, RanNow;
    var rest, a := acts[..|acts| - 1], acts[|acts| - 1];
    var z := Run(w, rest);
    if i < |z.log| {
      StepGrows(z, a);
      assert z.log[i] == Run(w, acts).log[i];
      t := DirectEventsAreEntitled(w, rest, i, call, u);
      assert rest[..t] == acts[..t];
    } else {
      t := |acts| - 1;
      NewDirectEvent(z, a, i, call, u);
    }
  }
}
