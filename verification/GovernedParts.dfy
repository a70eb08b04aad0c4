/** Whose agreement stands behind every change of rows, grants, column authority and column order, over whole runs. */
module GovernedParts {
  import opened Common
  import opened Governance
  import opened GovernanceLaws
  import opened Entitlement
  import opened Signatures

  /** The parts of a sheet, beside its cells, that calls change. */
  datatype Part = RowTree | BranchGrants | ColumnAcls | ColumnOrder | Ownership

  /** The calls that exist to change the part; nothing exists to change who owns the sheet. */
  predicate Concerns(part: Part, call: Call) {
    match part
    case RowTree => call.AddNode? || call.MoveNode? || call.DeleteNode?
    case BranchGrants => call.DelegateBranch? || call.RevokeDelegation?
    case ColumnAcls => call.GrantColumn? || call.AddColumn? || call.DeleteColumn?
    case ColumnOrder => call.SetColumnOrder? || call.AddColumn? || call.DeleteColumn?
    case Ownership => false
  }

  ghost predicate SamePart(part: Part, s: Sheet, z: Sheet) {
    match part
    case RowTree => z.forest == s.forest
    case BranchGrants => z.grants == s.grants
    case ColumnAcls => z.cols == s.cols
    case ColumnOrder => z.colOrder == s.colOrder && z.labels == s.labels
    case Ownership => z.owner == s.owner && z.ownersSuggest == s.ownersSuggest
  }

  lemma {:induction false} ReplayParts(part: Part, s: Sheet, items: seq<Item>, requester: User, r: nat)
    requires ReplayItems(s, items, requester, r).Ok?
    ensures (exists it :: it in items && Concerns(part, it.call)) ||
            SamePart(part, s, ReplayItems(s, items, requester, r).value.sheet)
  {
    if items != [] {
      ReplayLast(s, items, requester, r);
      hide Handle, DecidersNow, ReplayItems, Concerns, SamePart;
      var before, it := items[..|items| - 1], items[|items| - 1];
      var z := ReplayItems(s, before, requester, r).value.sheet;
      ReplayParts(part, s, before, requester, r);
      SnocMembers(items);
      HandlePart(part, z, it.call, DecidersNow(z, it.call, Stored(it, requester)).value.approver);
      SamePartTrans(part, s, z, ReplayItems(s, items, requester, r).value.sheet);
    }
  }

  lemma SamePartTrans(part: Part, s: Sheet, y: Sheet, z: Sheet)
    ensures SamePart(part, s, y) && SamePart(part, y, z) ==> SamePart(part, s, z)
  {
  }

  /** The step is a direct call that concerns the part, by an actor the policy entitles to it now. */
  ghost predicate DirectChange(part: Part, w: World, a: Action) {
    && a.Do? && Resolved(w.sheet, a.call).Ok?
    && Concerns(part, Resolved(w.sheet, a.call).value) && Entitled(w.sheet, Resolved(w.sheet, a.call).value, a.actor)
  }

  /**
   * Request `r` is approved, and one of its calls concerns the part and is signed by someone who decided
   * about it then.
   */
  ghost predicate ApprovedChange(part: Part, w: World, acts: seq<Action>, r: nat) {
    && r < |Run(w, acts).requests| && Run(w, acts).requests[r].status == Approved
    && exists call, t, u ::
         && call in Calls(Run(w, acts).requests[r].body) && Concerns(part, call)
         && Signs(Run(w, acts).requests[r], call, u) && SignedAt(w, acts, t, r, call, u)
  }

  lemma DirectParts(part: Part, w: World, call: Call, actor: User)
    requires Execute(w, call, actor).Ok? && !SamePart(part, w.sheet, Execute(w, call, actor).value.sheet)
    ensures part != Ownership && DirectChange(part, w, Do(call, actor))
  {
    hide Handle, Authorize, Entitled, Resolved;
    var ready := Resolved(w.sheet, call).value;
    AuthorityIsPolicy(w.sheet, ready, actor);
    HandlersKeepTheRest(w.sheet, ready, actor);
  }

  /** An approval that changes the part holds a call that concerns it. */
  lemma ApprovalParts(part: Part, w: World, r: nat, actor: User) returns (call: Call)
    requires Approve(w, r, actor).Ok? && r < |w.requests| && r < |Approve(w, r, actor).value.requests|
    requires !SamePart(part, w.sheet, Approve(w, r, actor).value.sheet)
    ensures Approve(w, r, actor).value.requests[r].status == Approved
    ensures part != Ownership && Concerns(part, call) && call in Calls(Approve(w, r, actor).value.requests[r].body)
  {
    hide Handle, ReplayItems, DecidersNow, SignItems;
    var q := w.requests[r];
    match q.body {
      case Single(c0, approver, _) =>
        call := c0;
        HandlePart(part, w.sheet, c0, DecidersNow(w.sheet, c0, approver).value.approver);
      case Batch(items) =>
        var signed := SignItems(w.sheet, items, q.requester, actor).value;
        ReplayParts(part, w.sheet, signed, q.requester, r);
        var i :| 0 <= i < |signed| && Concerns(part, signed[i].call);
        call := signed[i].call;
        assert Calls(Batch(signed))[i] == call;
    }
  }

  lemma HandlePart(part: Part, s: Sheet, call: Call, actor: User)
    requires Handle(s, call, actor).Ok?
    ensures Concerns(part, call) || SamePart(part, s, Handle(s, call, actor).value)
  {
    hide Handle;
    HandlersKeepTheRest(s, call, actor);
  }

  lemma {:induction false} ApprovalsChangeByConsent(part: Part, w: World, acts: seq<Action>, r: nat, actor: User)
    requires w.requests == [] && acts != [] && acts[|acts| - 1] == Accept(r, actor)
    requires Approve(Run(w, acts[..|acts| - 1]), r, actor).Ok?
    requires !SamePart(part, Run(w, acts[..|acts| - 1]).sheet, Run(w, acts).sheet)
    ensures part != Ownership && ApprovedChange(part, w, acts, r)
  {
    hide Approve, SamePart, Calls, Signs, Concerns, SignedAt;
    var before := Run(w, acts[..|acts| - 1]);
    RequestThere(before, r, actor);
    var call := ApprovalParts(part, before, r, actor);
    var u := ClosedIsSigned(before, r, actor, call);
    var t := SignaturesAreGenuine(w, acts, r, call, u);
  }

  lemma OtherStepsKeepParts(part: Part, w: World, a: Action)
    requires !SamePart(part, w.sheet, Step(w, a).sheet)
    ensures a.Do? || a.Accept?
    ensures a.Do? ==> Execute(w, a.call, a.actor) == Ok(Step(w, a))
    ensures a.Accept? ==> Approve(w, a.req, a.actor) == Ok(Step(w, a))
  {
    hide Execute, Approve;
  }

  /**
   * Governed structure.  In every run, when the last step changes the row tree, the grants, who
   * owns or edits columns, or the stored order, it is a direct call made for that purpose by an
   * actor entitled to it now (for rows and grants: the structural approver of the place, of both
   * places for a move, or whoever gave the grant), or the approval of a request holding such a
   * call, signed at a step of the run by someone who decided about it then.  Who owns the sheet,
   * and whether owners must ask, no run changes.
   */
  lemma {:induction false} PartsChangeByConsent(part: Part, w: World, acts: seq<Action>)
    requires w.requests == [] && acts != []
    requires !SamePart(part, Run(w, acts[..|acts| - 1]).sheet, Run(w, acts).sheet)
    ensures var before, a := Run(w, acts[..|acts| - 1]), acts[|acts| - 1];
            part != Ownership && (DirectChange(part, before, a) || (a.Accept? && ApprovedChange(part, w, acts, a.req)))
  {
    hide Step, SamePart, Execute, Approve, Resolved, Entitled;
    var before, a := Run(w, acts[..|acts| - 1]), acts[|acts| - 1];
    OtherStepsKeepParts(part, before, a);
    hide *;
    match a {
      case Do(call, actor) => DirectParts(part, before, call, actor);
      case Accept(r, actor) => ApprovalsChangeByConsent(part, w, acts, r, actor);
    }
  }

  /**
   * Filing, signing, rejecting and withdrawing touch nothing: the sheet changes only when an
   * authorised actor runs a call directly, when an approval closes a request, or by role changes.
   */
  lemma SuggestionsTouchNothing(w: World, a: Action)
    requires Step(w, a).sheet != w.sheet
    ensures a.Do? || a.Accept? || a.AssignRoles?
    ensures a.Do? ==> && Step(w, a).requests == w.requests && Resolved(w.sheet, a.call).Ok?
                      && Authorize(w.sheet, Resolved(w.sheet, a.call).value, a.actor).Ok?
                      && Authorize(w.sheet, Resolved(w.sheet, a.call).value, a.actor).value.ok
    ensures a.Accept? ==> && a.req < |w.requests| && w.requests[a.req].status == Proposed
                          && Step(w, a).requests[a.req].status == Approved
  {
    if a.Accept? {
      var body, s, ran := ApprovalShape(w, a.req, a.actor);
    }
  }
}
