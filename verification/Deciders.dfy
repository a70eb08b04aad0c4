/**
 * Who really decides: principals are compared as stored, so a role or an empty name in an approver
 * slot is nobody, and what the decisions admit differs from what direct calls admit.
 */
module Deciders {
  import opened Common
  import opened Forests
  import opened TreeRepository
  import opened Authority
  import opened Governance
  import opened Entitlement

  // ----- users among the deciders -----

  ghost predicate UserRules(s: Sheet, n: Option<Id>) {
    AtNode(s.forest, n) && IsUser(StructuralApprover(s.forest, s.grants, s.owner, n))
  }

  /** The column is stored with a user as its owner or as one of its editors. */
  ghost predicate UserOnColumn(s: Sheet, c: Id) {
    c in s.cols && (IsUser(s.cols[c].owner) || exists p :: p in s.cols[c].editors && IsUser(p))
  }

  /** Some slot that is read when a request for the call is decided holds a user. */
  ghost predicate UserDecides(s: Sheet, call: Call, stored: User) {
    match call
    case UpdateCell(_, c, _, _) => UserOnColumn(s, c)
    case DeleteColumn(c) => UserOnColumn(s, c)
    case GrantColumn(c, _, _) => c in s.cols && IsUser(s.cols[c].owner)
    case AddNode(p, _) => UserRules(s, p)
    case DeleteNode(n) => UserRules(s, Some(n))
    case DelegateBranch(b, _) => UserRules(s, Some(b))
    case MoveNode(n, to) => n in s.forest.par && (UserRules(s, s.forest.par[n]) || UserRules(s, to))
    case RevokeDelegation(g) => IsUser(if g < |s.grants| then s.grants[g].grantedBy else stored)
    case SetColumnOrder(_) => IsUser(s.owner)
    case AddColumn(_, _, _, _) => IsUser(s.owner)
  }

  ghost predicate SomeUserDecides(s: Sheet, call: Call, stored: User) {
    exists u :: IsUser(u) && Decides(s, call, stored, u)
  }

  /** A decider the call's slots name, a user if there is one. */
  ghost function Witness(s: Sheet, call: Call, stored: User): (u: User)
    requires UserDecides(s, call, stored)
    ensures IsUser(u) && Decides(s, call, stored, u)
  {
    hide StructuralApprover, IsUser;
    match call
    case UpdateCell(_, c, _, _) => ColumnUser(s, c)
    case DeleteColumn(c) => ColumnUser(s, c)
    case GrantColumn(c, _, _) => s.cols[c].owner
    case AddNode(p, _) => StructuralApprover(s.forest, s.grants, s.owner, p)
    case DeleteNode(n) => StructuralApprover(s.forest, s.grants, s.owner, Some(n))
    case DelegateBranch(b, _) => StructuralApprover(s.forest, s.grants, s.owner, Some(b))
    case MoveNode(n, to) =>
      StructuralApprover(s.forest, s.grants, s.owner, if UserRules(s, to) then to else s.forest.par[n])
    case RevokeDelegation(g) => if g < |s.grants| then s.grants[g].grantedBy else stored
    case SetColumnOrder(_) => s.owner
    case AddColumn(_, _, _, _) => s.owner
  }

  ghost function ColumnUser(s: Sheet, c: Id): (u: User)
    requires UserOnColumn(s, c)
    ensures IsUser(u) && u in OwnerAndEditors(s, c)
  {
    if IsUser(s.cols[c].owner) then s.cols[c].owner
    else var p :| p in s.cols[c].editors && IsUser(p); p
  }

  /** A user decides about the call exactly when one of its slots holds a user. */
  lemma UserDecidesIsSome(s: Sheet, call: Call, stored: User)
    ensures UserDecides(s, call, stored) <==> SomeUserDecides(s, call, stored)
  {
    if UserDecides(s, call, stored) {
      assert Decides(s, call, stored, Witness(s, call, stored));
    }
    if SomeUserDecides(s, call, stored) {
      hide StructuralApprover, IsUser;
      var u :| IsUser(u) && Decides(s, call, stored, u);
    }
  }

  // ----- role holders write, and do not decide -----

  /** What a stored name stands for: a role its holders now, a mail domain or an empty name nobody, a user itself. */
  lemma PrincipalsStandFor(roles: map<string, set<User>>, x: string, p: User)
    ensures Expand(roles, "role:" + x) == if x in roles then roles[x] else {}
    ensures Expand(roles, "domain:" + x) == {} && Expand(roles, "") == {}
    ensures IsUser(p) ==> Expand(roles, p) == {p}
    ensures IsUser(p) <==> p != "" && !("role:" <= p) && !("domain:" <= p)
  {
    assert ("role:" + x)[..5] == "role:" && ("role:" + x)[5..] == x;
    assert ("domain:" + x)[..7] == "domain:" && ("domain:" + x)[..5] == "domai";
    assert "domai"[0] != "role:"[0];
  }

  /** The principal is a role, and `u` holds it now. */
  predicate HoldsRole(roles: map<string, set<User>>, p: User, u: User) {
    HasPrefix(p, "role:") && p[5..] in roles && u in roles[p[5..]]
  }

  /** `u` holds a role stored on the column. */
  ghost predicate HoldsColumnRole(s: Sheet, c: Id, u: User) {
    exists p :: p in OwnerAndEditors(s, c) && HoldsRole(s.roles, p, u)
  }

  /**
   * A user may write in a column directly exactly when stored on it or holding a role stored on
   * it, and may decide about requests to write there exactly when stored on it: holding the role
   * is not enough.
   */
  lemma RoleHoldersWriteOnly(s: Sheet, call: Call, stored: User, u: User)
    requires (call.UpdateCell? || call.DeleteColumn?) && call.col in s.cols && IsUser(u)
    ensures Entitled(s, call, u) <==> u in OwnerAndEditors(s, call.col) || HoldsColumnRole(s, call.col, u)
    ensures Decides(s, call, stored, u) <==> u in OwnerAndEditors(s, call.col)
  {
    ColumnApproversAre(s, call.col, u);
    hide IsUser, ColumnApprovers, HoldsColumnRole, OwnerAndEditors;
  }

  lemma ColumnApproversAre(s: Sheet, c: Id, u: User)
    requires c in s.cols && IsUser(u)
    ensures u in ColumnApprovers(s, c) <==> u in OwnerAndEditors(s, c) || HoldsColumnRole(s, c, u)
  {
    hide IsUser, HasPrefix;
    ExpandsTo(s.roles, s.cols[c].owner, u);
    forall p | p in s.cols[c].editors
      ensures u in Expand(s.roles, p) <==> u == p || HoldsRole(s.roles, p, u)
    {
      ExpandsTo(s.roles, p, u);
    }
  }

  lemma ExpandsTo(roles: map<string, set<User>>, p: User, u: User)
    requires IsUser(u)
    ensures u in Expand(roles, p) <==> u == p || HoldsRole(roles, p, u)
  {
  }

  // ----- signatures the documentation does not mention -----

  /**
   * Those who may decide are the routed approver and the co-approvers, and nobody else, exactly when
   * the call targets no column or every editor of that column is its owner.
   */
  lemma OnlyApproversDecideExactly(s: Sheet, call: Call, stored: User)
    requires DecidersNow(s, call, stored).Ok?
    ensures var now := DecidersNow(s, call, stored).value;
            now.allowed == {now.approver} + now.co <==>
              match TargetColumn(call)
              case None => true
              case Some(c) => forall p :: p in s.cols[c].editors ==> p == s.cols[c].owner
  {
    hide StructuralApprover, ColumnApprovers;
    if TargetColumn(call).Some? {
      var c := TargetColumn(call).value;
      var now := DecidersNow(s, call, stored).value;
      assert now.approver == s.cols[c].owner && now.co == {};
      assert now.allowed == {s.cols[c].owner} + OwnerAndEditors(s, c);
      if p :| p in s.cols[c].editors && p != s.cols[c].owner { assert p in now.allowed; }
    }
  }

  lemma {:induction false} OneStep(w: World, a: Action)
    ensures Run(w, [a]) == Step(w, a)
  {
    hide Step;
    assert [a][..0] == [];
  }

  lemma {:induction false} TwoSteps(w: World, a: Action, b: Action)
    ensures Run(w, [a, b]) == Step(Step(w, a), b)
  {
    hide Step;
    OneStep(w, a);
    assert [a, b][..1] == [a];
  }

  /** An update by someone not in charge of the column is filed with the column's owner. */
  lemma UpdateIsFiled(w: World, n: Id, c: Id, v: Value, u: User)
    requires c in w.sheet.cols && u !in ColumnApprovers(w.sheet, c)
    ensures var call := UpdateCell(n, c, v, None);
            Step(w, Do(call, u)) == File(w, Single(call, w.sheet.cols[c].owner, {}), u)
  {
    hide ColumnApprovers;
  }

  /** An editor who is neither the approver nor a co-approver of a filed update carries it out by signing. */
  lemma {:induction false} EditorSignsAlone(w: World, n: Id, c: Id, v: Value, u: User, e: User)
    requires c in w.sheet.cols && u !in ColumnApprovers(w.sheet, c)
    requires e in w.sheet.cols[c].editors && e != w.sheet.cols[c].owner
    ensures var call, r := UpdateCell(n, c, v, None), |w.requests|;
            var z := Run(w, [Do(call, u), Accept(r, e)]);
            && var now := DecidersNow(w.sheet, call, w.sheet.cols[c].owner);
            now.Ok? && e !in {now.value.approver} + now.value.co
            && r < |z.requests| && z.requests[r].status == Approved && z.sheet == WriteCell(w.sheet, n, c, v)
  {
    var call, r := UpdateCell(n, c, v, None), |w.requests|;
    UpdateIsFiled(w, n, c, v, u);
    var filed := File(w, Single(call, w.sheet.cols[c].owner, {}), u);
    assert filed.sheet == w.sheet && filed.requests[r] == Request(u, Single(call, w.sheet.cols[c].owner, {}), Proposed);
    hide *;
    TwoSteps(w, Do(call, u), Accept(r, e));
    UpdateRoute(w.sheet, n, c, v, e);
    SingleClosesExactly(filed, r, e);
  }

  lemma UpdateRoute(s: Sheet, n: Id, c: Id, v: Value, e: User)
    requires c in s.cols && e in s.cols[c].editors
    ensures var call, stored := UpdateCell(n, c, v, None), s.cols[c].owner;
            && DecidersNow(s, call, stored).Ok? && Decides(s, call, stored, e)
            && DecidersNow(s, call, stored).value.approver == stored && DecidersNow(s, call, stored).value.co == {}
            && Handle(s, call, stored) == Ok(WriteCell(s, n, c, v))
  {
    hide ColumnApprovers;
  }

  // ----- revoking what the grantee passed on -----

  /**
   * Whoever decides right above a granted branch may revoke the grant directly exactly when the
   * grant is theirs, or the branch carries no active grant to anyone else.
   */
  lemma AncestorRevokesExactly(s: Sheet, g: nat, u: User)
    requires g < |s.grants| && s.grants[g].root in s.forest.par && Rules(s, s.forest.par[s.grants[g].root], u)
    ensures Authorize(s, RevokeDelegation(g), u).Ok?
    ensures Authorize(s, RevokeDelegation(g), u).value.ok <==>
            u == s.grants[g].grantedBy || ActiveGrant(s.grants, s.grants[g].root) in {None, Some(u)}
  {
    hide StructuralApprover, ActiveGrant;
    ApproverUp(s.forest, s.grants, s.owner, s.grants[g].root);
  }

  lemma EntitledRuns(w: World, call: Call, u: User)
    requires Resolved(w.sheet, call) == Ok(call) && Entitled(w.sheet, call, u) && !MustSuggest(w.sheet, call)
    requires Handle(w.sheet, call, u).Ok?
    ensures Step(w, Do(call, u)).sheet == Handle(w.sheet, call, u).value
  {
    hide Handle, Resolved, Entitled, MustSuggest, Step;
    RunsExactlyWhenEntitled(w, call, call, u);
  }

  /** Grants that come and go at `p` and then at its child `k`, and who decides at `k` in between. */
  lemma {:induction false} PassedOn(f: Forest, grants: seq<Grant>, owner: User, p: Id, k: Id, o: User, a: User, b: User)
    requires k in f.par && f.par[k] == Some(p) && p in f.par
    requires ActiveGrant(grants, p) == None && ActiveGrant(grants, k) == None
    requires o == StructuralApprover(f, grants, owner, Some(p))
    ensures StructuralApprover(f, grants + [Grant(p, a, o, true)], owner, Some(k)) == a
    ensures var after := grants + [Grant(p, a, o, false)] + [Grant(k, b, a, true)];
            && Deactivated(grants + [Grant(p, a, o, true)] + [Grant(k, b, a, true)], |grants|) == after
            && StructuralApprover(f, after, owner, Some(p)) == o && ActiveGrant(after, k) == Some(b)
  {
    assert f.LinkOk(k);
    assert Anc(f, p, p) && Anc(f, p, k);
    NearerUp(f, grants, p, k);
    NearerSelf(f, grants, p);
    DelegationIsLocal(f, grants, owner, Grant(p, a, o, true), k);
    var off := grants + [Grant(p, a, o, false)];
    assert off[..|grants|] == grants && (off + [Grant(k, b, a, true)])[..|off|] == off;
    SameActiveSameApprover(f, off, grants, owner, p);
    if Anc(f, k, p) { AncDepth(f, k, p); }
    DelegationIsLocal(f, off, owner, Grant(k, b, a, true), p);
  }

  /** A delegation by whoever decides there, on a sheet that does not make owners ask. */
  lemma Delegates(w: World, n: Id, to: User, u: User)
    requires Rules(w.sheet, Some(n), u) && !w.sheet.ownersSuggest
    ensures Step(w, Do(DelegateBranch(n, to), u)).sheet == w.sheet.(grants := w.sheet.grants + [Grant(n, to, u, true)])
  {
    EntitledRuns(w, DelegateBranch(n, to), u);
    hide Step, StructuralApprover;
  }

  lemma Revokes(w: World, g: nat, u: User)
    requires g < |w.sheet.grants| && w.sheet.grants[g].root in w.sheet.forest.par && w.sheet.grants[g].grantedBy == u
    ensures Step(w, Do(RevokeDelegation(g), u)).sheet == w.sheet.(grants := Deactivated(w.sheet.grants, g))
  {
    EntitledRuns(w, RevokeDelegation(g), u);
    hide Step, StructuralApprover;
  }

  lemma {:induction false} ThreeSteps(w: World, a: Action, b: Action, c: Action)
    ensures Run(w, [a, b, c]) == Step(Step(Step(w, a), b), c)
  {
    hide Step;
    TwoSteps(w, a, b);
    assert [a, b, c][..2] == [a, b];
  }

  /**
   * `o` hands `p` to `a`, who hands the child `k` to `b`; `o` takes `p` back, and decides at `p` again,
   * but may not take back `k`.
   */
  lemma {:induction false} PassedOnOutlivesTheGrant(w: World, p: Id, k: Id, o: User, a: User, b: User)
    requires k in w.sheet.forest.par && w.sheet.forest.par[k] == Some(p) && Rules(w.sheet, Some(p), o)
    requires ActiveGrant(w.sheet.grants, p) == None && ActiveGrant(w.sheet.grants, k) == None
    requires !w.sheet.ownersSuggest && a != o && b != o
    ensures var g := |w.sheet.grants|;
            var z := Run(w, [Do(DelegateBranch(p, a), o), Do(DelegateBranch(k, b), a), Do(RevokeDelegation(g), o)]);
            && z.sheet.forest == w.sheet.forest && Rules(z.sheet, Some(p), o)
            && Authorize(z.sheet, RevokeDelegation(g + 1), o).Ok?
            && !Authorize(z.sheet, RevokeDelegation(g + 1), o).value.ok
  {
    var after := w.sheet.grants + [Grant(p, a, o, false)] + [Grant(k, b, a, true)];
    PassedOn(w.sheet.forest, w.sheet.grants, w.sheet.owner, p, k, o, a, b);
    PassedOnGrants(w, p, k, o, a, b);
    hide Step, Run, StructuralApprover, ActiveGrant;
    AncestorRevokesExactly(w.sheet.(grants := after), |w.sheet.grants| + 1, o);
  }

  lemma {:induction false} PassedOnGrants(w: World, p: Id, k: Id, o: User, a: User, b: User)
    requires k in w.sheet.forest.par && w.sheet.forest.par[k] == Some(p) && Rules(w.sheet, Some(p), o)
    requires ActiveGrant(w.sheet.grants, p) == None && ActiveGrant(w.sheet.grants, k) == None
    requires !w.sheet.ownersSuggest
    ensures var g := |w.sheet.grants|;
            Run(w, [Do(DelegateBranch(p, a), o), Do(DelegateBranch(k, b), a), Do(RevokeDelegation(g), o)]).sheet ==
            w.sheet.(grants := w.sheet.grants + [Grant(p, a, o, false)] + [Grant(k, b, a, true)])
  {
    var s, g := w.sheet, |w.sheet.grants|;
    var first, second := Do(DelegateBranch(p, a), o), Do(DelegateBranch(k, b), a);
    PassedOn(s.forest, s.grants, s.owner, p, k, o, a, b);
    ThreeSteps(w, first, second, Do(RevokeDelegation(g), o));
    hide Step, Run, StructuralApprover, ActiveGrant, Deactivated, Anc;
    Delegates(w, p, a, o);
    Delegates(Step(w, first), k, b, a);
    Revokes(Step(Step(w, first), second), g, o);
  }
}
