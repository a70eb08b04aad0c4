/**
 * Who decides about the structure of a branch: the grantee of the nearest active grant on the
 * way up to the root, else the owner of the sheet.
 */
module Authority {
  import opened Common
  import opened Forests
  import opened ForestEdits
  import opened TreeRepository

  datatype Grant = Grant(root: Id, grantee: User, grantedBy: User, active: bool)

  /** The grantee of the oldest active grant on `n` itself. */
  function ActiveGrant(grants: seq<Grant>, n: Id): Option<User> {
    if grants == [] then None
    else
      var g, older := grants[|grants| - 1], ActiveGrant(grants[..|grants| - 1], n);
      if older.Some? then older else if g.root == n && g.active then Some(g.grantee) else None
  }

  ghost predicate ActiveOn(g: Grant, n: Id) {
    g.active && g.root == n
  }

  /** It is the first active grant in the list with this root, and nobody's when there is none. */
  lemma {:induction false} ActiveGrantIsOldest(grants: seq<Grant>, n: Id)
    ensures ActiveGrant(grants, n).None? <==> forall i :: 0 <= i < |grants| ==> !ActiveOn(grants[i], n)
    ensures ActiveGrant(grants, n).Some? ==>
              exists i :: && 0 <= i < |grants| && ActiveOn(grants[i], n)
                          && ActiveGrant(grants, n) == Some(grants[i].grantee)
                          && forall j :: 0 <= j < i ==> !ActiveOn(grants[j], n)
  {
    if grants != [] {
      var older := grants[..|grants| - 1];
      ActiveGrantIsOldest(older, n);
      assert forall i :: 0 <= i < |older| ==> older[i] == grants[i];
      if ActiveGrant(older, n).Some? {
        var i :| 0 <= i < |older| && ActiveOn(older[i], n) && ActiveGrant(older, n) == Some(older[i].grantee)
          && forall j :: 0 <= j < i ==> !ActiveOn(older[j], n);
        assert ActiveOn(grants[i], n);
      }
    }
  }

  function FirstGrantee(chain: seq<Id>, grants: seq<Grant>, owner: User): User {
    if chain == [] then owner
    else match ActiveGrant(grants, chain[0])
         case Some(u) => u
         case None => FirstGrantee(chain[1..], grants, owner)
  }

  /** The approver of structural changes at `n` (`None`: at the top of the sheet). */
  function StructuralApprover(f: Forest, grants: seq<Grant>, owner: User, n: Option<Id>): User
    requires AtNode(f, n)
  {
    match n case None => owner case Some(k) => FirstGrantee(ParentChain(f, k), grants, owner)
  }

  /** The resolver over the stored interval index: a scan of `ancestors_self`, nearest first. */
  method ResolveStructuralApprover(repo: Repo, grants: seq<Grant>, owner: User, n: Option<Id>)
    returns (r: Result<User, RepoError>)
    requires repo.Valid()
    ensures r == if AtNode(repo.forest, n) then Ok(StructuralApprover(repo.forest, grants, owner, n)) else Err(NotFound)
  {
    if n.None? { return Ok(owner); }
    var chain := repo.AncestorsSelf(n.value);
    if chain.Err? { return Err(chain.error); }
    for i := 0 to |chain.value|
      invariant FirstGrantee(chain.value, grants, owner) == FirstGrantee(chain.value[i..], grants, owner)
    {
      var g := ActiveGrant(grants, chain.value[i]);
      if g.Some? { return Ok(g.value); }
      assert chain.value[i..][1..] == chain.value[i + 1..];
    }
    r := Ok(owner);
  }

  // ----- locality -----

  lemma {:induction false} ApproverUp(f: Forest, grants: seq<Grant>, owner: User, k: Id)
    requires k in f.par
    ensures AtNode(f, f.par[k])
    ensures StructuralApprover(f, grants, owner, Some(k)) ==
            match ActiveGrant(grants, k)
            case Some(u) => u
            case None => StructuralApprover(f, grants, owner, f.par[k])
  {
    assert f.LinkOk(k);
    var up := match f.par[k] case None => [] case Some(p) => ParentChain(f, p);
    assert ParentChain(f, k) == [k] + up;
    assert FirstGrantee(up, grants, owner) == StructuralApprover(f, grants, owner, f.par[k]);
    assert ([k] + up)[1..] == up;
  }

  /** Some node strictly below `b`, on the way from `k` up to `b`, carries an active grant. */
  ghost predicate NearerGrant(f: Forest, grants: seq<Grant>, b: Id, k: Id)
    requires k in f.par
  {
    exists m :: m in f.par && m != b && Anc(f, b, m) && Anc(f, m, k) && ActiveGrant(grants, m).Some?
  }

  lemma {:induction false} NearerUp(f: Forest, grants: seq<Grant>, b: Id, k: Id)
    requires k in f.par && k != b && Anc(f, b, k)
    ensures f.par[k].Some? && f.par[k].value in f.par && Anc(f, b, f.par[k].value)
    ensures NearerGrant(f, grants, b, k) <==> ActiveGrant(grants, k).Some? || NearerGrant(f, grants, b, f.par[k].value)
  {
    assert f.LinkOk(k);
    var p := f.par[k].value;
    assert Anc(f, k, k);
    if NearerGrant(f, grants, b, p) {
      var m :| m in f.par && m != b && Anc(f, b, m) && Anc(f, m, p) && ActiveGrant(grants, m).Some?;
      assert Anc(f, m, k);
    }
  }

  lemma NearerSelf(f: Forest, grants: seq<Grant>, b: Id)
    requires b in f.par
    ensures !NearerGrant(f, grants, b, b)
  {
    if NearerGrant(f, grants, b, b) {
      var m :| m in f.par && m != b && Anc(f, b, m) && Anc(f, m, b) && ActiveGrant(grants, m).Some?;
      AncDepth(f, b, m);
      AncDepth(f, m, b);
    }
  }

  /**
   * A new grant on `b` decides exactly for the nodes under `b` that meet no older active grant
   * before it, `b` itself included; everyone else keeps their approver.
   */
  lemma {:induction false} DelegationIsLocal(f: Forest, grants: seq<Grant>, owner: User, g: Grant, k: Id)
    requires k in f.par && g.root in f.par && g.active
    ensures StructuralApprover(f, grants + [g], owner, Some(k)) ==
            if Anc(f, g.root, k) && ActiveGrant(grants, g.root).None? && !NearerGrant(f, grants, g.root, k)
            then g.grantee
            else StructuralApprover(f, grants, owner, Some(k))
    decreases f.depth[k]
  {
    assert f.LinkOk(k);
    assert (grants + [g])[..|grants|] == grants;
    ApproverUp(f, grants, owner, k);
    ApproverUp(f, grants + [g], owner, k);
    if k == g.root {
      NearerSelf(f, grants, k);
    } else {
      if Anc(f, g.root, k) { NearerUp(f, grants, g.root, k); }
      if f.par[k].Some? { DelegationIsLocal(f, grants, owner, g, f.par[k].value); }
    }
  }

  function Deactivated(grants: seq<Grant>, i: nat): seq<Grant>
    requires i < |grants|
  {
    grants[i := grants[i].(active := false)]
  }

  lemma {:induction false} DeactivatedElsewhere(grants: seq<Grant>, i: nat, n: Id)
    requires i < |grants|
    ensures grants[i].root != n ==> ActiveGrant(Deactivated(grants, i), n) == ActiveGrant(grants, n)
    ensures ActiveGrant(grants, n).None? ==> ActiveGrant(Deactivated(grants, i), n).None?
  {
    var rest := grants[..|grants| - 1];
    if i < |grants| - 1 {
      DeactivatedElsewhere(rest, i, n);
      assert Deactivated(grants, i)[..|grants| - 1] == Deactivated(rest, i);
    } else {
      assert Deactivated(grants, i)[..|grants| - 1] == rest;
    }
  }

  /** Approvers depend on which grants are active, and nothing else about the list. */
  lemma {:induction false} SameActiveSameApprover(f: Forest, a: seq<Grant>, b: seq<Grant>, owner: User, k: Id)
    requires k in f.par && forall n :: ActiveGrant(a, n) == ActiveGrant(b, n)
    ensures StructuralApprover(f, a, owner, Some(k)) == StructuralApprover(f, b, owner, Some(k))
    decreases f.depth[k]
  {
    assert f.LinkOk(k);
    ApproverUp(f, a, owner, k);
    ApproverUp(f, b, owner, k);
    if f.par[k].Some? { SameActiveSameApprover(f, a, b, owner, f.par[k].value); }
  }

  /** Delegating a branch and revoking that grant again restores every node's approver. */
  lemma DelegateThenRevoke(f: Forest, grants: seq<Grant>, owner: User, g: Grant, k: Id)
    requires k in f.par
    ensures StructuralApprover(f, Deactivated(grants + [g], |grants|), owner, Some(k)) ==
            StructuralApprover(f, grants, owner, Some(k))
  {
    var after := Deactivated(grants + [g], |grants|);
    assert after[..|grants|] == grants;
    SameActiveSameApprover(f, after, grants, owner, k);
  }

  /** Revoking any grant leaves every node outside its branch, and every node behind a nearer grant, as it was. */
  lemma {:induction false} RevocationIsLocal(f: Forest, grants: seq<Grant>, owner: User, i: nat, k: Id)
    requires k in f.par && i < |grants| && grants[i].root in f.par
    requires Anc(f, grants[i].root, k) ==> NearerGrant(f, grants, grants[i].root, k)
    ensures StructuralApprover(f, Deactivated(grants, i), owner, Some(k)) ==
            StructuralApprover(f, grants, owner, Some(k))
    decreases f.depth[k]
  {
    var b := grants[i].root;
    assert f.LinkOk(k);
    ApproverUp(f, grants, owner, k);
    ApproverUp(f, Deactivated(grants, i), owner, k);
    if k == b {
      NearerSelf(f, grants, b);
    } else {
      DeactivatedElsewhere(grants, i, k);
      if Anc(f, b, k) { NearerUp(f, grants, b, k); }
      if f.par[k].Some? && ActiveGrant(grants, k).None? { RevocationIsLocal(f, grants, owner, i, f.par[k].value); }
    }
  }

  /**
   * Moving `n` changes no approver outside its subtree; inside, a node keeps a grant found at or
   * below `n`, and otherwise takes the approver of the new parent.
   */
  lemma {:induction false} MoveIsLocal(f: Forest, grants: seq<Grant>, owner: User, n: Id, p: Option<Id>, k: Id)
    requires n in f.par && AtNode(f, p) && k in f.par
    requires p.Some? ==> !Anc(f, n, p.value)
    ensures StructuralApprover(Moved(f, n, p), grants, owner, Some(k)) ==
            if Anc(f, n, k) && ActiveGrant(grants, n).None? && !NearerGrant(f, grants, n, k)
            then StructuralApprover(f, grants, owner, p)
            else StructuralApprover(f, grants, owner, Some(k))
    decreases Moved(f, n, p).depth[k]
  {
    var r := Moved(f, n, p);
    assert f.LinkOk(k) && r.LinkOk(k);
    ApproverUp(f, grants, owner, k);
    ApproverUp(r, grants, owner, k);
    if k == n {
      NearerSelf(f, grants, n);
      if p.Some? { MoveIsLocal(f, grants, owner, n, p, p.value); }
    } else {
      if Anc(f, n, k) { NearerUp(f, grants, n, k); }
      if f.par[k].Some? { MoveIsLocal(f, grants, owner, n, p, f.par[k].value); }
    }
  }

  /** Deleting a subtree changes no survivor's approver. */
  lemma {:induction false} DeleteIsLocal(f: Forest, grants: seq<Grant>, owner: User, n: Id, k: Id)
    requires n in f.par && k in f.par && k !in Sub(f, n)
    ensures k in Deleted(f, n).par
    ensures StructuralApprover(Deleted(f, n), grants, owner, Some(k)) == StructuralApprover(f, grants, owner, Some(k))
    decreases f.depth[k]
  {
    var r := Deleted(f, n);
    assert f.LinkOk(k) && r.LinkOk(k);
    ApproverUp(f, grants, owner, k);
    ApproverUp(r, grants, owner, k);
    if f.par[k].Some? {
      DeletedAnc(f, n, f.par[k].value, k);
      DeleteIsLocal(f, grants, owner, n, f.par[k].value);
    }
  }

  /** A new node takes its parent's approver, unless a grant already names its id; nobody else's changes. */
  lemma {:induction false} CreateIsLocal(f: Forest, grants: seq<Grant>, owner: User, n: Id, p: Option<Id>, k: Id)
    requires n !in f.par && AtNode(f, p) && (k in f.par || k == n)
    ensures StructuralApprover(Created(f, n, p), grants, owner, Some(k)) ==
            if k in f.par then StructuralApprover(f, grants, owner, Some(k))
            else match ActiveGrant(grants, n) case Some(u) => u case None => StructuralApprover(f, grants, owner, p)
    decreases Created(f, n, p).depth[k]
  {
    var r := Created(f, n, p);
    assert r.LinkOk(k);
    ApproverUp(r, grants, owner, k);
    if k in f.par {
      assert f.LinkOk(k);
      ApproverUp(f, grants, owner, k);
      if f.par[k].Some? { CreateIsLocal(f, grants, owner, n, p, f.par[k].value); }
    } else if p.Some? {
      CreateIsLocal(f, grants, owner, n, p, p.value);
    }
  }
}
