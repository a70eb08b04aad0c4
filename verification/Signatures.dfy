/** Who signed what, and when: the signatures a run collects, and what an applied request carries. */
module Signatures {
  import opened Common
  import opened Governance
  import opened GovernanceLaws
  import opened Entitlement

  // ----- signatures -----

  /** `u` has signed the call `call` of request `q`. */
  ghost predicate Signs(q: Request, call: Call, u: User) {
    match q.body
    case Single(c, _, approvals) => c == call && u in approvals
    case Batch(items) => SignsItem(items, call, u)
  }

  ghost predicate SignsItem(items: seq<Item>, call: Call, u: User) {
    exists it :: it in items && it.call == call && it.approvedBy == Some(u)
  }

  /** `u` is among those who decide about the call of request `q`, as things stand. */
  ghost predicate MayDecide(s: Sheet, q: Request, call: Call, u: User) {
    match q.body
    case Single(c, approver, _) => c == call && Decides(s, call, approver, u)
    case Batch(items) => MayDecideItem(s, items, q.requester, call, u)
  }

  ghost predicate MayDecideItem(s: Sheet, items: seq<Item>, requester: User, call: Call, u: User) {
    exists it :: it in items && it.call == call && Decides(s, call, Stored(it, requester), u)
  }

  lemma {:induction false} NewItemsUnsigned(s: Sheet, calls: seq<Call>, actor: User, it: Item)
    requires Itemize(s, calls, actor).Ok? && it in Itemize(s, calls, actor).value
    ensures it.approvedBy == None
  {
    hide Resolved, Authorize;
    if calls != [] && it in Itemize(s, calls[..|calls| - 1], actor).value {
      NewItemsUnsigned(s, calls[..|calls| - 1], actor, it);
    }
  }

  /** Signing adds at most the actor's own name, on items the actor may decide about. */
  lemma {:induction false} ItemSignatures(s: Sheet, items: seq<Item>, requester: User, actor: User, call: Call, u: User)
    requires SignItems(s, items, requester, actor).Ok?
    requires SignsItem(SignItems(s, items, requester, actor).value, call, u)
    ensures SignsItem(items, call, u) || (u == actor && MayDecideItem(s, items, requester, call, u))
  {
    if items != [] {
      hide Decides;
      var before, old_ := items[..|items| - 1], items[|items| - 1];
      var signed := SignItems(s, before, requester, actor).value;
      var it :| it in SignItems(s, items, requester, actor).value && it.call == call && it.approvedBy == Some(u);
      if it in signed {
        ItemSignatures(s, before, requester, actor, call, u);
        assert forall i :: i in before ==> i in items;
      } else {
        OneSignature(s, old_, requester, actor, it, u);
        assert old_ in items;
      }
    }
  }

  lemma OneSignature(s: Sheet, old_: Item, requester: User, actor: User, it: Item, u: User)
    requires SignItem(s, old_, requester, actor) == Ok(it) && it.approvedBy == Some(u)
    ensures it.call == old_.call
    ensures old_.approvedBy == Some(u) || (u == actor && Decides(s, it.call, Stored(old_, requester), u))
  {
    hide Decides;
    DecidersArePolicy(s, old_.call, Stored(old_, requester), actor);
  }

  lemma ApprovalSignatures(w: World, r: nat, actor: User, call: Call, u: User)
    requires Approve(w, r, actor).Ok? && r < |w.requests| && Signs(Approve(w, r, actor).value.requests[r], call, u)
    ensures Signs(w.requests[r], call, u) || (u == actor && MayDecide(w.sheet, w.requests[r], call, u))
  {
    hide Decides, Handle, ReplayItems, SignItems, DecidersNow;
    var q := w.requests[r];
    if q.body.Batch? {
      ItemSignatures(w.sheet, q.body.items, q.requester, actor, call, u);
    } else {
      DecidersArePolicy(w.sheet, q.body.call, q.body.approver, actor);
    }
  }

  /** A signature that was not there before is the actor's own, put there by someone who may decide. */
  lemma NewSignature(w: World, a: Action, r: nat, call: Call, u: User)
    requires r < |Step(w, a).requests| && Signs(Step(w, a).requests[r], call, u)
    ensures (r < |w.requests| && Signs(w.requests[r], call, u)) || SignsNow(w, a, r, call, u)
  {
    if r < |w.requests| {
      RequestAfter(w, a, r);
      hide Step, Signs, MayDecide, Approve, Reject;
      OldSignature(w, a, r, call, u);
    } else {
      NewRequestsUnsigned(w, a, r, call, u);
    }
  }

  lemma OldSignature(w: World, a: Action, r: nat, call: Call, u: User)
    requires r < |w.requests| && r < |Step(w, a).requests| && Signs(Step(w, a).requests[r], call, u)
    ensures Signs(w.requests[r], call, u) || (a == Accept(r, u) && MayDecide(w.sheet, w.requests[r], call, u))
  {
    RequestAfter(w, a, r);
    hide Step, MayDecide, Approve, Reject;
    if a.Accept? && a.req == r && Approve(w, r, a.actor) == Ok(Step(w, a)) {
      hide Signs;
      ApprovalSignatures(w, r, a.actor, call, u);
    }
  }

  lemma NewRequestsUnsigned(w: World, a: Action, r: nat, call: Call, u: User)
    requires |w.requests| <= r < |Step(w, a).requests|
    ensures !Signs(Step(w, a).requests[r], call, u)
  {
    AtMostOneFiled(w, a);
    hide Handle, Authorize, Resolved, Itemize;
    match a {
      case Do(c, actor) =>
      case Suggest(calls, actor) =>
        if Signs(Step(w, a).requests[r], call, u) { SuggestedUnsigned(w, calls, actor, r, call, u); }
    }
  }

  lemma SuggestedUnsigned(w: World, calls: seq<Call>, actor: User, r: nat, call: Call, u: User)
    requires SuggestBatch(w, calls, actor).Ok?
    requires r < |SuggestBatch(w, calls, actor).value.requests| &&
             Signs(SuggestBatch(w, calls, actor).value.requests[r], call, u)
    ensures r < |w.requests| && SuggestBatch(w, calls, actor).value.requests[r] == w.requests[r]
  {
    hide Itemize;
    var items := Itemize(w.sheet, calls, actor).value;
    if SignsItem(items, call, u) {
      var it :| it in items && it.call == call && it.approvedBy == Some(u);
      NewItemsUnsigned(w.sheet, calls, actor, it);
    }
  }

  /** The step is `u` signing the call of request `r`, which `u` may decide about now and has not signed before. */
  ghost predicate SignsNow(w: World, a: Action, r: nat, call: Call, u: User) {
    && a == Accept(r, u) && r < |w.requests| && MayDecide(w.sheet, w.requests[r], call, u)
    && !Signs(w.requests[r], call, u)
    && r < |Step(w, a).requests| && Signs(Step(w, a).requests[r], call, u)
  }

  /** Step `t` of the run is that signing. */
  ghost predicate SignedAt(w: World, acts: seq<Action>, t: nat, r: nat, call: Call, u: User) {
    t < |acts| && SignsNow(Run(w, acts[..t]), acts[t], r, call, u)
  }

  /** Every signature in a run was given by its owner, who was entitled to give it at that moment. */
  lemma {:induction false} SignaturesAreGenuine(w: World, acts: seq<Action>, r: nat, call: Call, u: User)
    returns (t: nat)
    requires w.requests == [] && r < |Run(w, acts).requests| && Signs(Run(w, acts).requests[r], call, u)
    ensures SignedAt(w, acts, t, r, call, u)
  {
    hide Step, Signs, SignsNow;
    var rest, z := acts[..|acts| - 1], Run(w, acts[..|acts| - 1]);
    NewSignature(z, acts[|acts| - 1], r, call, u);
    if r < |z.requests| && Signs(z.requests[r], call, u) {
      t := SignaturesAreGenuine(w, rest, r, call, u);
      assert rest[..t] == acts[..t];
    } else {
      t := |acts| - 1;
    }
  }

  // ----- an applied request is signed throughout -----

  /** Once request `r` is approved, each of its calls carries somebody's signature. */
  lemma ClosedIsSigned(w: World, r: nat, actor: User, call: Call) returns (u: User)
    requires Approve(w, r, actor).Ok? && r < |w.requests|
    requires Approve(w, r, actor).value.requests[r].status == Approved
    requires call in Calls(Approve(w, r, actor).value.requests[r].body)
    ensures Signs(Approve(w, r, actor).value.requests[r], call, u)
  {
    hide Handle, ReplayItems, DecidersNow;
    var q := w.requests[r];
    match q.body {
      case Single(_, _, _) => u := actor;
      case Batch(items) =>
        var signed := SignItems(w.sheet, items, q.requester, actor).value;
        u := ItemSigner(signed, call);
    }
  }

  lemma RequestThere(w: World, r: nat, actor: User)
    requires Approve(w, r, actor).Ok?
    ensures r < |w.requests| && r < |Approve(w, r, actor).value.requests|
  {
  }

  lemma ItemSigner(signed: seq<Item>, call: Call) returns (u: User)
    requires AllSigned(signed) && call in Calls(Batch(signed))
    ensures SignsItem(signed, call, u)
  {
    var i :| 0 <= i < |signed| && signed[i].call == call;
    assert signed[i] in signed;
    u := signed[i].approvedBy.value;
  }

  // ----- whose signatures close a request -----

  /** When a move request is carried out, both branch owners of that moment have signed it, at steps of the run. */
  lemma MovesAreSignedByBothEnds(w: World, acts: seq<Action>, r: nat, dest: User, src: User) returns (i: nat, j: nat)
    requires w.requests == [] && acts != []
    requires var before := Run(w, acts[..|acts| - 1]);
             && r < |before.requests| && before.requests[r].status == Proposed
             && before.requests[r].body.Single? && before.requests[r].body.call.MoveNode?
             && var call := before.requests[r].body.call;
             BranchOwners(before.sheet, call.node, call.to, dest, src)
    requires r < |Run(w, acts).requests| && Run(w, acts).requests[r].status == Approved
    ensures Run(w, acts).requests[r].body.Single? && {dest, src} <= Run(w, acts).requests[r].body.approvals
    ensures SignedAt(w, acts, i, r, Run(w, acts).requests[r].body.call, dest)
    ensures SignedAt(w, acts, j, r, Run(w, acts).requests[r].body.call, src)
  {
    var before, a := Run(w, acts[..|acts| - 1]), acts[|acts| - 1];
    OnlyAcceptApproves(before, a, r);
    MoveNeedsBothEnds(before, r, a.actor, dest, src);
    var q := Run(w, acts).requests[r];
    SignedOnApproval(before, r, a.actor);
    i := SignaturesAreGenuine(w, acts, r, q.body.call, dest);
    j := SignaturesAreGenuine(w, acts, r, q.body.call, src);
  }

  lemma OnlyAcceptApproves(w: World, a: Action, r: nat)
    requires r < |w.requests| && r < |Step(w, a).requests|
    requires w.requests[r].status != Approved && Step(w, a).requests[r].status == Approved
    ensures a.Accept? && a.req == r && Approve(w, r, a.actor) == Ok(Step(w, a))
  {
    RequestAfter(w, a, r);
    hide Step, Approve, Reject;
  }

  lemma SignedOnApproval(w: World, r: nat, actor: User)
    requires r < |w.requests| && w.requests[r].body.Single? && w.requests[r].status == Proposed
    requires Approve(w, r, actor).Ok?
    ensures var q := Approve(w, r, actor).value.requests[r];
            q.body.Single? && q.body.call == w.requests[r].body.call &&
              q.body.approvals == w.requests[r].body.approvals + {actor}
  {
  }

  ghost predicate SignedWhenApproved(q: Request) {
    q.status == Approved && q.body.Batch? ==> q.body.items != [] && AllSigned(q.body.items)
  }

  lemma StepKeepsSigned(w: World, a: Action, r: nat)
    requires r < |Step(w, a).requests| && (r < |w.requests| ==> SignedWhenApproved(w.requests[r]))
    ensures SignedWhenApproved(Step(w, a).requests[r])
  {
    if r >= |w.requests| {
      NewRequestsOpen(w, a, r);
    } else {
      RequestAfter(w, a, r);
      hide Step, SignedWhenApproved, Reject;
      if w.requests[r].status != Approved && Step(w, a).requests[r].status == Approved {
        OnlyAcceptApproves(w, a, r);
        ApprovedSigned(w, r, a.actor);
      } else {
        StillSigned(w, a, r);
      }
    }
  }

  lemma NewRequestsOpen(w: World, a: Action, r: nat)
    requires |w.requests| <= r < |Step(w, a).requests|
    ensures Step(w, a).requests[r].status == Proposed
  {
    var shape := StepShape(w, a);
    hide Step, RunsOnly;
  }

  lemma StillSigned(w: World, a: Action, r: nat)
    requires r < |w.requests| && r < |Step(w, a).requests| && SignedWhenApproved(w.requests[r])
    requires w.requests[r].status == Approved || Step(w, a).requests[r].status != Approved
    ensures SignedWhenApproved(Step(w, a).requests[r])
  {
    StepGrows(w, a);
    assert Follows(w.requests[r], Step(w, a).requests[r]);
    hide Step;
  }

  lemma ApprovedSigned(w: World, r: nat, actor: User)
    requires Approve(w, r, actor).Ok? && r < |w.requests| && r < |Approve(w, r, actor).value.requests|
    requires Approve(w, r, actor).value.requests[r].status == Approved
    ensures SignedWhenApproved(Approve(w, r, actor).value.requests[r])
  {
    hide Handle, DecidersNow, ReplayItems, SignItems;
    var q := w.requests[r];
    if q.body.Batch? { SigningKeepsCalls(w.sheet, q.body.items, q.requester, actor); }
  }

  lemma {:induction false} RunKeepsSigned(w: World, acts: seq<Action>, r: nat)
    requires w.requests == [] && r < |Run(w, acts).requests|
    ensures SignedWhenApproved(Run(w, acts).requests[r])
  {
    if acts != [] {
      if r < |Run(w, acts[..|acts| - 1]).requests| { RunKeepsSigned(w, acts[..|acts| - 1], r); }
      StepKeepsSigned(Run(w, acts[..|acts| - 1]), acts[|acts| - 1], r);
    }
  }

  /** A batch is applied only when every single item was signed by someone entitled to decide about it. */
  lemma ApprovedBatchesAreSigned(w: World, acts: seq<Action>, r: nat, i: nat) returns (t: nat, u: User)
    requires w.requests == [] && r < |Run(w, acts).requests|
    requires Run(w, acts).requests[r].status == Approved && Run(w, acts).requests[r].body.Batch?
    requires i < |Run(w, acts).requests[r].body.items|
    ensures Run(w, acts).requests[r].body.items[i].approvedBy == Some(u)
    ensures SignedAt(w, acts, t, r, Run(w, acts).requests[r].body.items[i].call, u)
  {
    RunKeepsSigned(w, acts, r);
    var it := Run(w, acts).requests[r].body.items[i];
    u := it.approvedBy.value;
    t := SignaturesAreGenuine(w, acts, r, it.call, u);
  }
}
