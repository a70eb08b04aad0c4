/**
 * The whole life of a call, in raw terms: what it resolves to, whom it is routed to, whether it runs or
 * is filed, what its approval does, and who may close it any other way.
 */
module RequestLaws {
  import opened Common
  import opened Columns
  import opened Authority
  import opened Governance
  import opened GovernanceLaws
  import opened Entitlement
  import opened Signatures
  import opened CallEffects
  import opened RequestExits

  // ----- resolving -----

  /** A slot of the call that approvers are read from names a mail domain. */
  ghost predicate NamesADomain(call: Call) {
    match call
    case GrantColumn(_, o, es) => NamesDomain(o, es)
    case AddColumn(_, o, _, _) => IsDomain(o)
    case _ => false
  }

  /** `ready` is the call with its column names replaced by ids: an order in full, an anchor by where it leads. */
  ghost predicate ReadyAs(s: Sheet, call: Call, ready: Call) {
    if call.SetColumnOrder? then
      && ready.SetColumnOrder? && Spells(s.colOrder, s.field, call.order, ready.order)
      && CompleteOrder(s.colOrder, s.labels, ready.order)
    else if call.AddColumn? && call.after.Some? then
      Resolve(s.colOrder, s.field, call.after.value).Some?
      && ready == call.(after := Resolve(s.colOrder, s.field, call.after.value))
    else ready == call
  }

  /** A call resolves exactly when it names no domain as approver and every column it names leads somewhere. */
  lemma ResolvesExactly(s: Sheet, call: Call, ready: Call)
    ensures Resolved(s, call) == Ok(ready) <==> !NamesADomain(call) && ReadyAs(s, call, ready)
    ensures Resolved(s, call).Err? ==> Resolved(s, call).error == BadParams
  {
    hide Resolve, CompleteOrder, IsDomain;
    if call.SetColumnOrder? && ready.SetColumnOrder? { OrderResolvesExactly(s, call.order, ready.order); }
  }

  lemma OrderResolvesExactly(s: Sheet, order: seq<Id>, ids: seq<Id>)
    ensures ResolvedOrder(s, order) == Some(ids) <==>
            Spells(s.colOrder, s.field, order, ids) && CompleteOrder(s.colOrder, s.labels, ids)
  {
    hide Resolve, CompleteOrder;
    var found := ResolveAll(s.colOrder, s.field, order);
    if exists i :: 0 <= i < |found| && found[i].None? {
      var i :| 0 <= i < |found| && found[i].None?;
      assert Resolve(s.colOrder, s.field, order[i]) == found[i];
    } else {
      var named := seq(|found|, i requires 0 <= i < |found| => match found[i] case Some(c) => c case None => 0);
      assert Spells(s.colOrder, s.field, order, named);
      if Spells(s.colOrder, s.field, order, ids) {
        assert ids == named by {
          forall i | 0 <= i < |ids| ensures ids[i] == named[i] { assert found[i] == Some(ids[i]); }
        }
      }
    }
  }

  // ----- routing -----

  /** Whom a request for the call goes to: the owner of what it is about, as stored now. */
  ghost predicate RoutedTo(s: Sheet, call: Call, actor: User, approver: User) {
    match call
    case UpdateCell(_, c, _, _) => c in s.cols && approver == s.cols[c].owner
    case DeleteColumn(c) => c in s.cols && approver == s.cols[c].owner
    case GrantColumn(c, _, _) => c in s.cols && approver == s.cols[c].owner
    case AddNode(p, _) => Rules(s, p, approver)
    case DeleteNode(n) => Rules(s, Some(n), approver)
    case DelegateBranch(b, _) => Rules(s, Some(b), approver)
    case MoveNode(_, to) => Rules(s, to, approver)
    case RevokeDelegation(g) => approver == if g < |s.grants| then s.grants[g].grantedBy else actor
    case SetColumnOrder(_) => approver == s.owner
    case AddColumn(_, _, _, _) => approver == s.owner
  }

  lemma RoutesExactly(s: Sheet, call: Call, actor: User)
    ensures Authorize(s, call, actor).Err? <==> Gone(s, call)
    ensures Authorize(s, call, actor).Err? ==> Authorize(s, call, actor).error == Missing
    ensures Authorize(s, call, actor).Ok? ==> RoutedTo(s, call, actor, Authorize(s, call, actor).value.approver)
    ensures DecidersNow(s, call, actor).Ok? ==> RoutedTo(s, call, actor, DecidersNow(s, call, actor).value.approver)
  {
    hide StructuralApprover, ColumnApprovers, OwnerAndEditors;
    GoneIsUndecided(s, call, actor);
  }

  // ----- a direct call -----

  /** The call ran at once: its effect, one entry in the log, and no request. */
  ghost predicate RanAtOnce(w: World, z: World, call: Call, u: User) {
    Effect(w.sheet, call, u, z.sheet) && z.requests == w.requests && z.log == w.log + [Event(Ran(call), None, u)]
  }

  /** The call was filed: one open, unsigned request, routed as it should be, and the sheet left alone. */
  ghost predicate FiledFor(w: World, z: World, call: Call, u: User, approver: User) {
    && RoutedTo(w.sheet, call, u, approver) && z.sheet == w.sheet
    && z.requests == w.requests + [Request(u, Single(call, approver, {}), Proposed)]
    && z.log == w.log + [Event(Filed, Some(|w.requests|), u)]
  }

  /**
   * Mutate or suggest, in full.  A call that does not resolve changes nothing.  A resolved one, by a user
   * entitled to it on a sheet that does not make owners ask (a revocation never asks), runs at once
   * with its effect or is refused for its reason.  Any other is filed with the owner of what it is about,
   * or is refused when that is gone.
   */
  lemma CallsRunOrFile(w: World, call: Call, ready: Call, u: User)
    requires !NamesADomain(call) && ReadyAs(w.sheet, call, ready)
    ensures var z := Step(w, Do(call, u));
            var direct := Entitled(w.sheet, ready, u) && (w.sheet.ownersSuggest ==> ready.RevokeDelegation?);
            && (direct ==> RanAtOnce(w, z, ready, u) || (z == w && exists e :: RefusedAs(w.sheet, ready, u, e)))
            && (direct && (forall e :: !RefusedAs(w.sheet, ready, u, e)) ==> RanAtOnce(w, z, ready, u))
            && (!direct && Gone(w.sheet, ready) ==> z == w)
            && (!direct && !Gone(w.sheet, ready) ==> exists approver :: FiledFor(w, z, ready, u, approver))
  {
    ResolvesExactly(w.sheet, call, ready);
    AuthorityIsPolicy(w.sheet, ready, u);
    RoutesExactly(w.sheet, ready, u);
    hide *;
    ResolvedStep(w, call, ready, u);
    HandlesExactly(w.sheet, ready, u);
  }

  lemma HandlesExactly(s: Sheet, call: Call, u: User)
    ensures Handle(s, call, u).Ok? ==>
              Effect(s, call, u, Handle(s, call, u).value) && forall e :: !RefusedAs(s, call, u, e)
    ensures Handle(s, call, u).Err? ==> RefusedAs(s, call, u, Handle(s, call, u).error)
  {
    hide *;
    if Handle(s, call, u).Err? {
      HandlersRefuseExactly(s, call, u, Handle(s, call, u).error);
    } else {
      HandlersTakeEffect(s, call, u);
      forall e ensures !RefusedAs(s, call, u, e) { HandlersRefuseExactly(s, call, u, e); }
    }
  }

  /** The step of a resolved call, by its authority and by what its handler answers. */
  lemma ResolvedStep(w: World, call: Call, ready: Call, u: User)
    requires Resolved(w.sheet, call) == Ok(ready)
    ensures var z, auth, done := Step(w, Do(call, u)), Authorize(w.sheet, ready, u), Handle(w.sheet, ready, u);
            && (auth.Err? ==> z == w)
            && (auth.Ok? && !(auth.value.ok && (w.sheet.ownersSuggest ==> ready.RevokeDelegation?)) ==>
                  forall approver :: approver == auth.value.approver && RoutedTo(w.sheet, ready, u, approver) ==>
                                       FiledFor(w, z, ready, u, approver))
            && (auth.Ok? && auth.value.ok && (w.sheet.ownersSuggest ==> ready.RevokeDelegation?) ==>
                  if done.Err? then z == w
                  else Effect(w.sheet, ready, u, done.value) ==> RanAtOnce(w, z, ready, u))
  {
    hide Authorize, Handle, Effect, RoutedTo, Resolved;
  }

  /** A call that does not resolve changes nothing. */
  lemma UnresolvedCallsChangeNothing(w: World, call: Call, u: User)
    requires forall ready :: NamesADomain(call) || !ReadyAs(w.sheet, call, ready)
    ensures Step(w, Do(call, u)) == w
  {
    if Resolved(w.sheet, call).Ok? { ResolvesExactly(w.sheet, call, Resolved(w.sheet, call).value); }
    hide Resolved, NamesADomain, ReadyAs;
  }

  // ----- withdrawing and rejecting -----

  /** Request `r` is closed with this status and its calls not carried out: the sheet stays. */
  ghost predicate ClosedAs(w: World, z: World, r: nat, status: Status, u: User) {
    && r < |w.requests| && z.sheet == w.sheet
    && z.requests == w.requests[r := w.requests[r].(status := status)]
    && z.log == w.log + [Event(Decided(status), Some(r), u)]
  }

  /** Its requester withdraws an open request, nobody else does, and nothing else is withdrawn. */
  lemma WithdrawsExactly(w: World, r: nat, u: User)
    ensures r < |w.requests| && w.requests[r].status == Proposed && u == w.requests[r].requester ==>
              ClosedAs(w, Step(w, Retract(r, u)), r, Withdrawn, u)
    ensures !(r < |w.requests| && w.requests[r].status == Proposed && u == w.requests[r].requester) ==>
              Step(w, Retract(r, u)) == w
    ensures Attempt(w, Retract(r, u)) == Err(Missing) <==> r >= |w.requests|
    ensures Attempt(w, Retract(r, u)) == Err(NotProposed) <==> r < |w.requests| && w.requests[r].status != Proposed
    ensures Attempt(w, Retract(r, u)) == Err(NotRequester) <==>
            r < |w.requests| && w.requests[r].status == Proposed && u != w.requests[r].requester
  {
  }

  /** When a step leaves an open request withdrawn, the step is its requester withdrawing it. */
  lemma OnlyRequestersWithdraw(w: World, a: Action, r: nat)
    requires r < |w.requests| && w.requests[r].status == Proposed
    requires r < |Step(w, a).requests| && Step(w, a).requests[r].status == Withdrawn
    ensures a == Retract(r, w.requests[r].requester) && ClosedAs(w, Step(w, a), r, Withdrawn, a.actor)
  {
    RequestAfter(w, a, r);
    if a.Accept? {
      if Approve(w, r, a.actor).Ok? { var body, s, ran := ApprovalShape(w, r, a.actor); }
    } else if a.Retract? {
      WithdrawsExactly(w, a.req, a.actor);
    }
  }

  /** In every run a withdrawn request was withdrawn at one step, by whoever filed it, while it was open. */
  lemma {:induction false} WithdrawnByRequester(w: World, acts: seq<Action>, r: nat) returns (t: nat)
    requires w.requests == [] && r < |Run(w, acts).requests| && Run(w, acts).requests[r].status == Withdrawn
    ensures t < |acts| && acts[t] == Retract(r, Run(w, acts).requests[r].requester)
    ensures r < |Run(w, acts[..t]).requests| && Run(w, acts[..t]).requests[r].status == Proposed
  {
    hide Step, ClosedAs;
    var rest, a := acts[..|acts| - 1], acts[|acts| - 1];
    var z := Run(w, rest);
    StepGrows(z, a);
    if r >= |z.requests| {
      NewRequestsOpen(z, a, r);
    } else {
      assert Follows(z.requests[r], Step(z, a).requests[r]);
      if z.requests[r].status == Withdrawn {
        t := WithdrawnByRequester(w, rest, r);
        assert rest[..t] == acts[..t];
      } else {
        OnlyRequestersWithdraw(z, a, r);
        t := |acts| - 1;
      }
    }
  }

  /** Who may reject: a decider of one of its calls; for a batch without items, only the empty name. */
  ghost predicate MayReject(s: Sheet, q: Request, u: User) {
    DecidesOn(s, q, u) || (q.body == Batch([]) && u == "")
  }

  /** A decider rejects an open request while all it is about exists, nobody else does, and nothing else is rejected. */
  lemma RejectsExactly(w: World, r: nat, u: User)
    ensures var open := r < |w.requests| && w.requests[r].status == Proposed;
            if open && !Orphaned(w.sheet, w.requests[r]) && MayReject(w.sheet, w.requests[r], u)
            then ClosedAs(w, Step(w, Refuse(r, u)), r, Rejected, u)
            else Step(w, Refuse(r, u)) == w
  {
    if r < |w.requests| && w.requests[r].status == Proposed {
      AllowedExactly(w.sheet, w.requests[r], u);
    }
    hide AllowedOn, Orphaned, MayReject;
  }

  lemma AllowedExactly(s: Sheet, q: Request, u: User)
    ensures AllowedOn(s, q).Err? <==> Orphaned(s, q)
    ensures AllowedOn(s, q).Ok? ==> (u in AllowedOn(s, q).value <==> MayReject(s, q, u))
  {
    hide Gone, DecidersNow, Decides, SomeGone;
    match q.body {
      case Single(call, approver, _) =>
        GoneIsUndecided(s, call, approver);
        if DecidersNow(s, call, approver).Ok? { DecidersArePolicy(s, call, approver, u); }
      case Batch(items) =>
        SomeGoneFills(s, items);
        BatchUndecided(s, items, q.requester, u);
        if AllowedOnItems(s, items, q.requester).Ok? { AllowedIsSomeItem(s, items, q.requester, u); }
    }
  }

  /** When a step leaves an open request rejected, the step is a decider rejecting it. */
  lemma OnlyDecidersReject(w: World, a: Action, r: nat)
    requires r < |w.requests| && w.requests[r].status == Proposed
    requires r < |Step(w, a).requests| && Step(w, a).requests[r].status == Rejected
    ensures a.Refuse? && a.req == r && MayReject(w.sheet, w.requests[r], a.actor) && !Orphaned(w.sheet, w.requests[r])
  {
    RequestAfter(w, a, r);
    hide MayReject, Orphaned;
    if a.Accept? {
      if Approve(w, r, a.actor).Ok? { var body, s, ran := ApprovalShape(w, r, a.actor); }
    } else if a.Refuse? {
      RejectsExactly(w, a.req, a.actor);
    }
  }

  // ----- approving -----

  /** The call took its effect, run as whoever it is routed to. */
  ghost predicate TookEffect(s: Sheet, call: Call, stored: User, z: Sheet) {
    exists approver :: RoutedTo(s, call, stored, approver) && Effect(s, call, approver, z)
  }

  lemma ReplayTakesEffect(s: Sheet, call: Call, stored: User)
    requires DecidersNow(s, call, stored).Ok? && Handle(s, call, DecidersNow(s, call, stored).value.approver).Ok?
    ensures TookEffect(s, call, stored, Handle(s, call, DecidersNow(s, call, stored).value.approver).value)
  {
    hide Effect, RoutedTo, Handle, DecidersNow;
    RoutesExactly(s, call, stored);
    HandlersTakeEffect(s, call, DecidersNow(s, call, stored).value.approver);
  }

  /** When an approval closes a single request, its call took its effect, as the approver of that moment. */
  lemma ClosedSingleTookEffect(w: World, r: nat, u: User)
    requires r < |w.requests| && w.requests[r].status == Proposed && w.requests[r].body.Single?
    requires r < |Step(w, Accept(r, u)).requests| && Step(w, Accept(r, u)).requests[r].status == Approved
    ensures TookEffect(w.sheet, w.requests[r].body.call, w.requests[r].body.approver, Step(w, Accept(r, u)).sheet)
  {
    var b := w.requests[r].body;
    assert DecidersNow(w.sheet, b.call, b.approver).Ok?
           && Handle(w.sheet, b.call, DecidersNow(w.sheet, b.call, b.approver).value.approver)
              == Ok(Step(w, Accept(r, u)).sheet) by { hide Handle, DecidersNow; }
    hide *;
    ReplayTakesEffect(w.sheet, b.call, b.approver);
  }

  /** Sheets in between, one per item run: each comes from the one before by that item taking its effect. */
  ghost predicate Chain(sheets: seq<Sheet>, items: seq<Item>, requester: User) {
    && |sheets| == |items| + 1
    && forall i {:trigger Link(sheets, items, requester, i)} :: 0 <= i < |items| ==> Link(sheets, items, requester, i)
  }

  ghost predicate Link(sheets: seq<Sheet>, items: seq<Item>, requester: User, i: int)
    requires |sheets| == |items| + 1 && 0 <= i < |items|
  {
    TookEffect(sheets[i], items[i].call, Stored(items[i], requester), sheets[i + 1])
  }

  lemma ChainSnoc(sheets: seq<Sheet>, z: Sheet, items: seq<Item>, it: Item, requester: User)
    requires Chain(sheets, items, requester) && TookEffect(sheets[|items|], it.call, Stored(it, requester), z)
    ensures Chain(sheets + [z], items + [it], requester)
  {
    hide TookEffect, Stored;
    var longer, more := sheets + [z], items + [it];
    forall i | 0 <= i < |more|
      ensures Link(longer, more, requester, i)
    {
      if i < |items| { assert Link(sheets, items, requester, i); }
    }
  }

  lemma {:induction false} ReplayIsChain(s: Sheet, items: seq<Item>, requester: User, r: nat)
    returns (sheets: seq<Sheet>)
    requires ReplayItems(s, items, requester, r).Ok?
    ensures Chain(sheets, items, requester)
    ensures sheets[0] == s && sheets[|items|] == ReplayItems(s, items, requester, r).value.sheet
  {
    hide *;
    ChainLength();
    if items == [] {
      NothingReplayed(s, requester, r);
      sheets := [s];
    } else {
      var before, it := items[..|items| - 1], items[|items| - 1];
      assert items == before + [it];
      ReplayLast(s, items, requester, r);
      var y, z := ReplayItems(s, before, requester, r).value.sheet, ReplayItems(s, items, requester, r).value.sheet;
      var most := ReplayIsChain(s, before, requester, r);
      ReplayTakesEffect(y, it.call, Stored(it, requester));
      ChainSnoc(most, z, before, it, requester);
      sheets := most + [z];
    }
  }

  lemma {:induction false} NothingReplayed(s: Sheet, requester: User, r: nat)
    ensures ReplayItems(s, [], requester, r) == Ok(Replayed(s, [])) && Chain([s], [], requester)
  {
  }

  lemma ChainLength()
    ensures forall sheets, items, requester {:trigger Chain(sheets, items, requester)} ::
              Chain(sheets, items, requester) ==> |sheets| == |items| + 1
  {
  }

  /** When an approval closes a batch, its items took their effects one after the other, in order. */
  lemma ClosedBatchTookEffect(w: World, r: nat, u: User) returns (sheets: seq<Sheet>, items: seq<Item>)
    requires r < |w.requests| && w.requests[r].status == Proposed && w.requests[r].body.Batch?
    requires r < |Step(w, Accept(r, u)).requests| && Step(w, Accept(r, u)).requests[r].status == Approved
    ensures Step(w, Accept(r, u)).requests[r].body == Batch(items) && Chain(sheets, items, w.requests[r].requester)
    ensures sheets[0] == w.sheet && sheets[|items|] == Step(w, Accept(r, u)).sheet
    ensures Calls(Batch(items)) == Calls(w.requests[r].body)
  {
    hide Handle, DecidersNow, ReplayItems, SignItems, Chain;
    var q := w.requests[r];
    items := SignItems(w.sheet, q.body.items, q.requester, u).value;
    SigningKeepsCalls(w.sheet, q.body.items, q.requester, u);
    sheets := ReplayIsChain(w.sheet, items, q.requester, r);
  }

  /** A batch with an item nobody has signed yet only collects signatures, and only those of a decider. */
  lemma {:induction false} BatchWaitsExactly(w: World, r: nat, u: User, i: nat)
    requires r < |w.requests| && w.requests[r].status == Proposed && w.requests[r].body.Batch?
    requires i < |w.requests[r].body.items| && !Ready(w.sheet, w.requests[r].body.items, w.requests[r].requester, u, i)
    ensures var q, z := w.requests[r], Step(w, Accept(r, u));
            if !Orphaned(w.sheet, q) && SomeoneSigns(w.sheet, q.body.items, q.requester, u) then
              && z.sheet == w.sheet && z.log == w.log
              && SignItems(w.sheet, q.body.items, q.requester, u).Ok?
              && z.requests ==
                 w.requests[r := q.(body := Batch(SignItems(w.sheet, q.body.items, q.requester, u).value))]
            else z == w
  {
    hide Handle, DecidersNow, ReplayItems, SignItems, Ready, Gone, SomeoneSigns, AllSigned, SameSignatures, SomeGone;
    var q := w.requests[r];
    BatchUndecided(w.sheet, q.body.items, q.requester, u);
    if SignItems(w.sheet, q.body.items, q.requester, u).Ok? {
      SignedIsReady(w.sheet, q.body.items, q.requester, u, i);
      NotAllSigned(SignItems(w.sheet, q.body.items, q.requester, u).value, i);
      NewSignatures(w.sheet, q.body.items, q.requester, u);
    }
  }

  /** Some item is unsigned and the user's to sign. */
  ghost predicate SomeoneSigns(s: Sheet, items: seq<Item>, requester: User, u: User) {
    exists it :: it in items && it.approvedBy == None && Decides(s, it.call, Stored(it, requester), u)
  }

  lemma NotAllSigned(signed: seq<Item>, i: nat)
    requires i < |signed| && signed[i].approvedBy.None?
    ensures !AllSigned(signed)
  {
    assert signed[i] in signed;
  }

  lemma {:induction false} NewSignatures(s: Sheet, items: seq<Item>, requester: User, u: User)
    requires SignItems(s, items, requester, u).Ok?
    ensures SomeoneSigns(s, items, requester, u) <==> !SameSignatures(items, SignItems(s, items, requester, u).value)
  {
    hide SignItems, Decides, Stored;
    var signed := SignItems(s, items, requester, u).value;
    SigningKeepsCalls(s, items, requester, u);
    forall i | 0 <= i < |items|
      ensures signed[i].approvedBy != items[i].approvedBy <==>
              items[i].approvedBy == None && Decides(s, items[i].call, Stored(items[i], requester), u)
    {
      SigningIsExact(s, items, requester, u, i);
    }
    if SomeoneSigns(s, items, requester, u) {
      var it :| it in items && it.approvedBy == None && Decides(s, it.call, Stored(it, requester), u);
      var i :| 0 <= i < |items| && items[i] == it;
      assert signed[i].approvedBy != items[i].approvedBy;
    }
  }

  /** Signing routes an item anew: its approver is whoever decides about it at that moment. */
  lemma {:induction false} SignedItemsAreRouted(s: Sheet, items: seq<Item>, requester: User, u: User, i: nat)
    requires SignItems(s, items, requester, u).Ok? && i < |items|
    ensures |SignItems(s, items, requester, u).value| == |items|
    ensures RoutedTo(s, items[i].call, Stored(items[i], requester), SignItems(s, items, requester, u).value[i].approver)
  {
    SigningKeepsCalls(s, items, requester, u);
    hide RoutedTo, DecidersNow, Stored;
    if i == |items| - 1 {
      RoutesExactly(s, items[i].call, Stored(items[i], requester));
    } else {
      SigningKeepsCalls(s, items[..|items| - 1], requester, u);
      SignedItemsAreRouted(s, items[..|items| - 1], requester, u, i);
    }
  }

  /** An approval of a single request that is not refused adds the user's signature and routes it anew. */
  lemma SignedSinglesAreRouted(w: World, r: nat, u: User)
    requires r < |w.requests| && w.requests[r].status == Proposed && w.requests[r].body.Single?
    requires Attempt(w, Accept(r, u)).Ok?
    ensures r < |Step(w, Accept(r, u)).requests|
    ensures var b, after := w.requests[r].body, Step(w, Accept(r, u)).requests[r].body;
            && after.Single? && after.call == b.call && after.approvals == b.approvals + {u}
            && RoutedTo(w.sheet, b.call, b.approver, after.approver)
  {
    RoutesExactly(w.sheet, w.requests[r].body.call, w.requests[r].body.approver);
    hide RoutedTo, DecidersNow, Handle;
  }

  /** Why an approval is refused outright: what is missing, what is closed, who may not decide. */
  lemma ApprovalsRefusedAs(w: World, r: nat, u: User)
    ensures r >= |w.requests| ==> Attempt(w, Accept(r, u)) == Err(Missing)
    ensures r < |w.requests| && w.requests[r].status != Proposed ==> Attempt(w, Accept(r, u)) == Err(NotProposed)
    ensures r < |w.requests| && w.requests[r].status == Proposed && Orphaned(w.sheet, w.requests[r]) ==>
              Attempt(w, Accept(r, u)) == Err(Missing)
    ensures r < |w.requests| && w.requests[r].status == Proposed && w.requests[r].body == Batch([]) ==>
              Attempt(w, Accept(r, u)) == Err(if u == "" then BadParams else NotApprover)
    ensures r < |w.requests| && w.requests[r].status == Proposed && w.requests[r].body.Single?
            && !Orphaned(w.sheet, w.requests[r]) && !DecidesOn(w.sheet, w.requests[r], u) ==>
              Attempt(w, Accept(r, u)) == Err(NotApprover)
  {
    if r < |w.requests| && w.requests[r].status == Proposed {
      match w.requests[r].body {
        case Single(call, approver, _) => SingleRefusedAs(w, r, u);
        case Batch(items) => BatchMissing(w.sheet, items, w.requests[r].requester, u);
      }
    }
    hide SignItems, SomeGone, ReplayItems, DecidersNow, Handle, Gone;
  }

  lemma SingleRefusedAs(w: World, r: nat, u: User)
    requires r < |w.requests| && w.requests[r].body.Single?
    ensures var b := w.requests[r].body;
            && (Gone(w.sheet, b.call) ==> ApproveSingle(w, r, u) == Err(Missing))
            && (!Gone(w.sheet, b.call) && !Decides(w.sheet, b.call, b.approver, u) ==>
                  ApproveSingle(w, r, u) == Err(NotApprover))
  {
    var b := w.requests[r].body;
    RoutesExactly(w.sheet, b.call, b.approver);
    GoneIsUndecided(w.sheet, b.call, b.approver);
    if !Gone(w.sheet, b.call) { DecidersArePolicy(w.sheet, b.call, b.approver, u); }
    assert DecidersNow(w.sheet, b.call, b.approver).Err? ==>
        DecidersNow(w.sheet, b.call, b.approver).error == Authorize(w.sheet, b.call, b.approver).error
        && Authorize(w.sheet, b.call, b.approver).Err? by { hide Authorize; }
    hide DecidersNow, Authorize, Gone, Decides, Handle;
  }

  lemma {:induction false} BatchMissing(s: Sheet, items: seq<Item>, requester: User, u: User)
    ensures SomeGone(s, items) ==> items != [] && SignItems(s, items, requester, u) == Err(Missing)
  {
    BatchUndecided(s, items, requester, u);
    if items != [] {
      var before, it := items[..|items| - 1], items[|items| - 1];
      BatchMissing(s, before, requester, u);
      BatchUndecided(s, before, requester, u);
      RoutesExactly(s, it.call, Stored(it, requester));
      hide Gone, SomeGone, Authorize, Stored;
    }
  }

  // ----- suggesting -----

  /** Item `i` is the resolved call `i`, routed as it should be, and unsigned. */
  ghost predicate ItemOf(s: Sheet, call: Call, u: User, it: Item) {
    !NamesADomain(call) && ReadyAs(s, call, it.call) && RoutedTo(s, it.call, u, it.approver) && it.approvedBy == None
  }

  ghost predicate ItemsOf(s: Sheet, calls: seq<Call>, u: User, items: seq<Item>) {
    |items| == |calls| && forall i :: 0 <= i < |calls| ==> ItemOf(s, calls[i], u, items[i])
  }

  lemma ItemExactly(s: Sheet, call: Call, u: User)
    ensures ItemFor(s, call, u).Ok? ==> ItemOf(s, call, u, ItemFor(s, call, u).value)
    ensures ItemFor(s, call, u).Err? <==>
            forall ready :: !NamesADomain(call) && ReadyAs(s, call, ready) ==> Gone(s, ready)
  {
    hide RoutedTo, ReadyAs, NamesADomain, Resolved, Authorize, Gone;
    var ready := Resolved(s, call);
    forall other
      ensures ready == Ok(other) <==> !NamesADomain(call) && ReadyAs(s, call, other)
    {
      ResolvesExactly(s, call, other);
    }
    if ready.Ok? { RoutesExactly(s, ready.value, u); }
  }

  /** No call of the batch is refused: each resolves, and to something that exists. */
  ghost predicate CanFile(s: Sheet, call: Call) {
    exists ready :: !NamesADomain(call) && ReadyAs(s, call, ready) && !Gone(s, ready)
  }

  ghost predicate CanFileAll(s: Sheet, calls: seq<Call>) {
    forall i :: 0 <= i < |calls| ==> CanFile(s, calls[i])
  }

  lemma {:induction false} ItemizesExactly(s: Sheet, calls: seq<Call>, u: User)
    ensures Itemize(s, calls, u).Ok? ==> ItemsOf(s, calls, u, Itemize(s, calls, u).value)
    ensures Itemize(s, calls, u).Ok? <==> CanFileAll(s, calls)
  {
    hide *;
    if calls == [] {
      NothingItemized(s, u);
    } else {
      var before, last := calls[..|calls| - 1], calls[|calls| - 1];
      assert calls == before + [last];
      ItemizesExactly(s, before, u);
      CanFileExactly(s, last, u);
      ItemizeUnfolds(s, calls, u);
      CanFileSnoc(s, before, last);
      if Itemize(s, calls, u).Ok? {
        ItemsSnoc(s, before, last, u, Itemize(s, before, u).value, ItemFor(s, last, u).value);
      }
    }
  }

  lemma {:induction false} NothingItemized(s: Sheet, u: User)
    ensures Itemize(s, [], u) == Ok([]) && ItemsOf(s, [], u, []) && CanFileAll(s, [])
  {
  }

  lemma {:induction false} ItemizeUnfolds(s: Sheet, calls: seq<Call>, u: User)
    requires calls != []
    ensures var most, last := Itemize(s, calls[..|calls| - 1], u), ItemFor(s, calls[|calls| - 1], u);
            && (Itemize(s, calls, u).Ok? <==> most.Ok? && last.Ok?)
            && (Itemize(s, calls, u).Ok? ==> Itemize(s, calls, u).value == most.value + [last.value])
  {
    hide ItemFor;
  }

  lemma CanFileSnoc(s: Sheet, calls: seq<Call>, last: Call)
    ensures CanFileAll(s, calls + [last]) <==> CanFileAll(s, calls) && CanFile(s, last)
  {
    hide CanFile;
    assert forall i :: 0 <= i < |calls| ==> (calls + [last])[i] == calls[i];
    assert (calls + [last])[|calls|] == last;
  }

  lemma ItemsSnoc(s: Sheet, calls: seq<Call>, last: Call, u: User, items: seq<Item>, it: Item)
    requires ItemsOf(s, calls, u, items) && ItemOf(s, last, u, it)
    ensures ItemsOf(s, calls + [last], u, items + [it])
  {
    hide ItemOf;
  }

  lemma CanFileExactly(s: Sheet, call: Call, u: User)
    ensures ItemFor(s, call, u).Ok? ==> ItemOf(s, call, u, ItemFor(s, call, u).value)
    ensures ItemFor(s, call, u).Ok? <==> CanFile(s, call)
  {
    ItemExactly(s, call, u);
    hide ItemFor, ItemOf, ReadyAs, Gone, NamesADomain;
  }

  /** A batch is filed whole, every item resolved, routed and unsigned, or not at all. */
  lemma SuggestsExactly(w: World, calls: seq<Call>, u: User)
    ensures var z := Step(w, Suggest(calls, u));
            if CanFileAll(w.sheet, calls) then
              && z.sheet == w.sheet && z.log == w.log + [Event(Filed, Some(|w.requests|), u)]
              && exists items :: ItemsOf(w.sheet, calls, u, items)
                                 && z.requests == w.requests + [Request(u, Batch(items), Proposed)]
            else z == w
  {
    ItemizesExactly(w.sheet, calls, u);
    hide Itemize, ItemsOf, CanFileAll;
  }
}
