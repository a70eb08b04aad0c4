/** How a request can still be closed: the ones that never stick, and the ones only their requester can close. */
module RequestExits {
  import opened Common
  import opened Forests
  import opened TreeRepository
  import opened Columns
  import opened Governance
  import opened GovernanceLaws
  import opened Entitlement
  import opened GovernedWrites
  import opened Signatures
  import opened Deciders

  // ----- column requests never stick -----

  /** However the columns changed since, the sheet owner can always close a column-order request, with this effect. */
  lemma OrderRequestsNeverStick(w: World, r: nat)
    requires r < |w.requests| && w.requests[r].status == Proposed
    requires w.requests[r].body.Single? && w.requests[r].body.call.SetColumnOrder?
    ensures var s, z, order := w.sheet, Step(w, Accept(r, w.sheet.owner)), w.requests[r].body.call.order;
            && z.requests[r].status == Approved
            && z.sheet.colOrder == Reordered(s.colOrder, s.labels, OrderForWrite(s.colOrder, s.labels, s.field, order))
  {
    var s := w.sheet;
    StaleOrderIsOrderable(s.colOrder, s.labels, s.field, w.requests[r].body.call.order);
  }

  /** Nor can a request for a new column stick: its anchor may vanish, the column then comes last. */
  lemma ColumnRequestsNeverStick(w: World, r: nat)
    requires r < |w.requests| && w.requests[r].status == Proposed
    requires w.requests[r].body.Single? && w.requests[r].body.call.AddColumn?
    requires NamesApprovers(w.requests[r].body.call) && !IsDomain(w.sheet.owner)
    ensures var s, call, z := w.sheet, w.requests[r].body.call, Step(w, Accept(r, w.sheet.owner));
            && z.requests[r].status == Approved && s.nextId in z.sheet.cols
            && z.sheet.colOrder == (ResolveAnchorInView(s.colOrder, s.field, call.after);
                                    Inserted(s.colOrder, AfterForWrite(s.colOrder, s.field, call.after), s.nextId))
  {
    ResolveAnchorInView(w.sheet.colOrder, w.sheet.field, w.requests[r].body.call.after);
  }

  lemma {:induction false} ItemsNameApprovers(s: Sheet, calls: seq<Call>, actor: User, it: Item)
    requires Itemize(s, calls, actor).Ok? && it in Itemize(s, calls, actor).value
    ensures NamesApprovers(it.call)
  {
    if it in Itemize(s, calls[..|calls| - 1], actor).value {
      ItemsNameApprovers(s, calls[..|calls| - 1], actor, it);
    } else {
      ResolvedNames(s, calls[|calls| - 1]);
    }
  }

  lemma ResolvedNames(s: Sheet, call: Call)
    requires Resolved(s, call).Ok?
    ensures NamesApprovers(Resolved(s, call).value)
  {
  }

  lemma NewCallsNameApprovers(w: World, a: Action, call: Call)
    requires |Step(w, a).requests| > |w.requests| && call in Calls(Step(w, a).requests[|w.requests|].body)
    ensures NamesApprovers(call)
  {
    AtMostOneFiled(w, a);
    match a {
      case Do(c, actor) => ResolvedNames(w.sheet, c);
      case Suggest(calls, actor) =>
        var items := Itemize(w.sheet, calls, actor).value;
        var i :| 0 <= i < |items| && items[i].call == call;
        ItemsNameApprovers(w.sheet, calls, actor, items[i]);
    }
  }

  ghost predicate Named(q: Request) {
    forall call :: call in Calls(q.body) ==> NamesApprovers(call)
  }

  lemma StepKeepsNamed(w: World, a: Action, r: nat)
    requires r < |Step(w, a).requests| && (r < |w.requests| ==> Named(w.requests[r]))
    ensures Named(Step(w, a).requests[r])
  {
    AtMostOneFiled(w, a);
    if r < |w.requests| {
      StepGrows(w, a);
      assert Follows(w.requests[r], Step(w, a).requests[r]);
    } else {
      forall call | call in Calls(Step(w, a).requests[r].body)
        ensures NamesApprovers(call)
      {
        NewCallsNameApprovers(w, a, call);
      }
    }
  }

  /**
   * Every call a run has filed passed the checks of a direct call, so no stored call names a mail domain
   * as approver.
   */
  lemma {:induction false} FiledCallsNameApprovers(w: World, acts: seq<Action>, r: nat)
    requires w.requests == [] && r < |Run(w, acts).requests|
    ensures Named(Run(w, acts).requests[r])
  {
    hide Named, Step;
    if acts != [] {
      if r < |Run(w, acts[..|acts| - 1]).requests| { FiledCallsNameApprovers(w, acts[..|acts| - 1], r); }
      StepKeepsNamed(Run(w, acts[..|acts| - 1]), acts[|acts| - 1], r);
    }
  }

  // ----- requests only their requester can close -----

  /** A row, column or branch the call is about no longer exists. */
  ghost predicate Gone(s: Sheet, call: Call) {
    match call
    case UpdateCell(_, c, _, _) => c !in s.cols
    case DeleteColumn(c) => c !in s.cols
    case GrantColumn(c, _, _) => c !in s.cols
    case AddNode(p, _) => !AtNode(s.forest, p)
    case DeleteNode(n) => n !in s.forest.par
    case DelegateBranch(b, _) => b !in s.forest.par
    case MoveNode(n, to) => n !in s.forest.par || !AtNode(s.forest, to)
    case RevokeDelegation(g) => g < |s.grants| && s.grants[g].root !in s.forest.par
    case SetColumnOrder(_) => false
    case AddColumn(_, _, _, _) => false
  }

  lemma GoneIsUndecided(s: Sheet, call: Call, stored: User)
    ensures DecidersNow(s, call, stored).Err? <==> Gone(s, call)
    ensures !Gone(s, call) ==> DecidersNow(s, call, stored).value.approver in DecidersNow(s, call, stored).value.allowed
  {
    if call.MoveNode? && call.node in s.forest.par { assert s.forest.LinkOk(call.node); }
  }

  ghost predicate SomeGone(s: Sheet, items: seq<Item>) {
    exists it :: it in items && Gone(s, it.call)
  }

  lemma {:induction false} BatchUndecided(s: Sheet, items: seq<Item>, requester: User, actor: User)
    ensures AllowedOnItems(s, items, requester).Err? <==> SomeGone(s, items)
    ensures SignItems(s, items, requester, actor).Err? <==> SomeGone(s, items)
    ensures !SomeGone(s, items) && items != [] ==> AllowedOnItems(s, items, requester).value != {}
  {
    if items != [] {
      hide Gone, DecidersNow;
      var before, it := items[..|items| - 1], items[|items| - 1];
      assert items == before + [it];
      BatchUndecided(s, before, requester, actor);
      GoneIsUndecided(s, it.call, Stored(it, requester));
      assert SomeGone(s, items) <==> SomeGone(s, before) || Gone(s, it.call) by { SomeGoneSnoc(s, before, it); }
    }
  }

  lemma SomeGoneSnoc(s: Sheet, before: seq<Item>, it: Item)
    ensures SomeGone(s, before + [it]) <==> SomeGone(s, before) || Gone(s, it.call)
  {
    hide Gone;
    if SomeGone(s, before) {
      var x :| x in before && Gone(s, x.call);
      assert x in before + [it];
    }
    assert it in before + [it];
  }

  /** What the request is about is gone, in whole or, for a batch, in part. */
  ghost predicate Orphaned(s: Sheet, q: Request) {
    match q.body
    case Single(call, _, _) => Gone(s, call)
    case Batch(items) => SomeGone(s, items)
  }

  ghost predicate Accepts(w: World, r: nat, u: User) {
    Attempt(w, Accept(r, u)).Ok?
  }

  ghost predicate Refuses(w: World, r: nat, u: User) {
    Attempt(w, Refuse(r, u)).Ok?
  }

  /** Once something it is about is gone, nobody at all can sign or reject a request. */
  lemma OrphansAreUndecidable(w: World, r: nat, u: User)
    requires r < |w.requests| && w.requests[r].status == Proposed && Orphaned(w.sheet, w.requests[r])
    ensures !Accepts(w, r, u) && !Refuses(w, r, u)
  {
    hide Gone, DecidersNow, SomeGone;
    var q := w.requests[r];
    match q.body {
      case Single(call, approver, _) => GoneIsUndecided(w.sheet, call, approver);
      case Batch(items) =>
        SomeGoneFills(w.sheet, items);
        BatchUndecided(w.sheet, items, q.requester, u);
    }
  }

  lemma SomeGoneFills(s: Sheet, items: seq<Item>)
    ensures SomeGone(s, items) ==> items != []
  {
  }

  /** `u` decides about the call of the request, or about one of its items. */
  ghost predicate DecidesOn(s: Sheet, q: Request, u: User) {
    match q.body
    case Single(call, approver, _) => Decides(s, call, approver, u)
    case Batch(items) => DecidesSome(s, items, q.requester, u)
  }

  /** A user rejects a request exactly by deciding about one of its calls while all they are about exists. */
  lemma UserRefusesExactly(w: World, r: nat, u: User)
    requires r < |w.requests| && w.requests[r].status == Proposed && IsUser(u)
    ensures Refuses(w, r, u) <==> !Orphaned(w.sheet, w.requests[r]) && DecidesOn(w.sheet, w.requests[r], u)
  {
    hide Gone, DecidersNow, Decides, SomeGone;
    var q := w.requests[r];
    match q.body {
      case Single(call, approver, _) =>
        GoneIsUndecided(w.sheet, call, approver);
        if DecidersNow(w.sheet, call, approver).Ok? { DecidersArePolicy(w.sheet, call, approver, u); }
      case Batch(items) =>
        SomeGoneFills(w.sheet, items);
        BatchUndecided(w.sheet, items, q.requester, u);
        if AllowedOnItems(w.sheet, items, q.requester).Ok? { AllowedIsSomeItem(w.sheet, items, q.requester, u); }
    }
  }

  /** An open batch still waits for a signature. */
  ghost predicate Unsettled(q: Request) {
    q.status == Proposed && q.body.Batch? && q.body.items != [] ==> !AllSigned(q.body.items)
  }

  /** Signing by someone who decides about none of the items signs nothing. */
  lemma {:induction false} SignsNothing(s: Sheet, items: seq<Item>, requester: User, u: User)
    requires SignItems(s, items, requester, u).Ok? && !DecidesSome(s, items, requester, u)
    ensures AllSigned(SignItems(s, items, requester, u).value) <==> AllSigned(items)
    ensures SameSignatures(items, SignItems(s, items, requester, u).value)
  {
    hide SignItems, Decides;
    var signed := SignItems(s, items, requester, u).value;
    SigningKeepsCalls(s, items, requester, u);
    forall i | 0 <= i < |items|
      ensures signed[i].approvedBy == items[i].approvedBy
    {
      SigningIsExact(s, items, requester, u, i);
      assert items[i] in items;
    }
    SignedAlike(items, signed);
  }

  lemma SignedAlike(items: seq<Item>, signed: seq<Item>)
    requires |signed| == |items| && forall i :: 0 <= i < |items| ==> signed[i].approvedBy == items[i].approvedBy
    ensures AllSigned(signed) <==> AllSigned(items)
  {
    if AllSigned(signed) {
      forall it | it in items
        ensures it.approvedBy.Some?
      {
        var i :| 0 <= i < |items| && items[i] == it;
        assert signed[i] in signed;
      }
    }
    if AllSigned(items) {
      forall it | it in signed
        ensures it.approvedBy.Some?
      {
        var i :| 0 <= i < |signed| && signed[i] == it;
        assert items[i] in items;
      }
    }
  }

  /** A user's signature counts only on a request the user decides about. */
  lemma UserAcceptsOnlyDeciding(w: World, r: nat, u: User)
    requires r < |w.requests| && w.requests[r].status == Proposed && IsUser(u) && Unsettled(w.requests[r])
    ensures Accepts(w, r, u) ==> DecidesOn(w.sheet, w.requests[r], u)
  {
    hide Gone, DecidersNow, Decides, SomeGone, Handle, ReplayItems, SignItems, DecidesSome, AllSigned;
    var q := w.requests[r];
    if Accepts(w, r, u) {
      match q.body {
        case Single(call, approver, _) => DecidersArePolicy(w.sheet, call, approver, u);
        case Batch(items) =>
          if !DecidesSome(w.sheet, items, q.requester, u) { SignsNothing(w.sheet, items, q.requester, u); }
      }
    }
  }

  /** A slot read when the request is decided holds a user: of the call, or of one of the items. */
  ghost predicate HasUserDecider(s: Sheet, q: Request) {
    match q.body
    case Single(call, approver, _) => UserDecides(s, call, approver)
    case Batch(items) => SomeItemHasUser(s, items, q.requester)
  }

  ghost predicate SomeItemHasUser(s: Sheet, items: seq<Item>, requester: User) {
    exists it :: it in items && UserDecides(s, it.call, Stored(it, requester))
  }

  lemma HasUserDeciderIsSome(s: Sheet, q: Request)
    ensures HasUserDecider(s, q) <==> exists u :: IsUser(u) && DecidesOn(s, q, u)
  {
    hide UserDecides, Decides, IsUser;
    match q.body {
      case Single(call, approver, _) =>
        UserDecidesIsSome(s, call, approver);
        if SomeUserDecides(s, call, approver) {
          var u :| IsUser(u) && Decides(s, call, approver, u);
          assert DecidesOn(s, q, u);
        }
        if u :| IsUser(u) && DecidesOn(s, q, u) { assert Decides(s, call, approver, u); }
      case Batch(items) => ItemsUserIsSome(s, q, items);
    }
  }

  lemma ItemsUserIsSome(s: Sheet, q: Request, items: seq<Item>)
    requires q.body == Batch(items)
    ensures SomeItemHasUser(s, items, q.requester) <==> exists u :: IsUser(u) && DecidesOn(s, q, u)
  {
    hide UserDecides, Decides, IsUser;
    if SomeItemHasUser(s, items, q.requester) {
      var it :| it in items && UserDecides(s, it.call, Stored(it, q.requester));
      UserDecidesIsSome(s, it.call, Stored(it, q.requester));
      var u :| IsUser(u) && Decides(s, it.call, Stored(it, q.requester), u);
      assert DecidesOn(s, q, u);
    }
    if u :| IsUser(u) && DecidesOn(s, q, u) {
      var it :| it in items && Decides(s, it.call, Stored(it, q.requester), u);
      UserDecidesIsSome(s, it.call, Stored(it, q.requester));
    }
  }

  ghost predicate SomeUserRefuses(w: World, r: nat) {
    exists u :: IsUser(u) && Refuses(w, r, u)
  }

  ghost predicate SomeUserAccepts(w: World, r: nat) {
    exists u :: IsUser(u) && Accepts(w, r, u)
  }

  /**
   * Some user can reject an open request if and only if all it is about exists and a slot that is read
   * for one of its calls holds a user.  Otherwise no user can sign it either, and its requester
   * withdrawing it is the only way out.
   */
  lemma UsersDecideExactly(w: World, r: nat)
    requires r < |w.requests| && w.requests[r].status == Proposed && Unsettled(w.requests[r])
    ensures SomeUserRefuses(w, r) <==> !Orphaned(w.sheet, w.requests[r]) && HasUserDecider(w.sheet, w.requests[r])
    ensures !SomeUserRefuses(w, r) ==> !SomeUserAccepts(w, r)
    ensures Step(w, Retract(r, w.requests[r].requester)).requests[r].status == Withdrawn
  {
    var q := w.requests[r];
    assert Step(w, Retract(r, q.requester)).requests[r].status == Withdrawn;
    hide *;
    HasUserDeciderIsSome(w.sheet, q);
    UserRefusals(w, r);
    UserSignatures(w, r);
  }

  lemma UserRefusals(w: World, r: nat)
    requires r < |w.requests| && w.requests[r].status == Proposed
    ensures SomeUserRefuses(w, r) <==>
            !Orphaned(w.sheet, w.requests[r]) && exists u :: IsUser(u) && DecidesOn(w.sheet, w.requests[r], u)
  {
    hide Refuses, DecidesOn, Orphaned, IsUser;
    forall u | IsUser(u)
      ensures Refuses(w, r, u) <==> !Orphaned(w.sheet, w.requests[r]) && DecidesOn(w.sheet, w.requests[r], u)
    {
      UserRefusesExactly(w, r, u);
    }
  }

  lemma UserSignatures(w: World, r: nat)
    requires r < |w.requests| && w.requests[r].status == Proposed && Unsettled(w.requests[r])
    ensures SomeUserAccepts(w, r) ==>
              !Orphaned(w.sheet, w.requests[r]) && exists u :: IsUser(u) && DecidesOn(w.sheet, w.requests[r], u)
  {
    hide Accepts, DecidesOn, Orphaned, IsUser, Unsettled;
    if u :| IsUser(u) && Accepts(w, r, u) {
      UserAcceptsOnlyDeciding(w, r, u);
      if Orphaned(w.sheet, w.requests[r]) { OrphansAreUndecidable(w, r, u); }
    }
  }

  // ----- over whole runs -----

  lemma NewRequestsUnsettled(w: World, a: Action, r: nat)
    requires |w.requests| <= r < |Step(w, a).requests|
    ensures Unsettled(Step(w, a).requests[r])
  {
    AtMostOneFiled(w, a);
    hide Handle, Authorize, Resolved, Itemize;
    if a.Suggest? && Step(w, a).requests[r].body.items != [] {
      var items := Itemize(w.sheet, a.calls, a.actor).value;
      assert items[0] in items;
      NewItemsUnsigned(w.sheet, a.calls, a.actor, items[0]);
    }
  }

  lemma ApprovalUnsettled(w: World, r: nat, actor: User)
    requires Approve(w, r, actor).Ok? && r < |w.requests|
    ensures Unsettled(Approve(w, r, actor).value.requests[r])
  {
    hide Handle, DecidersNow, SignItems, ReplayItems, AllSigned;
  }

  lemma StepKeepsUnsettled(w: World, a: Action, r: nat)
    requires r < |Step(w, a).requests| && (r < |w.requests| ==> Unsettled(w.requests[r]))
    ensures Unsettled(Step(w, a).requests[r])
  {
    if r < |w.requests| {
      RequestAfter(w, a, r);
      hide Step, Approve, Reject, AllSigned;
      if a.Accept? && a.req == r && Approve(w, r, a.actor).Ok? { ApprovalUnsettled(w, r, a.actor); }
    } else {
      NewRequestsUnsettled(w, a, r);
    }
  }

  lemma {:induction false} RunKeepsUnsettled(w: World, acts: seq<Action>, r: nat)
    requires w.requests == [] && r < |Run(w, acts).requests|
    ensures Unsettled(Run(w, acts).requests[r])
  {
    if acts != [] {
      hide Step, Unsettled;
      if r < |Run(w, acts[..|acts| - 1]).requests| { RunKeepsUnsettled(w, acts[..|acts| - 1], r); }
      StepKeepsUnsettled(Run(w, acts[..|acts| - 1]), acts[|acts| - 1], r);
    }
  }

  /** After any run, an open request can be decided by users, one way or the other, exactly as said above. */
  lemma {:induction false} OpenRequestsExitExactly(w: World, acts: seq<Action>, r: nat)
    requires w.requests == [] && r < |Run(w, acts).requests| && Run(w, acts).requests[r].status == Proposed
    ensures var z := Run(w, acts);
            SomeUserRefuses(z, r) || SomeUserAccepts(z, r) <==>
              !Orphaned(z.sheet, z.requests[r]) && HasUserDecider(z.sheet, z.requests[r])
  {
    hide *;
    RunKeepsUnsettled(w, acts, r);
    UsersDecideExactly(Run(w, acts), r);
  }

  /**
   * A column stored with roles alone: an update by anyone in no such role is filed, and then no user
   * can sign or reject it, though everything it is about exists.
   */
  lemma RolesFreezeUpdates(w: World, n: Id, c: Id, v: Value, u: User)
    requires c in w.sheet.cols && u !in ColumnApprovers(w.sheet, c)
    requires forall p :: p in OwnerAndEditors(w.sheet, c) ==> HasPrefix(p, "role:")
    ensures var r, z := |w.requests|, Step(w, Do(UpdateCell(n, c, v, None), u));
            && r < |z.requests| && z.requests[r].status == Proposed && z.sheet == w.sheet
            && !Orphaned(z.sheet, z.requests[r]) && !SomeUserRefuses(z, r) && !SomeUserAccepts(z, r)
  {
    UpdateIsFiled(w, n, c, v, u);
    hide ColumnApprovers, Step, SomeUserRefuses, SomeUserAccepts;
    var z := Step(w, Do(UpdateCell(n, c, v, None), u));
    assert w.sheet.cols[c].owner in OwnerAndEditors(w.sheet, c);
    assert forall p :: p in w.sheet.cols[c].editors ==> p in OwnerAndEditors(w.sheet, c);
    UsersDecideExactly(z, |w.requests|);
  }

  /** An update is filed and its column then dropped: the request is left about something gone. */
  lemma {:induction false} DroppedColumnOrphans(w: World, n: Id, c: Id, v: Value, u: User, d: User)
    requires c in w.sheet.cols && u !in ColumnApprovers(w.sheet, c)
    requires d in ColumnApprovers(w.sheet, c) && !w.sheet.ownersSuggest
    ensures var call, r := UpdateCell(n, c, v, None), |w.requests|;
            var z := Run(w, [Do(call, u), Do(DeleteColumn(c), d)]);
            && r < |z.requests| && z.requests[r].status == Proposed && call in Calls(z.requests[r].body)
            && Gone(z.sheet, call) && Drawn(z.sheet, call)
  {
    var call := UpdateCell(n, c, v, None);
    TwoSteps(w, Do(call, u), Do(DeleteColumn(c), d));
    UpdateIsFiled(w, n, c, v, u);
    hide Step, Run, ColumnApprovers;
    EntitledRuns(Step(w, Do(call, u)), DeleteColumn(c), d);
  }

  // ----- and they stay that way -----

  /** Every id the call is about was drawn from the counter. */
  ghost predicate Drawn(s: Sheet, call: Call) {
    match call
    case UpdateCell(_, c, _, _) => c < s.nextId
    case DeleteColumn(c) => c < s.nextId
    case GrantColumn(c, _, _) => c < s.nextId
    case AddNode(p, _) => p.Some? ==> p.value < s.nextId
    case DeleteNode(n) => n < s.nextId
    case DelegateBranch(b, _) => b < s.nextId
    case MoveNode(n, to) => n < s.nextId && (to.Some? ==> to.value < s.nextId)
    case RevokeDelegation(g) => g < |s.grants| ==> s.grants[g].root < s.nextId
    case SetColumnOrder(_) => true
    case AddColumn(_, _, _, _) => true
  }

  /** A call with an authority to route it to is about things that exist, so its ids were drawn. */
  lemma RoutedCallsExist(s: Sheet, call: Call, actor: User)
    requires Authorize(s, call, actor).Ok?
    ensures !Gone(s, call) && Drawn(s, call)
  {
    GoneIsUndecided(s, call, actor);
  }

  /** No column is stored with a mail domain as its owner or among its editors. */
  ghost predicate NoDomainApprover(s: Sheet) {
    forall c :: c in s.cols ==> !IsDomain(s.cols[c].owner) && forall p :: p in s.cols[c].editors ==> !IsDomain(p)
  }

  /** Nothing is revived, no grant changes its branch and no mail domain comes to approve. */
  ghost predicate Aged(s: Sheet, z: Sheet) {
    && s.nextId <= z.nextId && (NoDomainApprover(s) ==> NoDomainApprover(z))
    && (forall n: Id {:trigger NothingRevived(s, z, n, n)} :: n < s.nextId ==> NothingRevived(s, z, n, n))
    && |s.grants| <= |z.grants| && forall i :: 0 <= i < |s.grants| ==> z.grants[i].root == s.grants[i].root
  }

  lemma HandleAges(s: Sheet, call: Call, actor: User)
    requires Handle(s, call, actor).Ok?
    ensures Aged(s, Handle(s, call, actor).value)
  {
    hide Handle, NothingRevived;
    forall n: Id | n < s.nextId
      ensures NothingRevived(s, Handle(s, call, actor).value, n, n)
    {
      HandleKeeps(s, call, actor, n, n);
    }
    NumbersGrow(s, call, actor);
    GrantsKeepBranches(s, call, actor);
    if NoDomainApprover(s) { DomainsStayOut(s, call, actor); }
  }

  lemma DomainsStayOut(s: Sheet, call: Call, actor: User)
    requires Handle(s, call, actor).Ok? && NoDomainApprover(s)
    ensures NoDomainApprover(Handle(s, call, actor).value)
  {
    hide Below, SameMembers, NoDup, Inserted, Dropped, IsDomain, Resolve;
    HandlersKeepTheRest(s, call, actor);
  }

  lemma GrantsKeepBranches(s: Sheet, call: Call, actor: User)
    requires Handle(s, call, actor).Ok?
    ensures var z := Handle(s, call, actor).value;
            |s.grants| <= |z.grants| && forall i :: 0 <= i < |s.grants| ==> z.grants[i].root == s.grants[i].root
  {
    hide Below, SameMembers, NoDup;
    HandlersKeepTheRest(s, call, actor);
  }

  lemma {:induction false} WritesKeepCounter(s: Sheet, n: Id, values: seq<(Id, Value)>)
    requires WriteCells(s, n, values).Ok?
    ensures WriteCells(s, n, values).value.nextId == s.nextId
  {
    if values != [] { WritesKeepCounter(s, n, values[..|values| - 1]); }
  }

  lemma NumbersGrow(s: Sheet, call: Call, actor: User)
    requires Handle(s, call, actor).Ok?
    ensures s.nextId <= Handle(s, call, actor).value.nextId
  {
    hide Below, SameMembers, NoDup, WriteCells;
    if call.AddNode? && AtNode(s.forest, call.parent) {
      WritesKeepCounter(Grown(s, call.parent), s.nextId, call.values);
    }
  }

  lemma AgedTrans(s: Sheet, y: Sheet, z: Sheet)
    requires Aged(s, y) && Aged(y, z)
    ensures Aged(s, z)
  {
    forall n: Id | n < s.nextId
      ensures NothingRevived(s, z, n, n)
    {
      assert NothingRevived(s, y, n, n) && NothingRevived(y, z, n, n);
    }
  }

  lemma {:induction false} ReplayAges(s: Sheet, items: seq<Item>, requester: User, r: nat)
    requires ReplayItems(s, items, requester, r).Ok?
    ensures Aged(s, ReplayItems(s, items, requester, r).value.sheet)
  {
    if items != [] {
      var before, it := items[..|items| - 1], items[|items| - 1];
      var z := ReplayItems(s, before, requester, r).value.sheet;
      ReplayLast(s, items, requester, r);
      hide Handle, DecidersNow, Aged, ReplayItems;
      ReplayAges(s, before, requester, r);
      HandleAges(z, it.call, DecidersNow(z, it.call, Stored(it, requester)).value.approver);
      AgedTrans(s, z, ReplayItems(s, items, requester, r).value.sheet);
    }
  }

  lemma ApprovalAges(w: World, r: nat, actor: User)
    requires Approve(w, r, actor).Ok?
    ensures Aged(w.sheet, Approve(w, r, actor).value.sheet)
  {
    var q := w.requests[r];
    assert Aged(w.sheet, w.sheet);
    hide Handle, DecidersNow, Aged, ReplayItems;
    match q.body {
      case Single(call, approver, _) =>
        if Handle(w.sheet, call, DecidersNow(w.sheet, call, approver).value.approver).Ok? {
          HandleAges(w.sheet, call, DecidersNow(w.sheet, call, approver).value.approver);
        }
      case Batch(items) =>
        var signed := SignItems(w.sheet, items, q.requester, actor).value;
        if ReplayItems(w.sheet, signed, q.requester, r).Ok? { ReplayAges(w.sheet, signed, q.requester, r); }
    }
  }

  lemma ExecuteAges(w: World, call: Call, actor: User)
    requires Execute(w, call, actor).Ok?
    ensures Aged(w.sheet, Execute(w, call, actor).value.sheet)
  {
    assert Aged(w.sheet, w.sheet);
    hide Handle, Aged, Authorize, Resolved;
    var ready := Resolved(w.sheet, call).value;
    if Handle(w.sheet, ready, actor).Ok? { HandleAges(w.sheet, ready, actor); }
  }

  lemma StepAges(w: World, a: Action)
    ensures Aged(w.sheet, Step(w, a).sheet)
  {
    assert Aged(w.sheet, w.sheet);
    if Attempt(w, a).Ok? {
      match a {
        case Do(call, actor) => hide Aged, Execute; ExecuteAges(w, call, actor);
        case Accept(r, actor) => hide Aged, Approve; ApprovalAges(w, r, actor);
        case Suggest(_, _) =>
        case Refuse(_, _) =>
        case Retract(_, _) =>
        case AssignRoles(roles) => assert Step(w, a).sheet == w.sheet.(roles := roles);
      }
    }
  }

  lemma GoneStaysGone(s: Sheet, z: Sheet, call: Call)
    requires Aged(s, z) && Gone(s, call) && Drawn(s, call)
    ensures Gone(z, call) && Drawn(z, call)
  {
    forall n: Id | n < s.nextId
      ensures n in z.forest.par ==> n in s.forest.par
      ensures n in z.cols ==> n in s.cols
    {
      assert NothingRevived(s, z, n, n);
    }
  }

  lemma {:induction false} RunStaysGone(w: World, acts: seq<Action>, call: Call)
    requires Gone(w.sheet, call) && Drawn(w.sheet, call)
    ensures Gone(Run(w, acts).sheet, call) && Drawn(Run(w, acts).sheet, call)
  {
    if acts != [] {
      hide Gone, Drawn, Aged, Step;
      var z := Run(w, acts[..|acts| - 1]);
      RunStaysGone(w, acts[..|acts| - 1], call);
      StepAges(z, acts[|acts| - 1]);
      GoneStaysGone(z.sheet, Run(w, acts).sheet, call);
    }
  }

  /** In every run on a sheet whose columns name no mail domain as owner or editor, none ever does. */
  lemma {:induction false} RunKeepsDomainsOut(w: World, acts: seq<Action>)
    requires NoDomainApprover(w.sheet)
    ensures NoDomainApprover(Run(w, acts).sheet)
  {
    if acts != [] {
      hide NoDomainApprover, Step;
      RunKeepsDomainsOut(w, acts[..|acts| - 1]);
      StepAges(Run(w, acts[..|acts| - 1]), acts[|acts| - 1]);
    }
  }

  /** Once any call of an open request is about something gone, every run leaves the request open or withdrawn. */
  lemma {:induction false} OrphansStayOpen(w: World, acts: seq<Action>, r: nat, call: Call)
    requires r < |w.requests| && w.requests[r].status == Proposed
    requires call in Calls(w.requests[r].body) && Gone(w.sheet, call) && Drawn(w.sheet, call)
    ensures r < |Run(w, acts).requests| && Run(w, acts).requests[r].status in {Proposed, Withdrawn}
    ensures call in Calls(Run(w, acts).requests[r].body)
  {
    if acts != [] {
      hide Step, Gone, Drawn, Calls;
      var before, a := acts[..|acts| - 1], acts[|acts| - 1];
      OrphansStayOpen(w, before, r, call);
      RunStaysGone(w, before, call);
      OrphanStep(Run(w, before), a, r, call);
    }
  }

  lemma OrphanStep(w: World, a: Action, r: nat, call: Call)
    requires r < |w.requests| && w.requests[r].status in {Proposed, Withdrawn}
    requires call in Calls(w.requests[r].body) && Gone(w.sheet, call)
    ensures r < |Step(w, a).requests| && Step(w, a).requests[r].status in {Proposed, Withdrawn}
    ensures call in Calls(Step(w, a).requests[r].body)
  {
    hide *;
    CallsStay(w, a, r);
    CallGoneOrphans(w.sheet, w.requests[r], call);
    if w.requests[r].status == Proposed {
      match Step(w, a).requests[r].status
      case Proposed | Withdrawn =>
      case Approved | Rejected =>
        OnlyDecidersClose(w, a, r);
        OrphansAreUndecidable(w, r, a.actor);
    }
  }

  lemma CallsStay(w: World, a: Action, r: nat)
    requires r < |w.requests|
    ensures r < |Step(w, a).requests| && Calls(Step(w, a).requests[r].body) == Calls(w.requests[r].body)
    ensures w.requests[r].status != Proposed ==> Step(w, a).requests[r].status == w.requests[r].status
  {
    StepGrows(w, a);
    assert Follows(w.requests[r], Step(w, a).requests[r]);
    hide Step, Calls;
  }

  lemma CallGoneOrphans(s: Sheet, q: Request, call: Call)
    requires call in Calls(q.body) && Gone(s, call)
    ensures Orphaned(s, q)
  {
    hide Gone;
    if q.body.Batch? {
      var i :| 0 <= i < |q.body.items| && q.body.items[i].call == call;
      assert q.body.items[i] in q.body.items;
    }
  }

  lemma OnlyDecidersClose(w: World, a: Action, r: nat)
    requires r < |w.requests| && r < |Step(w, a).requests|
    requires w.requests[r].status == Proposed && Step(w, a).requests[r].status in {Approved, Rejected}
    ensures (a.Accept? && Accepts(w, r, a.actor)) || (a.Refuse? && Refuses(w, r, a.actor))
  {
    RequestAfter(w, a, r);
    hide Approve, Reject, Step;
  }
}
