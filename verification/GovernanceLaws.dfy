/** What every run of the mutate-or-suggest server keeps. */
module GovernanceLaws {
  import opened Common
  import opened Forests
  import opened ForestEdits
  import opened TreeRepository
  import opened Authority
  import opened Governance

  // ----- the life of a request -----

  function Calls(b: Body): (r: seq<Call>) {
    match b
    case Single(call, _, _) => [call]
    case Batch(items) => seq(|items|, i requires 0 <= i < |items| => items[i].call)
  }

  /** What the log says about request `r`, oldest first. */
  function Trail(log: seq<Event>, r: nat): seq<Mark> {
    if log == [] then []
    else Trail(log[..|log| - 1], r) + if log[|log| - 1].request == Some(r) then [log[|log| - 1].mark] else []
  }

  function RanAll(calls: seq<Call>): seq<Mark> {
    seq(|calls|, i requires 0 <= i < |calls| => Ran(calls[i]))
  }

  /** The only trail a request in this state may have left. */
  function Story(q: Request): seq<Mark> {
    [Filed] + (if q.status == Approved then RanAll(Calls(q.body)) else []) +
      (if q.status == Proposed then [] else [Decided(q.status)])
  }

  function StoryAt(requests: seq<Request>, r: nat): seq<Mark> {
    if r < |requests| then Story(requests[r]) else []
  }

  ghost predicate Told(w: World) {
    forall r: nat :: Trail(w.log, r) == StoryAt(w.requests, r)
  }

  lemma {:induction false} TrailConcat(a: seq<Event>, b: seq<Event>, r: nat)
    ensures Trail(a + b, r) == Trail(a, r) + Trail(b, r)
  {
    if b == [] {
      assert a + b == a;
    } else {
      assert (a + b)[..|a + b| - 1] == a + b[..|b| - 1];
      TrailConcat(a, b[..|b| - 1], r);
    }
  }

  lemma {:induction false} TrailOne(e: Event, r: nat)
    ensures Trail([e], r) == if e.request == Some(r) then [e.mark] else []
  {
    assert [e][..0] == [];
    assert Trail([], r) == [];
  }

  lemma {:induction false} SigningKeepsCalls(s: Sheet, items: seq<Item>, requester: User, actor: User)
    requires SignItems(s, items, requester, actor).Ok?
    ensures |SignItems(s, items, requester, actor).value| == |items|
    ensures Calls(Batch(SignItems(s, items, requester, actor).value)) == Calls(Batch(items))
  {
    if items != [] {
      SigningKeepsCalls(s, items[..|items| - 1], requester, actor);
      CallsSnoc(items);
      CallsSnoc(SignItems(s, items, requester, actor).value);
    }
  }

  lemma CallsSnoc(items: seq<Item>)
    requires items != []
    ensures Calls(Batch(items)) == Calls(Batch(items[..|items| - 1])) + [items[|items| - 1].call]
  {
  }

  lemma RanSnoc(calls: seq<Call>, c: Call)
    ensures RanAll(calls + [c]) == RanAll(calls) + [Ran(c)]
  {
  }

  /** A replay ends with its last item, run as whoever decides about it once the others have run. */
  lemma {:induction false} ReplayLast(s: Sheet, items: seq<Item>, requester: User, r: nat)
    requires items != [] && ReplayItems(s, items, requester, r).Ok?
    ensures var front, it := ReplayItems(s, items[..|items| - 1], requester, r), items[|items| - 1];
            && front.Ok? && DecidersNow(front.value.sheet, it.call, Stored(it, requester)).Ok?
            && var u := DecidersNow(front.value.sheet, it.call, Stored(it, requester)).value.approver;
            && Handle(front.value.sheet, it.call, u).Ok?
            && ReplayItems(s, items, requester, r).value
               == Replayed(Handle(front.value.sheet, it.call, u).value,
                           front.value.ran + [Event(Ran(it.call), Some(r), u)])
  {
    hide Handle, DecidersNow;
  }

  /** A replay runs the items' calls, in order, and nothing else. */
  lemma {:induction false} ReplayRuns(s: Sheet, items: seq<Item>, requester: User, r: nat, k: nat)
    requires ReplayItems(s, items, requester, r).Ok?
    ensures Trail(ReplayItems(s, items, requester, r).value.ran, k) ==
            if k == r then RanAll(Calls(Batch(items))) else []
  {
    if items == [] {
      assert Calls(Batch(items)) == [];
    } else {
      ReplayLast(s, items, requester, r);
      hide *;
      var before, it := items[..|items| - 1], items[|items| - 1];
      var z := ReplayItems(s, before, requester, r).value;
      var e := Event(Ran(it.call), Some(r), DecidersNow(z.sheet, it.call, Stored(it, requester)).value.approver);
      ReplayRuns(s, before, requester, r, k);
      CallsSnoc(items);
      RanSnoc(Calls(Batch(before)), it.call);
      TrailConcat(z.ran, [e], k);
      TrailOne(e, k);
    }
  }

  /** The events `ran` tell of request `r` alone, that it ran these calls. */
  ghost predicate RunsOnly(ran: seq<Event>, r: nat, calls: seq<Call>) {
    forall k: nat :: Trail(ran, k) == if k == r then RanAll(calls) else []
  }

  /** The same calls, asked for in the same way. */
  predicate SameAsk(a: Body, b: Body) {
    Calls(a) == Calls(b) && (a.Single? <==> b.Single?)
  }

  lemma SingleShape(w: World, r: nat, actor: User) returns (body: Body, s: Sheet, ran: seq<Event>)
    requires r < |w.requests| && w.requests[r].body.Single? && ApproveSingle(w, r, actor).Ok?
    ensures SameAsk(body, w.requests[r].body)
    ensures || ApproveSingle(w, r, actor).value == Pending(w, r, body)
            || (ApproveSingle(w, r, actor).value == Finish(w, s, r, body, Approved, ran, actor) &&
              RunsOnly(ran, r, Calls(body)))
  {
    var b := w.requests[r].body;
    var now := DecidersNow(w.sheet, b.call, b.approver).value;
    body := Single(b.call, now.approver, b.approvals + {actor});
    s := if Handle(w.sheet, b.call, now.approver).Ok? then Handle(w.sheet, b.call, now.approver).value else w.sheet;
    ran := [Event(Ran(b.call), Some(r), now.approver)];
    forall k: nat ensures Trail(ran, k) == if k == r then RanAll(Calls(body)) else [] { TrailOne(ran[0], k); }
  }

  lemma BatchShape(w: World, r: nat, actor: User) returns (body: Body, s: Sheet, ran: seq<Event>)
    requires r < |w.requests| && w.requests[r].body.Batch? && ApproveBatch(w, r, actor).Ok?
    ensures SameAsk(body, w.requests[r].body)
    ensures || ApproveBatch(w, r, actor).value == Pending(w, r, body)
            || (ApproveBatch(w, r, actor).value == Finish(w, s, r, body, Approved, ran, actor) &&
              RunsOnly(ran, r, Calls(body)))
  {
    var q := w.requests[r];
    var signed := SignItems(w.sheet, q.body.items, q.requester, actor).value;
    SigningKeepsCalls(w.sheet, q.body.items, q.requester, actor);
    body := Batch(signed);
    if AllSigned(signed) {
      var z := ReplayItems(w.sheet, signed, q.requester, r).value;
      s, ran := z.sheet, z.ran;
      forall k: nat
        ensures Trail(ran, k) == if k == r then RanAll(Calls(body)) else []
      {
        ReplayRuns(w.sheet, signed, q.requester, r, k);
      }
    } else {
      s, ran := w.sheet, [];
    }
  }

  /** An approval either only adds signatures, or signs and replays exactly the stored calls. */
  lemma ApprovalShape(w: World, r: nat, actor: User) returns (body: Body, s: Sheet, ran: seq<Event>)
    requires Approve(w, r, actor).Ok?
    ensures r < |w.requests| && w.requests[r].status == Proposed && SameAsk(body, w.requests[r].body)
    ensures || Approve(w, r, actor).value == Pending(w, r, body)
            || (Approve(w, r, actor).value == Finish(w, s, r, body, Approved, ran, actor) &&
              RunsOnly(ran, r, Calls(body)))
  {
    if w.requests[r].body.Single? {
      body, s, ran := SingleShape(w, r, actor);
    } else {
      body, s, ran := BatchShape(w, r, actor);
    }
  }

  /** What one step can do to the log and the requests. */
  datatype Shape =
    | Quiet
    | Direct(call: Call, actor: User)
    | Filing(body: Body, actor: User)
    | Signing(r: nat, body: Body)
    | Closing(r: nat, body: Body, status: Status, ran: seq<Event>, actor: User)

  ghost predicate Fits(w: World, z: World, shape: Shape) {
    match shape
    case Quiet => z.requests == w.requests && z.log == w.log
    case Direct(call, u) => z.requests == w.requests && z.log == w.log + [Event(Ran(call), None, u)]
    case Filing(body, u) => z == File(w, body, u)
    case Signing(r, body) => OpenAsk(w, r, body) && z == Pending(w, r, body)
    case Closing(r, body, status, ran, u) =>
      && OpenAsk(w, r, body) && status != Proposed && z == Finish(w, z.sheet, r, body, status, ran, u)
      && RunsOnly(ran, r, if status == Approved then Calls(body) else [])
  }

  /** Request `r` is still open and asks for the calls of `body`. */
  ghost predicate OpenAsk(w: World, r: nat, body: Body) {
    r < |w.requests| && w.requests[r].status == Proposed && SameAsk(body, w.requests[r].body)
  }

  lemma NothingRan()
    ensures forall r: nat :: RunsOnly([], r, [])
  {
  }

  lemma StepShape(w: World, a: Action) returns (shape: Shape)
    ensures Fits(w, Step(w, a), shape)
  {
    hide Handle, DecidersNow, Authorize, Resolved, Itemize, Approve, AllowedOn, Calls, Trail, RanAll;
    NothingRan();
    if Attempt(w, a).Err? || a.AssignRoles? { return Quiet; }
    match a {
      case Do(call, u) =>
        var ready := Resolved(w.sheet, call).value;
        var auth := Authorize(w.sheet, ready, u).value;
        shape := if auth.ok && !MustSuggest(w.sheet, ready) then Direct(ready, u)
          else Filing(Single(ready, auth.approver, {}), u);
      case Suggest(calls, u) => shape := Filing(Batch(Itemize(w.sheet, calls, u).value), u);
      case Accept(r, u) =>
        var body, s, ran := ApprovalShape(w, r, u);
        shape := if Step(w, a) == Pending(w, r, body) then Signing(r, body) else Closing(r, body, Approved, ran, u);
      case Refuse(r, u) => shape := Closing(r, w.requests[r].body, Rejected, [], u);
      case Retract(r, u) => shape := Closing(r, w.requests[r].body, Withdrawn, [], u);
    }
  }

  lemma {:induction false} ClosingTells(w: World, s: Sheet, r: nat, body: Body, status: Status, ran: seq<Event>,
                                        u: User, k: nat)
    requires OpenAsk(w, r, body) && status != Proposed &&
             RunsOnly(ran, r, if status == Approved then Calls(body) else [])
    requires Trail(w.log, k) == StoryAt(w.requests, k)
    ensures Trail(Finish(w, s, r, body, status, ran, u).log, k) ==
            StoryAt(Finish(w, s, r, body, status, ran, u).requests, k)
  {
    hide Trail, Calls, RanAll;
    var last := Event(Decided(status), Some(r), u);
    TrailConcat(w.log + ran, [last], k);
    TrailConcat(w.log, ran, k);
    TrailOne(last, k);
    assert RanAll([]) == [] by { RanNothing(); }
  }

  lemma RanNothing()
    ensures RanAll([]) == []
  {
  }

  lemma {:induction false} FilingTells(w: World, body: Body, u: User, k: nat)
    requires Trail(w.log, k) == StoryAt(w.requests, k)
    ensures Trail(File(w, body, u).log, k) == StoryAt(File(w, body, u).requests, k)
  {
    hide Trail, Calls, RanAll;
    TrailConcat(w.log, [Event(Filed, Some(|w.requests|), u)], k);
    TrailOne(Event(Filed, Some(|w.requests|), u), k);
  }

  lemma {:induction false} SigningTells(w: World, r: nat, body: Body, k: nat)
    requires OpenAsk(w, r, body) && Trail(w.log, k) == StoryAt(w.requests, k)
    ensures Trail(Pending(w, r, body).log, k) == StoryAt(Pending(w, r, body).requests, k)
  {
    hide Trail, Calls, RanAll;
  }

  lemma {:induction false} ShapeTells(w: World, z: World, shape: Shape, k: nat)
    requires Fits(w, z, shape) && Trail(w.log, k) == StoryAt(w.requests, k)
    ensures Trail(z.log, k) == StoryAt(z.requests, k)
  {
    hide Story, Calls, RanAll;
    match shape {
      case Quiet =>
      case Direct(call, u) =>
        hide Trail;
        TrailConcat(w.log, [Event(Ran(call), None, u)], k);
        TrailOne(Event(Ran(call), None, u), k);
      case Filing(body, u) => FilingTells(w, body, u, k);
      case Signing(r, body) => SigningTells(w, r, body, k);
      case Closing(r, body, status, ran, u) => ClosingTells(w, z.sheet, r, body, status, ran, u, k);
    }
  }

  lemma StepTells(w: World, a: Action)
    requires Told(w)
    ensures Told(Step(w, a))
  {
    var shape := StepShape(w, a);
    forall k: nat
      ensures Trail(Step(w, a).log, k) == StoryAt(Step(w, a).requests, k)
    {
      ShapeTells(w, Step(w, a), shape, k);
    }
  }

  /**
   * In every run the log tells each request's story exactly: filed once, replayed once in the
   * order stored if and only if approved, decided at most once, and nothing after that.
   */
  lemma {:induction false} EveryRunIsTold(w: World, acts: seq<Action>)
    requires w.requests == [] && w.log == []
    ensures Told(Run(w, acts))
  {
    if acts == [] {
      forall r: nat ensures Trail(w.log, r) == [] { }
    } else {
      EveryRunIsTold(w, acts[..|acts| - 1]);
      StepTells(Run(w, acts[..|acts| - 1]), acts[|acts| - 1]);
    }
  }

  /** How one request may change: never its requester or its calls, and nothing once it is decided. */
  ghost predicate Follows(old_: Request, new_: Request) {
    && new_.requester == old_.requester && SameAsk(new_.body, old_.body)
    && (old_.status != Proposed ==> new_ == old_)
  }

  ghost predicate Grows(w: World, z: World) {
    && |w.requests| <= |z.requests| && w.log <= z.log
    && forall r {:trigger Follows(w.requests[r], z.requests[r])} :: 0 <= r < |w.requests| ==>
        Follows(w.requests[r], z.requests[r])
  }

  /** Only a call or a suggestion files a request, and at most one. */
  lemma AtMostOneFiled(w: World, a: Action)
    ensures |w.requests| <= |Step(w, a).requests| <= |w.requests| + 1
    ensures |Step(w, a).requests| == |w.requests| + 1 ==> (a.Do? || a.Suggest?) && Attempt(w, a).Ok?
  {
    hide Handle, DecidersNow, SignItems, ReplayItems, Authorize, Resolved, Itemize, AllowedOn, Calls, RunsOnly;
    if Attempt(w, a).Ok? {
      match a {
        case Do(call, u) =>
        case Suggest(calls, u) =>
        case Accept(k, u) =>
          var body, s, ran := ApprovalShape(w, k, u);
          hide Approve;
        case Refuse(k, u) =>
        case Retract(k, u) =>
        case AssignRoles(roles) =>
      }
    }
  }

  /** What one step can do to one request that is already there. */
  lemma RequestAfter(w: World, a: Action, r: nat)
    requires r < |w.requests|
    ensures var z := Step(w, a);
            && r < |z.requests|
            && (|| z.requests[r] == w.requests[r]
                || (a.Accept? && a.req == r && Approve(w, r, a.actor) == Ok(z))
                || (a.Refuse? && a.req == r && Reject(w, r, a.actor) == Ok(z) &&
                  z.requests[r] == w.requests[r].(status := Rejected))
                || (a.Retract? && a.req == r && z.requests[r] == w.requests[r].(status := Withdrawn)))
  {
    hide Handle, DecidersNow, SignItems, ReplayItems, Authorize, Resolved, Itemize, AllowedOn, Calls, RunsOnly;
    if Attempt(w, a).Ok? {
      match a {
        case Do(call, u) =>
        case Suggest(calls, u) =>
        case Accept(k, u) =>
          var body, s, ran := ApprovalShape(w, k, u);
          hide Approve;
        case Refuse(k, u) =>
        case Retract(k, u) =>
        case AssignRoles(roles) =>
      }
    }
  }

  lemma StepGrows(w: World, a: Action)
    ensures Grows(w, Step(w, a))
  {
    var shape := StepShape(w, a);
    hide Step, RunsOnly;
    ShapeGrows(w, Step(w, a), shape);
  }

  lemma ShapeGrows(w: World, z: World, shape: Shape)
    requires Fits(w, z, shape)
    ensures Grows(w, z)
  {
    hide RunsOnly, Calls;
    forall r | 0 <= r < |w.requests|
      ensures Follows(w.requests[r], z.requests[r])
    {
      assert SameAsk(w.requests[r].body, w.requests[r].body);
    }
  }

  lemma GrowsTrans(w: World, x: World, z: World)
    requires Grows(w, x) && Grows(x, z)
    ensures Grows(w, z)
  {
    forall r | 0 <= r < |w.requests|
      ensures Follows(w.requests[r], z.requests[r])
    {
      assert Follows(w.requests[r], x.requests[r]) && Follows(x.requests[r], z.requests[r]);
    }
  }

  /** Between any two points of a run requests are only added, and each only moves forward. */
  lemma {:induction false} RunGrows(w: World, acts: seq<Action>, i: nat)
    requires i <= |acts|
    ensures Grows(Run(w, acts[..i]), Run(w, acts))
  {
    if i == |acts| {
      assert acts[..i] == acts;
      var z := Run(w, acts);
      forall r | 0 <= r < |z.requests|
        ensures Follows(z.requests[r], z.requests[r])
      {
      }
    } else {
      var rest := acts[..|acts| - 1];
      assert rest[..i] == acts[..i];
      RunGrows(w, rest, i);
      StepGrows(Run(w, rest), acts[|acts| - 1]);
      GrowsTrans(Run(w, acts[..i]), Run(w, rest), Run(w, acts));
    }
  }

  // ----- who must agree -----

  /** A single move request: both branch owners of the moment, destination and source. */
  ghost predicate BranchOwners(s: Sheet, n: Id, to: Option<Id>, dest: User, src: User) {
    && n in s.forest.par && AtNode(s.forest, to)
    && dest == StructuralApprover(s.forest, s.grants, s.owner, to)
    && AtNode(s.forest, s.forest.par[n]) && src == StructuralApprover(s.forest, s.grants, s.owner, s.forest.par[n])
  }

  /** The state after one attempt to approve request `r`. */
  ghost function AfterAccept(w: World, r: nat, actor: User): (z: World)
    requires r < |w.requests|
    ensures r < |z.requests|
  {
    StepGrows(w, Accept(r, actor));
    Step(w, Accept(r, actor))
  }

  /**
   * A single move request is carried out exactly when the last of the two current branch owners
   * signs and the move itself is possible; everything else leaves the sheet alone.
   */
  lemma MoveNeedsBothEnds(w: World, r: nat, actor: User, dest: User, src: User)
    requires r < |w.requests| && w.requests[r].status == Proposed
    requires w.requests[r].body.Single? && w.requests[r].body.call.MoveNode?
    requires BranchOwners(w.sheet, w.requests[r].body.call.node, w.requests[r].body.call.to, dest, src)
    ensures var b, z := w.requests[r].body, AfterAccept(w, r, actor);
            && (z.requests[r].status == Approved <==>
                  && actor in {dest, src} && {dest, src} <= b.approvals + {actor}
                  && MoveError(w.sheet.forest, b.call.node, b.call.to, None).None?)
            && (z.requests[r].status == Approved ==> z.sheet.forest == Moved(w.sheet.forest, b.call.node, b.call.to))
            && (z.requests[r].status == Proposed ==> z.sheet == w.sheet)
            && (z.requests[r].status == Proposed && actor in {dest, src} && !({dest, src} <= b.approvals + {actor}) ==>
                  z.requests[r].body.Single? && z.requests[r].body.approvals == b.approvals + {actor})
  {
    assert AfterAccept(w, r, actor) == Step(w, Accept(r, actor));
    hide *;
    var b := w.requests[r].body;
    MoveDeciders(w.sheet, b.call.node, b.call.to, b.approver, dest, src);
    MoveHandled(w.sheet, b.call.node, b.call.to, dest);
    assert b.call == MoveNode(b.call.node, b.call.to);
    BothSigned(dest, src, actor, b.approvals);
    SingleOutcome(w, r, actor);
  }

  lemma BothSigned(dest: User, src: User, actor: User, signed: set<User>)
    ensures var co := if src == dest then {} else {src};
            actor in {dest, src} ==>
              ((co == {} || {dest} + co <= signed + {actor}) <==> {dest, src} <= signed + {actor})
  {
    assert {dest} + (if src == dest then {} else {src}) == {dest, src};
  }

  /** What one signature does to a single request whose deciders are known. */
  lemma SingleOutcome(w: World, r: nat, actor: User)
    requires r < |w.requests| && w.requests[r].status == Proposed && w.requests[r].body.Single?
    requires DecidersNow(w.sheet, w.requests[r].body.call, w.requests[r].body.approver).Ok?
    ensures var b, z := w.requests[r].body, Step(w, Accept(r, actor));
            var now := DecidersNow(w.sheet, b.call, b.approver).value;
            var enough := now.co == {} || {now.approver} + now.co <= b.approvals + {actor};
            var ran := Handle(w.sheet, b.call, now.approver);
            && r < |z.requests|
            && (actor !in now.allowed || (enough && ran.Err?) ==> z == w)
            && (actor in now.allowed && !enough ==>
                  z.sheet == w.sheet
                  && z.requests[r] == w.requests[r].(body := Single(b.call, now.approver, b.approvals + {actor})))
            && (actor in now.allowed && enough && ran.Ok? ==> z.sheet == ran.value && z.requests[r].status == Approved)
  {
    hide DecidersNow, Handle;
  }

  /** Both branch owners decide about a move, and each is needed when they differ. */
  lemma MoveDeciders(s: Sheet, n: Id, to: Option<Id>, stored: User, dest: User, src: User)
    requires BranchOwners(s, n, to, dest, src)
    ensures DecidersNow(s, MoveNode(n, to), stored) ==
            Ok(Deciders(dest, if src == dest then {} else {src}, {dest, src}))
  {
    hide StructuralApprover;
    assert {dest} + (if src == dest then {} else {src}) + {} == {dest, src};
  }

  lemma {:induction false} MoveHandled(s: Sheet, n: Id, to: Option<Id>, actor: User)
    ensures Handle(s, MoveNode(n, to), actor).Ok? <==> MoveError(s.forest, n, to, None).None?
    ensures Handle(s, MoveNode(n, to), actor).Ok? ==>
              n in s.forest.par && AtNode(s.forest, to) && (to.Some? ==> !Anc(s.forest, n, to.value))
              && Handle(s, MoveNode(n, to), actor).value.forest == Moved(s.forest, n, to)
  {
    hide Moved, Anc;
  }
}
