/** The executor and the request state machine, as they update the stored sheet, requests and event log. */
module GovernanceServer {
  import opened Common
  import opened Columns
  import opened Governance

  /** Whether the server did what the step says: the whole new state, or a refusal and no change. */
  predicate Answers(step: Result<World, Refusal>, before: World, after: World, refused: Option<Refusal>) {
    match step
    case Ok(z) => refused == None && after == z
    case Err(e) => refused == Some(e) && after == before
  }

  /** One more call of a batch turns into an item, or refuses the batch. */
  lemma {:induction false} ItemizeNext(s: Sheet, calls: seq<Call>, i: nat, actor: User)
    requires i < |calls| && Itemize(s, calls[..i], actor).Ok?
    ensures Itemize(s, calls[..i + 1], actor) == Snoc(Itemize(s, calls[..i], actor).value, ItemFor(s, calls[i], actor))
  {
    assert calls[..i + 1][..i] == calls[..i];
  }

  lemma {:induction false} ItemizeFails(s: Sheet, calls: seq<Call>, i: nat, actor: User)
    requires i <= |calls| && Itemize(s, calls[..i], actor).Err?
    ensures Itemize(s, calls, actor) == Err(Itemize(s, calls[..i], actor).error)
    decreases |calls| - i
  {
    if i == |calls| {
      assert calls[..i] == calls;
    } else {
      assert calls[..i + 1][..i] == calls[..i];
      ItemizeFails(s, calls, i + 1, actor);
    }
  }

  lemma NothingSigned(items: seq<Item>)
    ensures SameSignatures(items, [])
  {
  }

  lemma SignaturesNext(items: seq<Item>, done: seq<Item>, it: Item)
    requires |done| < |items|
    ensures SameSignatures(items, done + [it]) <==>
            SameSignatures(items, done) && it.approvedBy == items[|done|].approvedBy
  {
    var more := done + [it];
    assert more[|done|] == it && forall j :: 0 <= j < |done| ==> more[j] == done[j];
  }

  lemma {:induction false} SignNext(s: Sheet, items: seq<Item>, i: nat, requester: User, actor: User)
    requires i < |items| && SignItems(s, items[..i], requester, actor).Ok?
    ensures SignItems(s, items[..i + 1], requester, actor) ==
            Snoc(SignItems(s, items[..i], requester, actor).value, SignItem(s, items[i], requester, actor))
  {
    assert items[..i + 1][..i] == items[..i];
  }

  lemma {:induction false} SignFails(s: Sheet, items: seq<Item>, i: nat, requester: User, actor: User)
    requires i <= |items| && SignItems(s, items[..i], requester, actor).Err?
    ensures SignItems(s, items, requester, actor) == Err(SignItems(s, items[..i], requester, actor).error)
    decreases |items| - i
  {
    if i == |items| {
      assert items[..i] == items;
    } else {
      assert items[..i + 1][..i] == items[..i];
      SignFails(s, items, i + 1, requester, actor);
    }
  }

  lemma {:induction false} EmptyReplay(s: Sheet, requester: User, r: nat)
    ensures ReplayItems(s, [], requester, r) == Ok(Replayed(s, []))
  {
  }

  lemma {:induction false} ReplayNext(s: Sheet, items: seq<Item>, i: nat, requester: User, r: nat)
    requires i < |items| && ReplayItems(s, items[..i], requester, r).Ok?
    ensures ReplayItems(s, items[..i + 1], requester, r) ==
            ReplayItem(ReplayItems(s, items[..i], requester, r).value, items[i], requester, r)
  {
    assert items[..i + 1][..i] == items[..i];
  }

  lemma {:induction false} ReplayFails(s: Sheet, items: seq<Item>, i: nat, requester: User, r: nat)
    requires i <= |items| && ReplayItems(s, items[..i], requester, r).Err?
    ensures ReplayItems(s, items, requester, r) == Err(ReplayItems(s, items[..i], requester, r).error)
    decreases |items| - i
  {
    if i == |items| {
      assert items[..i] == items;
    } else {
      assert items[..i + 1][..i] == items[..i];
      ReplayFails(s, items, i + 1, requester, r);
    }
  }

  lemma {:induction false} AllowedNext(s: Sheet, items: seq<Item>, i: nat, requester: User)
    requires i < |items| && AllowedOnItems(s, items[..i], requester).Ok?
    ensures AllowedOnItems(s, items[..i + 1], requester) ==
            Join(AllowedOnItems(s, items[..i], requester).value,
              DecidersNow(s, items[i].call, Stored(items[i], requester)))
  {
    assert items[..i + 1][..i] == items[..i];
  }

  lemma {:induction false} AllowedFails(s: Sheet, items: seq<Item>, i: nat, requester: User)
    requires i <= |items| && AllowedOnItems(s, items[..i], requester).Err?
    ensures AllowedOnItems(s, items, requester) == Err(AllowedOnItems(s, items[..i], requester).error)
    decreases |items| - i
  {
    if i == |items| {
      assert items[..i] == items;
    } else {
      assert items[..i + 1][..i] == items[..i];
      AllowedFails(s, items, i + 1, requester);
    }
  }

  /** The pre-pass over the stored columns finds the resolved order, or there is none. */
  lemma OrderResolution(s: Sheet, order: seq<Id>, r: Result<seq<Id>, ColumnError>)
    requires r.Ok? ==> CompleteOrder(s.colOrder, s.labels, r.value) && Spells(s.colOrder, s.field, order, r.value)
    requires r.Err? ==>
               forall ids :: Spells(s.colOrder, s.field, order, ids) ==> !CompleteOrder(s.colOrder, s.labels, ids)
    ensures ResolvedOrder(s, order) == if r.Ok? then Some(r.value) else None
  {
    hide CompleteOrder, Resolve;
    var found := ResolveAll(s.colOrder, s.field, order);
    if forall i :: 0 <= i < |found| ==> found[i].Some? {
      var ids := seq(|found|, i requires 0 <= i < |found| => match found[i] case Some(c) => c case None => 0);
      assert Spells(s.colOrder, s.field, order, ids);
      if r.Ok? { assert ids == r.value; }
    } else {
      var i :| 0 <= i < |found| && found[i].None?;
      assert Resolve(s.colOrder, s.field, order[i]) == found[i];
    }
  }

  class Server {
    var sheet: Sheet
    var requests: seq<Request>
    var log: seq<Event>

    function State(): World
      reads this
    {
      World(sheet, requests, log)
    }

    constructor (s: Sheet)
      ensures State() == World(s, [], [])
    {
      sheet, requests, log := s, [], [];
    }

    /** Run the handler and record what ran; `source` is the request being replayed, if any. */
    method RunAndEmit(call: Call, source: Option<nat>, actor: User) returns (refused: Option<Refusal>)
      modifies this`sheet, this`log
      ensures match Handle(old(sheet), call, actor)
              case Ok(s) => refused == None && sheet == s && log == old(log) + [Event(Ran(call), source, actor)]
              case Err(e) => refused == Some(e) && sheet == old(sheet) && log == old(log)
    {
      var done := Handle(sheet, call, actor);
      if done.Err? { return Some(done.error); }
      sheet := done.value;
      log := log + [Event(Ran(call), source, actor)];
      refused := None;
    }

    method FileRequest(body: Body, actor: User)
      modifies this`requests, this`log
      ensures State() == File(old(State()), body, actor)
    {
      log := log + [Event(Filed, Some(|requests|), actor)];
      requests := requests + [Request(actor, body, Proposed)];
    }

    /** The first column in view whose id or field key is the one asked for. */
    method FindColumn(name: Id) returns (found: Option<Id>)
      ensures found == Resolve(sheet.colOrder, sheet.field, name)
    {
      for i := 0 to |sheet.colOrder|
        invariant Resolve(sheet.colOrder, sheet.field, name) == Resolve(sheet.colOrder[i..], sheet.field, name)
      {
        var c := sheet.colOrder[i];
        assert sheet.colOrder[i..][1..] == sheet.colOrder[i + 1..];
        if name == c || (c in sheet.field && sheet.field[c] == name) { return Some(c); }
      }
      found := None;
    }

    /** Resolve references, and refuse bad ones, before anyone asks who is calling. */
    method ResolveParams(call: Call) returns (ready: Result<Call, Refusal>)
      ensures ready == Resolved(sheet, call)
    {
      if !NamesApprovers(call) { return Err(BadParams); }
      match call {
        case SetColumnOrder(order) =>
          var ids := ResolveOrderParams(sheet.colOrder, sheet.labels, sheet.field, order);
          OrderResolution(sheet, order, ids);
          ready := if ids.Ok? then Ok(SetColumnOrder(ids.value)) else Err(BadParams);
        case AddColumn(_, _, _, Some(anchor)) =>
          var found := FindColumn(anchor);
          ready := if found.Some? then Ok(call.(after := found)) else Err(BadParams);
        case _ => ready := Ok(call);
      }
    }

    method ExecuteAction(call: Call, actor: User) returns (refused: Option<Refusal>)
      modifies this
      ensures Answers(Execute(old(State()), call, actor), old(State()), State(), refused)
    {
      var ready := ResolveParams(call);
      if ready.Err? { return Some(ready.error); }
      var auth := Authorize(sheet, ready.value, actor);
      if auth.Err? { return Some(auth.error); }
      if auth.value.ok && !MustSuggest(sheet, ready.value) {
        refused := RunAndEmit(ready.value, None, actor);
      } else {
        FileRequest(Single(ready.value, auth.value.approver, {}), actor);
        refused := None;
      }
    }

    /** Bundle several calls into one request; nothing is filed when any of them is refused. */
    method SuggestChanges(calls: seq<Call>, actor: User) returns (refused: Option<Refusal>)
      modifies this
      ensures Answers(SuggestBatch(old(State()), calls, actor), old(State()), State(), refused)
    {
      var items: seq<Item> := [];
      for i := 0 to |calls|
        invariant State() == old(State())
        invariant Itemize(sheet, calls[..i], actor) == Ok(items)
      {
        ItemizeNext(sheet, calls, i, actor);
        var ready := ResolveParams(calls[i]);
        if ready.Err? {
          ItemizeFails(sheet, calls, i + 1, actor);
          return Some(ready.error);
        }
        var auth := Authorize(sheet, ready.value, actor);
        if auth.Err? {
          ItemizeFails(sheet, calls, i + 1, actor);
          return Some(auth.error);
        }
        items := items + [Item(ready.value, auth.value.approver, None)];
      }
      assert calls[..|calls|] == calls;
      FileRequest(Batch(items), actor);
      refused := None;
    }

    /** Record the outcome of request `r`. */
    method Close(r: nat, body: Body, status: Status, actor: User)
      requires r < |requests|
      modifies this`requests, this`log
      ensures State() == Finish(old(State()), sheet, r, body, status, [], actor)
    {
      log := log + [Event(Decided(status), Some(r), actor)];
      requests := requests[r := Request(requests[r].requester, body, status)];
    }

    /** Put everything back as it was when the failing request began. */
    method Rollback(w: World)
      modifies this
      ensures State() == w
    {
      sheet, requests, log := w.sheet, w.requests, w.log;
    }

    method ApproveChange(r: nat, actor: User) returns (refused: Option<Refusal>)
      modifies this
      ensures Answers(Approve(old(State()), r, actor), old(State()), State(), refused)
    {
      if r >= |requests| { return Some(Missing); }
      if requests[r].status != Proposed { return Some(NotProposed); }
      match requests[r].body {
        case Single(_, _, _) => refused := ApproveOne(r, actor);
        case Batch(items) =>
          if items == [] { return Some(if actor == "" then BadParams else NotApprover); }
          refused := ApproveItems(r, actor);
      }
    }

    method ApproveOne(r: nat, actor: User) returns (refused: Option<Refusal>)
      requires r < |requests| && requests[r].status == Proposed && requests[r].body.Single?
      modifies this
      ensures Answers(ApproveSingle(old(State()), r, actor), old(State()), State(), refused)
    {
      var before, b := State(), requests[r].body;
      var now := DecidersNow(sheet, b.call, b.approver);
      if now.Err? { return Some(now.error); }
      if actor !in now.value.allowed { return Some(NotApprover); }
      var signed := Single(b.call, now.value.approver, b.approvals + {actor});
      requests := requests[r := Request(requests[r].requester, signed, Proposed)];
      if now.value.co != {} && !({now.value.approver} + now.value.co <= signed.approvals) { return None; }
      refused := RunAndEmit(b.call, Some(r), now.value.approver);
      if refused.Some? {
        Rollback(before);
        return;
      }
      Close(r, signed, Approved, actor);
    }

    /** Sign the items of a batch the actor decides about. */
    method SignAll(items: seq<Item>, requester: User, actor: User)
      returns (signed: Result<seq<Item>, Refusal>, approvedNew: bool)
      ensures signed == SignItems(sheet, items, requester, actor)
      ensures signed.Ok? ==> approvedNew == !SameSignatures(items, signed.value)
    {
      hide SameSignatures, DecidersNow;
      var done: seq<Item> := [];
      approvedNew := false;
      assert SameSignatures(items, done) by { NothingSigned(items); }
      for i := 0 to |items|
        invariant SignItems(sheet, items[..i], requester, actor) == Ok(done) && |done| == i
        invariant approvedNew == !SameSignatures(items, done)
      {
        SignNext(sheet, items, i, requester, actor);
        var now := DecidersNow(sheet, items[i].call, Stored(items[i], requester));
        if now.Err? {
          SignFails(sheet, items, i + 1, requester, actor);
          return Err(now.error), false;
        }
        var signs := items[i].approvedBy.None? && actor in now.value.allowed;
        var it := Item(items[i].call, now.value.approver, if signs then Some(actor) else items[i].approvedBy);
        SignaturesNext(items, done, it);
        done := done + [it];
        approvedNew := approvedNew || signs;
      }
      assert items[..|items|] == items;
      signed := Ok(done);
    }

    /** Run the items in order; a refused item puts the whole request back. */
    method ReplayAll(items: seq<Item>, requester: User, r: nat, before: World) returns (refused: Option<Refusal>)
      modifies this
      ensures match ReplayItems(old(sheet), items, requester, r)
              case Ok(z) => refused == None && State() == World(z.sheet, old(requests), old(log) + z.ran)
              case Err(e) => refused == Some(e) && State() == before
    {
      hide Handle, DecidersNow, ReplayItems;
      EmptyReplay(sheet, requester, r);
      assert items[..0] == [];
      ghost var ran: seq<Event> := [];
      for i := 0 to |items|
        invariant ReplayItems(old(sheet), items[..i], requester, r) == Ok(Replayed(sheet, ran))
        invariant requests == old(requests) && log == old(log) + ran
      {
        ReplayNext(old(sheet), items, i, requester, r);
        var now := DecidersNow(sheet, items[i].call, Stored(items[i], requester));
        if now.Err? {
          ReplayFails(old(sheet), items, i + 1, requester, r);
          Rollback(before);
          return Some(now.error);
        }
        refused := RunAndEmit(items[i].call, Some(r), now.value.approver);
        if refused.Some? {
          ReplayFails(old(sheet), items, i + 1, requester, r);
          Rollback(before);
          return;
        }
        ran := ran + [Event(Ran(items[i].call), Some(r), now.value.approver)];
      }
      assert items[..|items|] == items;
      refused := None;
    }

    method ApproveItems(r: nat, actor: User) returns (refused: Option<Refusal>)
      requires r < |requests| && requests[r].status == Proposed && requests[r].body.Batch?
      modifies this
      ensures Answers(ApproveBatch(old(State()), r, actor), old(State()), State(), refused)
    {
      hide SignItems, ReplayItems, AllSigned, SameSignatures;
      var before, q := State(), requests[r];
      var signed, approvedNew := SignAll(q.body.items, q.requester, actor);
      if signed.Err? { return Some(signed.error); }
      var allDone := AllSigned(signed.value);
      if !approvedNew && !allDone { return Some(NotApprover); }
      requests := requests[r := Request(q.requester, Batch(signed.value), Proposed)];
      if !allDone { return None; }
      refused := ReplayAll(signed.value, q.requester, r, before);
      if refused.Some? { return; }
      Close(r, Batch(signed.value), Approved, actor);
    }

    method RejectChange(r: nat, actor: User) returns (refused: Option<Refusal>)
      modifies this
      ensures Answers(Reject(old(State()), r, actor), old(State()), State(), refused)
    {
      if r >= |requests| { return Some(Missing); }
      if requests[r].status != Proposed { return Some(NotProposed); }
      var allowed := WhoMayReject(requests[r]);
      if allowed.Err? { return Some(allowed.error); }
      if actor !in allowed.value { return Some(NotApprover); }
      Close(r, requests[r].body, Rejected, actor);
      refused := None;
    }

    /** Whoever decides about any item of a batch may reject the batch. */
    method WhoMayReject(q: Request) returns (allowed: Result<set<User>, Refusal>)
      ensures allowed == AllowedOn(sheet, q)
    {
      match q.body {
        case Single(call, approver, _) =>
          var now := DecidersNow(sheet, call, approver);
          return if now.Ok? then Ok(now.value.allowed) else Err(now.error);
        case Batch(items) =>
          if items == [] { return Ok({""}); }
          var users: set<User> := {};
          for i := 0 to |items|
            invariant AllowedOnItems(sheet, items[..i], q.requester) == Ok(users)
          {
            AllowedNext(sheet, items, i, q.requester);
            var now := DecidersNow(sheet, items[i].call, Stored(items[i], q.requester));
            if now.Err? {
              AllowedFails(sheet, items, i + 1, q.requester);
              return Err(now.error);
            }
            users := users + now.value.allowed;
          }
          assert items[..|items|] == items;
          allowed := Ok(users);
      }
    }

    method WithdrawChange(r: nat, actor: User) returns (refused: Option<Refusal>)
      modifies this
      ensures Answers(Withdraw(old(State()), r, actor), old(State()), State(), refused)
    {
      if r >= |requests| { return Some(Missing); }
      if requests[r].status != Proposed { return Some(NotProposed); }
      if actor != requests[r].requester { return Some(NotRequester); }
      Close(r, requests[r].body, Withdrawn, actor);
      refused := None;
    }
  }
}
