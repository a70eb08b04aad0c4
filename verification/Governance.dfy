/**
 * Mutate or suggest: a call runs when its actor holds the authority, and is otherwise filed as a
 * request that is decided, and replayed, under the authority of the moment of decision.
 *
 * This module says what each step does to the state; `GovernanceServer` carries the steps out and
 * `GovernanceLaws` proves what every run keeps.
 */
module Governance {
  import opened Common
  import opened Forests
  import opened ForestEdits
  import opened TreeRepository
  import opened Columns
  import opened Sorting
  import opened Authority

  /** The principals stored on a column: users, or `role:` keys. */
  datatype Acl = Acl(owner: User, editors: seq<User>)

  datatype SheetData = SheetData(
    forest: Forest, cells: map<(Id, Id), Cell>,
    colOrder: seq<Id>, cols: map<Id, Acl>, field: map<Id, Id>, labels: set<Id>,
    grants: seq<Grant>, owner: User, roles: map<string, set<User>>, ownersSuggest: bool, nextId: Id) {

    /** Ids come from the counter, and the stored order names every column once. */
    ghost predicate Tidy() {
      && Below(forest.par.Keys, nextId) && TidyColumns(colOrder, cols.Keys, nextId)
    }
  }

  ghost predicate TidyColumns(order: seq<Id>, ids: set<Id>, next: Id) {
    Below(ids, next) && NoDup(order) && SameMembers(order, ids)
  }

  ghost predicate Below(ids: set<Id>, next: Id) {
    forall n :: n in ids ==> n < next
  }

  ghost predicate SameMembers(order: seq<Id>, ids: set<Id>) {
    forall c :: c in order <==> c in ids
  }

  type Sheet = s: SheetData | s.Tidy()
    witness SheetData(RawForest([], map[], map[]), map[], [], map[], map[], {}, [], "", map[], false, 0)

  datatype Call =
    | UpdateCell(node: Id, col: Id, value: Value, base: Option<nat>)
    | AddNode(parent: Option<Id>, values: seq<(Id, Value)>)
    | MoveNode(node: Id, to: Option<Id>)
    | DeleteNode(node: Id)
    | DelegateBranch(branch: Id, grantee: User)
    | RevokeDelegation(grant: nat)
    | GrantColumn(col: Id, newOwner: Option<User>, newEditors: Option<seq<User>>)
    | SetColumnOrder(order: seq<Id>)
    | AddColumn(key: Id, colOwner: User, isLabel: bool, after: Option<Id>)
    | DeleteColumn(col: Id)

  datatype Refusal = Missing | BadParams | Stale | CycleRefused | NotApprover | NotProposed | NotRequester

  // ----- principals -----

  predicate HasPrefix(p: User, prefix: string) {
    |prefix| <= |p| && p[..|prefix|] == prefix
  }

  predicate IsDomain(p: User) {
    HasPrefix(p, "domain:")
  }

  /** A user, as opposed to a role, a mail domain or nobody. */
  predicate IsUser(p: User) {
    p != "" && !HasPrefix(p, "role:") && !IsDomain(p)
  }

  /** The users a stored principal stands for. */
  function Expand(roles: map<string, set<User>>, p: User): set<User> {
    if HasPrefix(p, "role:") then (if p[5..] in roles then roles[p[5..]] else {})
    else if IsDomain(p) || p == "" then {}
    else {p}
  }

  function ColumnApprovers(s: Sheet, c: Id): set<User>
    requires c in s.cols
  {
    Expand(s.roles, s.cols[c].owner) + set p, u | p in s.cols[c].editors && u in Expand(s.roles, p) :: u
  }

  /** Owner and editors as stored: who may decide a request about column `c`, beside its approver. */
  function OwnerAndEditors(s: Sheet, c: Id): set<User> {
    if c in s.cols then {s.cols[c].owner} + set p | p in s.cols[c].editors else {}
  }

  // ----- authority -----

  datatype Auth = Auth(ok: bool, approver: User, co: set<User>)

  function ApproverAt(s: Sheet, n: Option<Id>): Result<User, Refusal> {
    if AtNode(s.forest, n) then Ok(StructuralApprover(s.forest, s.grants, s.owner, n)) else Err(Missing)
  }

  function SoleApprover(approver: Result<User, Refusal>, actor: User): Result<Auth, Refusal> {
    match approver case Err(e) => Err(e) case Ok(u) => Ok(Auth(actor == u, u, {}))
  }

  function MoveAuthority(s: Sheet, n: Id, to: Option<Id>, actor: User): Result<Auth, Refusal> {
    if n !in s.forest.par then Err(Missing)
    else match (ApproverAt(s, s.forest.par[n]), ApproverAt(s, to))
         case (Ok(src), Ok(dest)) => Ok(Auth(actor == src && actor == dest, dest, if src == dest then {} else {src}))
         case _ => Err(Missing)
  }

  function RevokeAuthority(s: Sheet, grant: nat, actor: User): Result<Auth, Refusal> {
    if grant >= |s.grants| then Ok(Auth(false, actor, {}))
    else match ApproverAt(s, Some(s.grants[grant].root))
         case Err(e) => Err(e)
         case Ok(owner) => Ok(Auth(actor == s.grants[grant].grantedBy || actor == owner, s.grants[grant].grantedBy, {}))
  }

  function ColumnAuthority(s: Sheet, c: Id, may: set<User>, actor: User): Result<Auth, Refusal> {
    if c in s.cols then Ok(Auth(actor in may, s.cols[c].owner, {})) else Err(Missing)
  }

  /** Whether `actor` may run the call directly; who decides about it; who else must agree. */
  function Authorize(s: Sheet, call: Call, actor: User): Result<Auth, Refusal> {
    match call
    case UpdateCell(_, c, _, _) => ColumnAuthority(s, c, if c in s.cols then ColumnApprovers(s, c) else {}, actor)
    case DeleteColumn(c) => ColumnAuthority(s, c, if c in s.cols then ColumnApprovers(s, c) else {}, actor)
    case GrantColumn(c, _, _) => ColumnAuthority(s, c, if c in s.cols then {s.cols[c].owner, s.owner} else {}, actor)
    case AddNode(p, _) => SoleApprover(ApproverAt(s, p), actor)
    case DeleteNode(n) => SoleApprover(ApproverAt(s, Some(n)), actor)
    case DelegateBranch(b, _) => SoleApprover(ApproverAt(s, Some(b)), actor)
    case MoveNode(n, to) => MoveAuthority(s, n, to, actor)
    case RevokeDelegation(g) => RevokeAuthority(s, g, actor)
    case SetColumnOrder(_) => SoleApprover(Ok(s.owner), actor)
    case AddColumn(_, _, _, _) => SoleApprover(Ok(s.owner), actor)
  }

  // ----- checks made before authority -----

  /** No approver slot of the call names a whole mail domain. */
  predicate NamesApprovers(call: Call) {
    match call
    case GrantColumn(_, o, es) => (o.Some? ==> !IsDomain(o.value)) &&
      (es.Some? ==> forall p :: p in es.value ==> !IsDomain(p))
    case AddColumn(_, o, _, _) => !IsDomain(o)
    case _ => true
  }

  /** The ids a complete order names, if it is one. */
  function ResolvedOrder(s: Sheet, order: seq<Id>): Option<seq<Id>> {
    var found := ResolveAll(s.colOrder, s.field, order);
    if exists i :: 0 <= i < |found| && found[i].None? then None
    else
      var ids := seq(|found|, i requires 0 <= i < |found| => match found[i] case Some(c) => c case None => 0);
      if CompleteOrder(s.colOrder, s.labels, ids) then Some(ids) else None
  }

  /** References are resolved, and bad ones refused, before anyone asks who is calling. */
  function Resolved(s: Sheet, call: Call): Result<Call, Refusal> {
    if !NamesApprovers(call) then Err(BadParams)
    else match call
         case SetColumnOrder(order) =>
           (match ResolvedOrder(s, order) case Some(ids) => Ok(SetColumnOrder(ids)) case None => Err(BadParams))
         case AddColumn(_, _, _, Some(a)) =>
           (match Resolve(s.colOrder, s.field, a)
            case Some(c) => Ok(call.(after := Some(c)))
            case None => Err(BadParams))
         case _ => Ok(call)
  }

  // ----- handlers -----

  function WriteCell(s: Sheet, n: Id, c: Id, v: Value): Sheet {
    s.(cells := s.cells[(n, c) := Cell(v, (if (n, c) in s.cells then s.cells[(n, c)].version else 0) + 1)])
  }

  function WriteCells(s: Sheet, n: Id, values: seq<(Id, Value)>): Result<Sheet, Refusal> {
    if values == [] then Ok(s)
    else
      var cv := values[|values| - 1];
      match WriteCells(s, n, values[..|values| - 1])
      case Err(e) => Err(e)
      case Ok(s') => if cv.0 in s.cols then Ok(WriteCell(s', n, cv.0, cv.1)) else Err(Missing)
  }

  function Update(s: Sheet, n: Id, c: Id, v: Value, base: Option<nat>): Result<Sheet, Refusal> {
    if c !in s.cols then Err(Missing)
    else if base.Some? && base.value != (if (n, c) in s.cells then s.cells[(n, c)].version else 0) then Err(Stale)
    else Ok(WriteCell(s, n, c, v))
  }

  lemma GrownTidy(s: Sheet, p: Option<Id>)
    requires AtNode(s.forest, p)
    ensures Below(Created(s.forest, s.nextId, p).par.Keys, s.nextId + 1)
    ensures TidyColumns(s.colOrder, s.cols.Keys, s.nextId + 1)
  {
  }

  function Grown(s: Sheet, p: Option<Id>): Sheet
    requires AtNode(s.forest, p)
  {
    GrownTidy(s, p);
    hide Created, NoDup, TidyColumns;
    s.(forest := Created(s.forest, s.nextId, p), nextId := s.nextId + 1)
  }

  function Add(s: Sheet, p: Option<Id>, values: seq<(Id, Value)>): Result<Sheet, Refusal> {
    if AtNode(s.forest, p) then WriteCells(Grown(s, p), s.nextId, values) else Err(Missing)
  }

  function Move(s: Sheet, n: Id, to: Option<Id>): Result<Sheet, Refusal> {
    match MoveError(s.forest, n, to, None)
    case Some(e) => Err(if e.Cycle? then CycleRefused else Missing)
    case None => Ok(s.(forest := Moved(s.forest, n, to)))
  }

  function Delete(s: Sheet, n: Id): Result<Sheet, Refusal> {
    if n !in s.forest.par then Err(Missing)
    else Ok(s.(forest := Deleted(s.forest, n), cells := CellsOutside(s.cells, Sub(s.forest, n))))
  }

  function GrantTo(s: Sheet, c: Id, o: Option<User>, es: Option<seq<User>>): Result<Sheet, Refusal> {
    if c !in s.cols then Err(Missing)
    else
      var was := s.cols[c];
      var owner := if o.Some? then o.value else was.owner;
      Ok(s.(cols := s.cols[c := Acl(owner, if es.Some? then es.value else was.editors)]))
  }

  function Reorder(s: Sheet, order: seq<Id>): Result<Sheet, Refusal> {
    var named := OrderForWrite(s.colOrder, s.labels, s.field, order);
    if !Orderable(s.colOrder, s.labels, named) then Err(BadParams)
    else
      ReorderedIsPermutation(s.colOrder, s.labels, named);
      Ok(s.(colOrder := Reordered(s.colOrder, s.labels, named)))
  }

  function Insert(s: Sheet, key: Id, owner: User, isLabel: bool, after: Option<Id>): Result<Sheet, Refusal> {
    var anchor := AfterForWrite(s.colOrder, s.field, after);
    if IsDomain(owner) || (anchor.Some? && anchor.value !in s.colOrder) then Err(BadParams)
    else Ok(InsertAt(s, key, Acl(owner, []), isLabel, anchor))
  }

  function InsertAt(s: Sheet, key: Id, acl: Acl, isLabel: bool, anchor: Option<Id>): Sheet
    requires anchor.Some? ==> anchor.value in s.colOrder
  {
    InsertTidy(s, anchor, acl);
    s.(colOrder := Inserted(s.colOrder, anchor, s.nextId), cols := s.cols[s.nextId := acl],
       field := s.field[s.nextId := key],
       labels := if isLabel then s.labels + {s.nextId} else s.labels, nextId := s.nextId + 1)
  }

  lemma InsertTidy(s: Sheet, anchor: Option<Id>, acl: Acl)
    requires anchor.Some? ==> anchor.value in s.colOrder
    ensures TidyColumns(Inserted(s.colOrder, anchor, s.nextId), s.cols[s.nextId := acl].Keys, s.nextId + 1)
    ensures Below(s.forest.par.Keys, s.nextId + 1)
  {
    InsertedNoDup(s.colOrder, anchor, s.nextId);
  }

  lemma DropTidy(s: Sheet, c: Id)
    ensures TidyColumns(Dropped(s.colOrder, c), (s.cols - {c}).Keys, s.nextId)
  {
    KeepMembers(s.colOrder, Others(s.colOrder, c));
  }

  /** A dropped column takes its cells with it. */
  function Drop(s: Sheet, c: Id): Result<Sheet, Refusal> {
    if c !in s.cols then Err(Missing)
    else
      DropTidy(s, c);
      Ok(s.(colOrder := Dropped(s.colOrder, c), cols := s.cols - {c}, field := s.field - {c}, labels := s.labels - {c},
               cells := map nc | nc in s.cells && nc.1 != c :: s.cells[nc]))
  }

  /** What the call does to the sheet when `actor` runs it; no authority is asked here. */
  function Handle(s: Sheet, call: Call, actor: User): Result<Sheet, Refusal> {
    match call
    case UpdateCell(n, c, v, base) => Update(s, n, c, v, base)
    case AddNode(p, values) => Add(s, p, values)
    case MoveNode(n, to) => Move(s, n, to)
    case DeleteNode(n) => Delete(s, n)
    case DelegateBranch(b, u) => Ok(s.(grants := s.grants + [Grant(b, u, actor, true)]))
    case RevokeDelegation(g) => if g < |s.grants| then Ok(s.(grants := Deactivated(s.grants, g))) else Err(Missing)
    case GrantColumn(c, o, es) => if NamesApprovers(call) then GrantTo(s, c, o, es) else Err(BadParams)
    case SetColumnOrder(order) => Reorder(s, order)
    case AddColumn(key, o, isLabel, after) => Insert(s, key, if o == "" then actor else o, isLabel, after)
    case DeleteColumn(c) => Drop(s, c)
  }

  // ----- requests and events -----

  datatype Status = Proposed | Approved | Rejected | Withdrawn

  datatype Item = Item(call: Call, approver: User, approvedBy: Option<User>)

  datatype Body =
    | Single(call: Call, approver: User, approvals: set<User>)
    | Batch(items: seq<Item>)

  datatype Request = Request(requester: User, body: Body, status: Status)

  /** What an event records; `request` ties a replay to the request it came from. */
  datatype Mark = Filed | Ran(call: Call) | Decided(status: Status)

  datatype Event = Event(mark: Mark, request: Option<nat>, actor: User)

  datatype World = World(sheet: Sheet, requests: seq<Request>, log: seq<Event>)

  /** Whether the sheet makes even its owners file requests; a revocation carries no sheet to ask. */
  predicate MustSuggest(s: Sheet, call: Call) {
    s.ownersSuggest && !call.RevokeDelegation?
  }

  function File(w: World, body: Body, actor: User): World {
    World(w.sheet, w.requests + [Request(actor, body, Proposed)], w.log + [Event(Filed, Some(|w.requests|), actor)])
  }

  function RunOrFile(w: World, call: Call, auth: Auth, actor: User): Result<World, Refusal> {
    if auth.ok && !MustSuggest(w.sheet, call) then
      match Handle(w.sheet, call, actor)
      case Err(e) => Err(e)
      case Ok(s) => Ok(World(s, w.requests, w.log + [Event(Ran(call), None, actor)]))
    else Ok(File(w, Single(call, auth.approver, {}), actor))
  }

  function Execute(w: World, call: Call, actor: User): Result<World, Refusal> {
    match Resolved(w.sheet, call)
    case Err(e) => Err(e)
    case Ok(ready) =>
      match Authorize(w.sheet, ready, actor)
      case Err(e) => Err(e)
      case Ok(auth) => RunOrFile(w, ready, auth, actor)
  }

  function Snoc<T>(items: seq<T>, last: Result<T, Refusal>): Result<seq<T>, Refusal> {
    match last case Err(e) => Err(e) case Ok(it) => Ok(items + [it])
  }

  /** One call of a batch, resolved and routed to its own approver. */
  function ItemFor(s: Sheet, call: Call, actor: User): Result<Item, Refusal> {
    match Resolved(s, call)
    case Err(e) => Err(e)
    case Ok(ready) =>
      match Authorize(s, ready, actor)
      case Err(e) => Err(e)
      case Ok(auth) => Ok(Item(ready, auth.approver, None))
  }

  function Itemize(s: Sheet, calls: seq<Call>, actor: User): Result<seq<Item>, Refusal> {
    if calls == [] then Ok([])
    else
      match Itemize(s, calls[..|calls| - 1], actor)
      case Err(e) => Err(e)
      case Ok(items) => Snoc(items, ItemFor(s, calls[|calls| - 1], actor))
  }

  function SuggestBatch(w: World, calls: seq<Call>, actor: User): Result<World, Refusal> {
    match Itemize(w.sheet, calls, actor)
    case Err(e) => Err(e)
    case Ok(items) => Ok(File(w, Batch(items), actor))
  }

  // ----- decisions -----

  /** The column whose stored owner and editors may also decide about the call. */
  function TargetColumn(call: Call): Option<Id> {
    match call
    case UpdateCell(_, c, _, _) => Some(c)
    case DeleteColumn(c) => Some(c)
    case _ => None
  }

  /** Who decides now: recomputed from the current grants and columns. */
  datatype Deciders = Deciders(approver: User, co: set<User>, allowed: set<User>)

  function DecidersNow(s: Sheet, call: Call, stored: User): Result<Deciders, Refusal> {
    match Authorize(s, call, stored)
    case Err(e) => Err(e)
    case Ok(a) =>
      var column := TargetColumn(call);
      var others := if column.Some? then OwnerAndEditors(s, column.value) else {};
      Ok(Deciders(a.approver, a.co, {a.approver} + a.co + others))
  }

  function Finish(w: World, s: Sheet, r: nat, body: Body, status: Status, ran: seq<Event>, actor: User): World
    requires r < |w.requests|
  {
    World(s, w.requests[r := Request(w.requests[r].requester, body, status)],
          w.log + ran + [Event(Decided(status), Some(r), actor)])
  }

  function Pending(w: World, r: nat, body: Body): World
    requires r < |w.requests|
  {
    w.(requests := w.requests[r := Request(w.requests[r].requester, body, Proposed)])
  }

  function ApproveSingle(w: World, r: nat, actor: User): Result<World, Refusal>
    requires r < |w.requests| && w.requests[r].body.Single?
  {
    var b := w.requests[r].body;
    match DecidersNow(w.sheet, b.call, b.approver)
    case Err(e) => Err(e)
    case Ok(now) =>
      var signed := Single(b.call, now.approver, b.approvals + {actor});
      if actor !in now.allowed then Err(NotApprover)
      else if now.co != {} && !({now.approver} + now.co <= signed.approvals) then Ok(Pending(w, r, signed))
      else match Handle(w.sheet, b.call, now.approver)
           case Err(e) => Err(e)
           case Ok(s) => Ok(Finish(w, s, r, signed, Approved, [Event(Ran(b.call), Some(r), now.approver)], actor))
  }

  /** The approver to fall back on when re-resolution finds none. */
  function Stored(it: Item, requester: User): User {
    if it.approver == "" then requester else it.approver
  }

  function SignItem(s: Sheet, it: Item, requester: User, actor: User): Result<Item, Refusal> {
    match DecidersNow(s, it.call, Stored(it, requester))
    case Err(e) => Err(e)
    case Ok(now) =>
      var signs := it.approvedBy.None? && actor in now.allowed;
      Ok(Item(it.call, now.approver, if signs then Some(actor) else it.approvedBy))
  }

  function SignItems(s: Sheet, items: seq<Item>, requester: User, actor: User): Result<seq<Item>, Refusal> {
    if items == [] then Ok([])
    else
      match SignItems(s, items[..|items| - 1], requester, actor)
      case Err(e) => Err(e)
      case Ok(signed) => Snoc(signed, SignItem(s, items[|items| - 1], requester, actor))
  }

  predicate AllSigned(items: seq<Item>) {
    forall it :: it in items ==> it.approvedBy.Some?
  }

  datatype Replayed = Replayed(sheet: Sheet, ran: seq<Event>)

  /** Run one item as whoever holds its authority at this point of the replay. */
  function ReplayItem(z: Replayed, it: Item, requester: User, r: nat): Result<Replayed, Refusal> {
    match DecidersNow(z.sheet, it.call, Stored(it, requester))
    case Err(e) => Err(e)
    case Ok(now) =>
      match Handle(z.sheet, it.call, now.approver)
      case Err(e) => Err(e)
      case Ok(s) => Ok(Replayed(s, z.ran + [Event(Ran(it.call), Some(r), now.approver)]))
  }

  function ReplayItems(s: Sheet, items: seq<Item>, requester: User, r: nat): Result<Replayed, Refusal> {
    if items == [] then Ok(Replayed(s, []))
    else
      match ReplayItems(s, items[..|items| - 1], requester, r)
      case Err(e) => Err(e)
      case Ok(z) => ReplayItem(z, items[|items| - 1], requester, r)
  }

  function ApproveBatch(w: World, r: nat, actor: User): Result<World, Refusal>
    requires r < |w.requests| && w.requests[r].body.Batch?
  {
    var q := w.requests[r];
    match SignItems(w.sheet, q.body.items, q.requester, actor)
    case Err(e) => Err(e)
    case Ok(signed) =>
      if !AllSigned(signed) then
        if SameSignatures(q.body.items, signed) then Err(NotApprover) else Ok(Pending(w, r, Batch(signed)))
      else match ReplayItems(w.sheet, signed, q.requester, r)
           case Err(e) => Err(e)
           case Ok(z) => Ok(Finish(w, z.sheet, r, Batch(signed), Approved, z.ran, actor))
  }

  predicate SameSignatures(items: seq<Item>, signed: seq<Item>) {
    forall i :: 0 <= i < |items| && i < |signed| ==> signed[i].approvedBy == items[i].approvedBy
  }

  function Decidable(w: World, r: nat): Result<(), Refusal> {
    if r >= |w.requests| then Err(Missing) else if w.requests[r].status != Proposed then Err(NotProposed) else Ok(())
  }

  /** A batch without items has no call to replay, and no one to decide about it but the empty user. */
  function Approve(w: World, r: nat, actor: User): Result<World, Refusal> {
    match Decidable(w, r)
    case Err(e) => Err(e)
    case Ok(_) =>
      match w.requests[r].body
      case Single(_, _, _) => ApproveSingle(w, r, actor)
      case Batch(items) =>
        if items == [] then Err(if actor == "" then BadParams else NotApprover) else ApproveBatch(w, r, actor)
  }

  function Join(us: set<User>, now: Result<Deciders, Refusal>): Result<set<User>, Refusal> {
    match now case Err(e) => Err(e) case Ok(d) => Ok(us + d.allowed)
  }

  /** Everyone who may decide about at least one item. */
  function AllowedOnItems(s: Sheet, items: seq<Item>, requester: User): Result<set<User>, Refusal> {
    if items == [] then Ok({})
    else
      match AllowedOnItems(s, items[..|items| - 1], requester)
      case Err(e) => Err(e)
      case Ok(us) => Join(us, DecidersNow(s, items[|items| - 1].call, Stored(items[|items| - 1], requester)))
  }

  function AllowedOn(s: Sheet, q: Request): Result<set<User>, Refusal> {
    match q.body
    case Single(call, approver, _) =>
      (match DecidersNow(s, call, approver) case Err(e) => Err(e) case Ok(now) => Ok(now.allowed))
    case Batch(items) => if items == [] then Ok({""}) else AllowedOnItems(s, items, q.requester)
  }

  function Reject(w: World, r: nat, actor: User): Result<World, Refusal> {
    match Decidable(w, r)
    case Err(e) => Err(e)
    case Ok(_) =>
      match AllowedOn(w.sheet, w.requests[r])
      case Err(e) => Err(e)
      case Ok(us) =>
        if actor in us then Ok(Finish(w, w.sheet, r, w.requests[r].body, Rejected, [], actor)) else Err(NotApprover)
  }

  function Withdraw(w: World, r: nat, actor: User): Result<World, Refusal> {
    match Decidable(w, r)
    case Err(e) => Err(e)
    case Ok(_) =>
      if actor != w.requests[r].requester then Err(NotRequester)
      else Ok(Finish(w, w.sheet, r, w.requests[r].body, Withdrawn, [], actor))
  }

  // ----- runs -----

  /** One request to the server, or a change of role holders behind its back. */
  datatype Action =
    | Do(call: Call, actor: User)
    | Suggest(calls: seq<Call>, actor: User)
    | Accept(req: nat, actor: User)
    | Refuse(req: nat, actor: User)
    | Retract(req: nat, actor: User)
    | AssignRoles(roles: map<string, set<User>>)

  function Attempt(w: World, a: Action): Result<World, Refusal> {
    match a
    case Do(call, actor) => Execute(w, call, actor)
    case Suggest(calls, actor) => SuggestBatch(w, calls, actor)
    case Accept(r, actor) => Approve(w, r, actor)
    case Refuse(r, actor) => Reject(w, r, actor)
    case Retract(r, actor) => Withdraw(w, r, actor)
    case AssignRoles(roles) => Ok(w.(sheet := w.sheet.(roles := roles)))
  }

  /** A failing request is rolled back whole. */
  function Step(w: World, a: Action): World {
    match Attempt(w, a) case Ok(after) => after case Err(_) => w
  }

  function Run(w: World, acts: seq<Action>): World {
    if acts == [] then w else Step(Run(w, acts[..|acts| - 1]), acts[|acts| - 1])
  }
}
