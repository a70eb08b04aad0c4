/**
 * The event handlers of one run, with the cascade loop as it is written: a work set popped in
 * any order.  Each handler is proved to do one step of the ledger specification.
 */
module ProcessEngine {
  import opened Common
  import opened ProcessRules
  import opened ProcessLedger

  datatype Transition =
    | RunStarted
    | ExpSatisfied(key: string, col: Id)
    | OwnersNotified(key: string, col: Id, owners: seq<User>)
    | ExpBreached(key: string, col: Id)
    | RunCompleted

  // ----- what the handlers report -----

  function SatisfiedOn(exps: seq<Exp>, c: Id): seq<Transition> {
    if exps == [] then []
    else
      var e := exps[|exps| - 1];
      SatisfiedOn(exps[..|exps| - 1], c) + (if e.col == c && e.IsOpen() then [ExpSatisfied(e.key, c)] else [])
  }

  function SatisfiedAlong(exps: seq<Exp>, order: seq<Id>): seq<Transition> {
    if order == [] then []
    else SatisfiedAlong(exps, order[..|order| - 1]) + SatisfiedOn(exps, order[|order| - 1])
  }

  function NotifiedOf(exps: seq<Exp>, rules: seq<Rule>, w: World): seq<Transition> {
    if exps == [] then []
    else
      var e := exps[|exps| - 1];
      NotifiedOf(exps[..|exps| - 1], rules, w)
      + (if ToNotify(e, rules, w) then [OwnersNotified(e.key, e.col, OwnersOf(w, e.col))] else [])
  }

  function BreachedOf(exps: seq<Exp>, now: int): seq<Transition> {
    if exps == [] then []
    else
      var e := exps[|exps| - 1];
      BreachedOf(exps[..|exps| - 1], now)
      + (if e.IsOpen() && PastDue(now, e.dueAt) then [ExpBreached(e.key, e.col)] else [])
  }

  function CompletionOf(exps: seq<Exp>, rules: seq<Rule>, filled: set<Id>): seq<Transition> {
    if Quiescent(exps, rules, filled) then [RunCompleted] else []
  }

  function ColumnsOf(exps: seq<Exp>): set<Id> {
    set e | e in exps :: e.col
  }

  // ----- firing one rule -----

  method FireRule(exps: seq<Exp>, r: Rule, now: int) returns (out: seq<Exp>, openedAny: bool)
    ensures out == Fire(exps, r, now)
    ensures openedAny <==> |out| > |exps|
    ensures |out| >= |exps|
  {
    out, openedAny := exps, false;
    for i := 0 to |r.expected|
      invariant out == OpenCols(exps, r, r.expected[..i], now)
      invariant |out| >= |exps| && (openedAny <==> |out| > |exps|)
    {
      assert r.expected[..i + 1][..i] == r.expected[..i];
      if !HasExp(out, r.key, r.expected[i]) {
        out := out + [NewExp(r, r.expected[i], now)];
        openedAny := true;
      }
    }
    assert r.expected[..|r.expected|] == r.expected;
  }

  // ----- the cascade -----

  /** A rule the cascade would fire on seeing column `c`. */
  predicate CascadeFires(r: Rule, exps: seq<Exp>, fired: set<string>, filled: set<Id>, c: Id) {
    && r.kind == ColumnKind && c in r.triggers
    && r.key !in fired && !HasKey(exps, r.key)
    && r.op != OnUpdated && c in filled
    && (r.join == AllJoin ==> AllFilled(r.triggers, filled))
  }

  /** Nothing is left for the cascade to open from column `c`. */
  ghost predicate ClosedAt(rules: seq<Rule>, exps: seq<Exp>, fired: set<string>, filled: set<Id>, c: Id) {
    forall r :: r in rules && CascadeFires(r, exps, fired, filled, c) ==> r.expected == []
  }

  function ExpectedColumns(rules: seq<Rule>): set<Id> {
    set r, c | r in rules && c in r.expected :: c
  }

  method SatisfyColumn(exps: seq<Exp>, c: Id, now: int) returns (out: seq<Exp>, trans: seq<Transition>)
    ensures out == SatisfyIn(exps, {c}, now) && trans == SatisfiedOn(exps, c)
  {
    out, trans := exps, [];
    for i := 0 to |exps|
      invariant |out| == |exps|
      invariant forall j :: 0 <= j < i ==> out[j] == Satisfied(exps[j], {c}, now)
      invariant forall j :: i <= j < |exps| ==> out[j] == exps[j]
      invariant trans == SatisfiedOn(exps[..i], c)
    {
      assert exps[..i + 1][..i] == exps[..i];
      if out[i].col == c && out[i].IsOpen() {
        trans := trans + [ExpSatisfied(out[i].key, c)];
        out := out[i := out[i].(satisfiedAt := Some(now))];
      }
    }
    assert exps[..|exps|] == exps;
  }

  /** Column `c` is seen filled: fire the downstream rules that may fire, and queue what they expect. */
  method CascadeFrom(rules: seq<Rule>, exps0: seq<Exp>, fired0: set<string>, filled: set<Id>, c: Id, now: int,
                     pending0: set<Id>, processed: set<Id>)
    returns (exps: seq<Exp>, fired: set<string>, pending: set<Id>)
    requires pending0 !! processed
    ensures fired0 <= fired
    ensures pending0 <= pending <= pending0 + ExpectedColumns(rules) && pending !! processed
    ensures ClosedAt(rules, exps0, fired0, filled, c) ==> exps == exps0 && pending == pending0
  {
    exps, fired, pending := exps0, fired0, pending0;
    for i := 0 to |rules|
      invariant fired0 <= fired
      invariant pending0 <= pending <= pending0 + ExpectedColumns(rules) && pending !! processed
      invariant ClosedAt(rules, exps0, fired0, filled, c) ==> exps == exps0 && pending == pending0
    {
      var r := rules[i];
      assert r in rules;
      if r.kind == ColumnKind && c in r.triggers && r.key !in fired {
        if HasKey(exps, r.key) || r.op == OnUpdated {
          fired := fired + {r.key};
        } else if c in filled && (r.join == AllJoin ==> AllFilled(r.triggers, filled)) {
          ghost var before, was := exps, pending;
          var openedAny;
          exps, openedAny := FireRule(exps, r, now);
          if openedAny {
            pending := pending + (set k | k in r.expected && k !in processed);
          }
          FireNothing(before, r, now);
          assert forall k :: k in r.expected ==> k in ExpectedColumns(rules);
          fired := fired + {r.key};
        }
      }
    }
  }

  lemma FireNothing(exps: seq<Exp>, r: Rule, now: int)
    ensures r.expected == [] ==> Fire(exps, r, now) == exps
  {
  }

  /** The columns the cascade satisfies: all filled ones at creation, the written one on an update. */
  function CascadeColumns(exps: seq<Exp>, filled: set<Id>, written: Option<Id>): set<Id> {
    match written case None => ColumnsOf(exps) * filled case Some(c) => {c}
  }

  /**
   * Satisfy and cascade to a fixpoint.  It ends for every rule set, cyclic or not.  When nothing
   * is left to open from any column it can reach, every order of popping gives the same ledger.
   */
  method SatisfyAndCascade(rules: seq<Rule>, exps0: seq<Exp>, fired0: set<string>, filled: set<Id>, now: int,
                           written: Option<Id>)
    returns (exps: seq<Exp>, trans: seq<Transition>, ghost order: seq<Id>)
    ensures (forall c: Id :: written == None || written == Some(c) ==> ClosedAt(rules, exps0, fired0, filled, c)) ==>
              && exps == SatisfyIn(exps0, CascadeColumns(exps0, filled, written), now)
              && NoDup(order) && Elements(order) == CascadeColumns(exps0, filled, written)
              && trans == SatisfiedAlong(exps0, order)
  {
    exps, trans, order := exps0, [], [];
    var fired := fired0;
    var pending := match written case None => ColumnsOf(exps0) case Some(c) => {c};
    var processed: set<Id> := {};
    ghost var start := pending;
    ghost var closed := forall c: Id :: written == None || written == Some(c) ==>
        ClosedAt(rules, exps0, fired0, filled, c);
    SatisfyNone(exps0, now);
    hide SatisfyIn, SatisfiedOn, ClosedAt, ColumnsOf, ExpectedColumns;
    while pending != {}
      invariant pending !! processed && pending + processed <= start + ExpectedColumns(rules)
      invariant fired0 <= fired
      invariant closed ==> pending + processed == start
      invariant closed ==> Elements(order) == (if written == None then processed * filled else processed)
      invariant closed ==> exps == SatisfyIn(exps0, Elements(order), now)
      invariant closed ==> NoDup(order) && trans == SatisfiedAlong(exps0, order)
      decreases start + ExpectedColumns(rules) - processed
    {
      var c :| c in pending;
      pending := pending - {c};
      processed := processed + {c};
      if written == None && c !in filled {
        continue;
      }
      var newly;
      ghost var before := exps;
      exps, newly := SatisfyColumn(exps, c, now);
      if closed {
        assert c !in Elements(order);
        SatisfyOneMore(exps0, order, c, now);
        StillClosed(rules, exps0, fired0, before, fired, filled, c, Elements(order), now);
      }
      trans := trans + newly;
      order := order + [c];
      ghost var satisfied := exps;
      exps, fired, pending := CascadeFrom(rules, exps, fired, filled, c, now, pending, processed);
    }
  }

  lemma SatisfyNone(exps: seq<Exp>, now: int)
    ensures SatisfyIn(exps, {}, now) == exps && Elements<Id>([]) == {}
  {
  }

  lemma {:induction false} SatisfiedOnElsewhere(exps: seq<Exp>, cols: set<Id>, c: Id, now: int)
    requires c !in cols
    ensures SatisfiedOn(SatisfyIn(exps, cols, now), c) == SatisfiedOn(exps, c)
  {
    if exps != [] {
      SatisfiedOnElsewhere(exps[..|exps| - 1], cols, c, now);
      assert SatisfyIn(exps, cols, now)[..|exps| - 1] == SatisfyIn(exps[..|exps| - 1], cols, now);
    }
  }

  lemma {:induction false} SatisfyOneMore(exps: seq<Exp>, order: seq<Id>, c: Id, now: int)
    requires NoDup(order) && c !in Elements(order)
    ensures NoDup(order + [c]) && Elements(order + [c]) == Elements(order) + {c}
    ensures SatisfyIn(SatisfyIn(exps, Elements(order), now), {c}, now) == SatisfyIn(exps, Elements(order + [c]), now)
    ensures SatisfiedAlong(exps, order + [c])
            == SatisfiedAlong(exps, order) + SatisfiedOn(SatisfyIn(exps, Elements(order), now), c)
  {
    NoDupSnoc(order, c);
    assert (order + [c])[..|order|] == order;
    SatisfiedOnElsewhere(exps, Elements(order), c, now);
  }

  lemma SatisfyKeepsKeys(exps: seq<Exp>, cols: set<Id>, now: int, key: string)
    ensures HasKey(SatisfyIn(exps, cols, now), key) <==> HasKey(exps, key)
  {
    var out := SatisfyIn(exps, cols, now);
    if HasKey(exps, key) {
      var i :| 0 <= i < |exps| && exps[i].key == key;
      assert out[i] in out && out[i].key == key;
    }
  }

  lemma StillClosed(rules: seq<Rule>, exps0: seq<Exp>, fired0: set<string>, exps: seq<Exp>, fired: set<string>,
                    filled: set<Id>, c: Id, cols: set<Id>, now: int)
    requires ClosedAt(rules, exps0, fired0, filled, c) && fired0 <= fired
    requires exps == SatisfyIn(exps0, cols, now)
    ensures ClosedAt(rules, SatisfyIn(exps, {c}, now), fired, filled, c)
  {
    forall r | r in rules && CascadeFires(r, SatisfyIn(exps, {c}, now), fired, filled, c)
      ensures r.expected == []
    {
      SatisfyKeepsKeys(exps, {c}, now, r.key);
      SatisfyKeepsKeys(exps0, cols, now, r.key);
      assert CascadeFires(r, exps0, fired0, filled, c);
    }
  }

  // ----- both handlers leave the cascade nothing to open -----

  lemma HasKeyGrows(exps: seq<Exp>, more: seq<Exp>, key: string)
    requires exps <= more && HasKey(exps, key)
    ensures HasKey(more, key)
  {
    var i :| 0 <= i < |exps| && exps[i].key == key;
    assert more[i] in more;
  }

  lemma {:induction false} OpenColsGrows(exps: seq<Exp>, r: Rule, cols: seq<Id>, now: int)
    ensures exps <= OpenCols(exps, r, cols, now)
    ensures cols != [] ==> HasKey(OpenCols(exps, r, cols, now), r.key)
  {
    if cols != [] {
      var before, c := OpenCols(exps, r, cols[..|cols| - 1], now), cols[|cols| - 1];
      OpenColsGrows(exps, r, cols[..|cols| - 1], now);
      if !HasExp(before, r.key, c) {
        assert NewExp(r, c, now) in before + [NewExp(r, c, now)];
      }
    }
  }

  lemma {:induction false} PrefilledAllFired(s: Firing, rules: seq<Rule>, filled: set<Id>, now: int, r: Rule)
    ensures s.fired <= FireAllPrefilled(s, rules, filled, now).fired
    ensures r in rules && FiresAtCreation(r, filled) ==> r.key in FireAllPrefilled(s, rules, filled, now).fired
  {
    if rules != [] {
      assert rules == rules[..|rules| - 1] + [rules[|rules| - 1]];
      PrefilledAllFired(s, rules[..|rules| - 1], filled, now, r);
    }
  }

  /** After creation every prefilled rule has fired, so no column can cascade into a new one. */
  lemma CreationIsClosed(rules: seq<Rule>, filled: set<Id>, now: int, c: Id)
    ensures var s := OpenedAtCreation(rules, filled, now); ClosedAt(rules, s.exps, s.fired, filled, c)
  {
    var s0 := FireRows(Firing([], {}), rules, now);
    var s := FireAllPrefilled(s0, rules, filled, now);
    forall r | r in rules
      ensures !CascadeFires(r, s.exps, s.fired, filled, c)
    {
      PrefilledAllFired(s0, rules, filled, now, r);
    }
  }

  lemma {:induction false} UpdatesAllFired(s: Firing, rules: seq<Rule>, c: Id, filled: set<Id>, now: int, r: Rule)
    ensures s.exps <= FireUpdates(s, rules, c, filled, now).exps
    ensures r in rules && r.kind == ColumnKind && c in r.triggers && r.expected != []
            && (r.join == AllJoin ==> AllFilled(r.triggers, filled))
            ==> HasKey(FireUpdates(s, rules, c, filled, now).exps, r.key)
  {
    if rules != [] {
      var last, rest := rules[|rules| - 1], rules[..|rules| - 1];
      assert rules == rest + [last];
      UpdatesAllFired(s, rest, c, filled, now, r);
      var before := FireUpdates(s, rest, c, filled, now);
      OpenColsGrows(before.exps, last, last.expected, now);
      if HasKey(before.exps, r.key) {
        HasKeyGrows(before.exps, FireUpdate(before, last, c, filled, now).exps, r.key);
      }
    }
  }

  /** After an update every rule the column can fire has an entry, so the column cascades into nothing. */
  lemma {:induction false} UpdateIsClosed(exps: seq<Exp>, rules: seq<Rule>, filled: set<Id>, now: int, c: Id)
    ensures var s := FireUpdates(Firing(exps, {}), rules, c, filled, now); ClosedAt(rules, s.exps, s.fired, filled, c)
  {
    var s := FireUpdates(Firing(exps, {}), rules, c, filled, now);
    forall r | r in rules && CascadeFires(r, s.exps, s.fired, filled, c)
      ensures r.expected == []
    {
      UpdatesAllFired(Firing(exps, {}), rules, c, filled, now, r);
    }
  }

  // ----- one run -----

  /** Row rules first, then column rules whose triggers are already filled. */
  method FireAtCreation(rules: seq<Rule>, filled: set<Id>, now: int) returns (s: Firing)
    ensures s == OpenedAtCreation(rules, filled, now)
  {
    s := Firing([], {});
    for i := 0 to |rules|
      invariant s == FireRows(Firing([], {}), rules[..i], now)
    {
      var r := rules[i];
      assert rules[..i + 1][..i] == rules[..i];
      if r.kind == RowKind && r.op != OnUpdated {
        var out, any := FireRule(s.exps, r, now);
        s := Firing(out, s.fired + {r.key});
      }
    }
    assert rules[..|rules|] == rules;
    ghost var rows := s;
    for i := 0 to |rules|
      invariant s == FireAllPrefilled(rows, rules[..i], filled, now)
    {
      var r := rules[i];
      assert rules[..i + 1][..i] == rules[..i];
      if FiresAtCreation(r, filled) && r.key !in s.fired {
        var out, any := FireRule(s.exps, r, now);
        s := Firing(out, s.fired + {r.key});
      }
    }
  }

  method FireOnUpdate(exps: seq<Exp>, rules: seq<Rule>, c: Id, filled: set<Id>, now: int) returns (s: Firing)
    ensures s == FireUpdates(Firing(exps, {}), rules, c, filled, now)
  {
    s := Firing(exps, {});
    for i := 0 to |rules|
      invariant s == FireUpdates(Firing(exps, {}), rules[..i], c, filled, now)
    {
      var r := rules[i];
      assert rules[..i + 1][..i] == rules[..i];
      if FiresOnUpdate(r, c, filled, s.exps) {
        var out, any := FireRule(s.exps, r, now);
        s := Firing(out, if any then s.fired + {r.key} else s.fired);
      }
    }
    assert rules[..|rules|] == rules;
  }

  lemma SameNotices(exps: seq<Exp>, more: seq<Exp>, sent: multiset<nat>)
    requires SentOnce(exps, sent) && |exps| <= |more|
    requires forall i :: 0 <= i < |exps| ==> more[i].notified == exps[i].notified
    requires forall i :: |exps| <= i < |more| ==> more[i].notified == []
    ensures SentOnce(more, sent)
  {
    forall i: nat
      ensures sent[i] == if i < |more| && more[i].notified != [] then 1 else 0
    {
      if i < |exps| {
        assert more[i].notified == exps[i].notified;
      }
    }
  }

  /** One opening notice per ledger entry, sent exactly when the entry says whom it was sent to. */
  ghost predicate SentOnce(exps: seq<Exp>, sent: multiset<nat>) {
    forall i: nat {:trigger sent[i]} :: sent[i] == if i < |exps| && exps[i].notified != [] then 1 else 0
  }

  ghost predicate NotifiedUpTo(exps: seq<Exp>, before: seq<Exp>, rules: seq<Rule>, w: World, i: nat) {
    && |exps| == |before|
    && (forall j {:trigger exps[j]} :: 0 <= j < i && j < |exps| ==> exps[j] == Notified(before[j], rules, w))
    && forall j {:trigger exps[j]} :: i <= j < |exps| ==> exps[j] == before[j]
  }

  lemma {:induction false} NothingNotified(rules: seq<Rule>, w: World)
    ensures NotifiedOf([], rules, w) == []
  {
  }

  ghost predicate BreachedUpTo(exps: seq<Exp>, before: seq<Exp>, now: int, i: nat) {
    && |exps| == |before|
    && (forall j {:trigger exps[j]} :: 0 <= j < i && j < |exps| ==> exps[j] == Breached(before[j], now))
    && forall j {:trigger exps[j]} :: i <= j < |exps| ==> exps[j] == before[j]
  }

  lemma {:induction false} NothingBreached(now: int)
    ensures BreachedOf([], now) == []
  {
  }

  /** What one turn of the sweep does, whether or not the entry is overdue. */
  lemma {:induction false} BreachNext(exps: seq<Exp>, before: seq<Exp>, now: int, i: nat)
    requires i < |exps| && BreachedUpTo(exps, before, now, i)
    ensures var e := exps[i];
            var late, out := e.IsOpen() && PastDue(now, e.dueAt), exps[i := e.(breachedAt := Some(now))];
            && BreachedOf(before[..i + 1], now) ==
              BreachedOf(before[..i], now) + (if late then [ExpBreached(e.key, e.col)] else [])
            && (late ==> out != before) && BreachedUpTo(if late then out else exps, before, now, i + 1)
  {
    assert before[..i + 1][..i] == before[..i];
    assert exps[i] == before[i];
    var out := exps[i := exps[i].(breachedAt := Some(now))];
    assert out[i] == exps[i].(breachedAt := Some(now));
  }

  lemma BreachedAll(exps: seq<Exp>, before: seq<Exp>, now: int, sent: multiset<nat>)
    requires BreachedUpTo(exps, before, now, |exps|) && SentOnce(before, sent)
    ensures exps == BreachAll(before, now) && SentOnce(exps, sent)
  {
    forall j | 0 <= j < |exps|
      ensures exps[j].notified == before[j].notified
    {
      assert exps[j] == Breached(before[j], now);
    }
    SameNotices(before, exps, sent);
  }

  /** What one turn of the announcing loop does, whether or not the entry is to be announced. */
  lemma {:induction false} NotifyNext(exps: seq<Exp>, before: seq<Exp>, rules: seq<Rule>, w: World, i: nat,
                                      sent: multiset<nat>)
    requires i < |exps| && NotifiedUpTo(exps, before, rules, w, i) && SentOnce(exps, sent)
    ensures var e := exps[i];
            var told := e.(notified := OwnersOf(w, e.col));
            && NotifiedOf(before[..i + 1], rules, w) ==
               NotifiedOf(before[..i], rules, w) +
                 (if ToNotify(e, rules, w) then [OwnersNotified(e.key, e.col, told.notified)] else [])
            && (ToNotify(e, rules, w) ==> SentOnce(exps[i := told], sent + multiset{i}))
            && NotifiedUpTo(if ToNotify(e, rules, w) then exps[i := told] else exps, before, rules, w, i + 1)
  {
    hide NotifyFlag;
    assert before[..i + 1][..i] == before[..i];
  }

  class RunTracker {
    var started: bool
    var status: Status
    var exps: seq<Exp>
    /** The ledger positions opening notices were sent for. */
    ghost var sent: multiset<nat>

    ghost predicate Valid()
      reads this
    {
      && SentOnce(exps, sent)
      && (!started ==> exps == [])
    }

    function State(): Run
      reads this
    {
      Run(status, exps)
    }

    constructor ()
      ensures Valid() && !started
    {
      started, status, exps, sent := false, Active, [], multiset{};
    }

    /** Tell the owners of every open entry that was not announced yet. */
    method NotifyOpen(rules: seq<Rule>, w: World) returns (trans: seq<Transition>)
      requires SentOnce(exps, sent)
      modifies this`exps, this`sent
      ensures SentOnce(exps, sent)
      ensures exps == NotifyAll(old(exps), rules, w) && trans == NotifiedOf(old(exps), rules, w)
      ensures old(sent) <= sent
    {
      hide SentOnce, NotifiedOf, NotifyFlag;
      trans := [];
      ghost var before := exps;
      NothingNotified(rules, w);
      for i := 0 to |exps|
        invariant SentOnce(exps, sent) && old(sent) <= sent
        invariant NotifiedUpTo(exps, before, rules, w, i)
        invariant trans == NotifiedOf(before[..i], rules, w)
      {
        NotifyNext(exps, before, rules, w, i, sent);
        var e := exps[i];
        if ToNotify(e, rules, w) {
          var owners := OwnersOf(w, e.col);
          exps := exps[i := e.(notified := owners)];
          sent := sent + multiset{i};
          trans := trans + [OwnersNotified(e.key, e.col, owners)];
        }
      }
      assert before[..|before|] == before;
    }

    method MaybeComplete(rules: seq<Rule>, filled: set<Id>) returns (trans: seq<Transition>)
      requires status == Active
      modifies this`status
      ensures State() == Settle(exps, rules, filled) && trans == CompletionOf(exps, rules, filled)
    {
      trans := [];
      if exps == [] || exists e :: e in exps && e.IsOpen() { return; }
      if exists r :: r in rules && Blocks(r, exps, filled) { return; }
      status := Completed;
      trans := [RunCompleted];
    }

    method OnNodeCreated(rules: seq<Rule>, enabled: bool, inScope: bool, w: World, now: int)
      returns (trans: seq<Transition>, ghost order: seq<Id>)
      requires Valid()
      modifies this
      ensures Valid() && old(sent) <= sent
      ensures !enabled || !inScope || old(started) ==>
                trans == [] && State() == old(State()) && started == old(started) && sent == old(sent)
      ensures enabled && inScope && !old(started) ==>
                && started && State() == CreateStep(rules, w, now)
                && CreationReport(trans, order, rules, w, now)
    {
      order := [];
      if !enabled || !inScope || started { return [], []; }
      started, status := true, Active;
      var s := FireAtCreation(rules, w.filled, now);
      forall c: Id
        ensures ClosedAt(rules, s.exps, s.fired, w.filled, c)
      {
        CreationIsClosed(rules, w.filled, now, c);
      }
      var satisfied;
      exps, satisfied, order := SatisfyAndCascade(rules, s.exps, s.fired, w.filled, now, None);
      CreationSatisfies(s.exps, w.filled, now);
      FreshLedger(rules, w.filled, now);
      var notified := NotifyOpen(rules, w);
      var completed := MaybeComplete(rules, w.filled);
      trans := [RunStarted] + satisfied + notified + completed;
    }

    method OnValueUpdated(rules: seq<Rule>, enabled: bool, c: Id, w: World, now: int) returns (trans: seq<Transition>)
      requires Valid()
      modifies this
      ensures Valid() && old(sent) <= sent && started == old(started)
      ensures !enabled || !started || old(status) != Active ==>
                trans == [] && State() == old(State()) && sent == old(sent)
      ensures enabled && started && old(status) == Active ==>
                && State() == UpdateStep(old(State()), rules, c, w, now)
                && trans == UpdateReport(old(exps), rules, c, w, now)
    {
      if !enabled || !started || status != Active { return []; }
      var s := FireOnUpdate(exps, rules, c, w.filled, now);
      UpdateIsClosed(exps, rules, w.filled, now, c);
      ghost var before := exps;
      var satisfied;
      ghost var order;
      exps, satisfied, order := SatisfyAndCascade(rules, s.exps, s.fired, w.filled, now, Some(c));
      SingleOrder(order, c);
      assert satisfied == SatisfiedOn(s.exps, c) by {
        assert order[..0] == [];
        assert SatisfiedAlong(s.exps, []) == [];
      }
      UpdatesKeepNotices(before, rules, c, w.filled, now);
      SameNotices(before, exps, sent);
      var notified := NotifyOpen(rules, w);
      var completed := MaybeComplete(rules, w.filled);
      trans := satisfied + notified + completed;
    }

    /** One candidate of the deadline sweep. */
    method Sweep(rules: Option<seq<Rule>>, w: World, now: int) returns (trans: seq<Transition>)
      requires Valid()
      modifies this`exps, this`status
      ensures Valid() && sent == old(sent) && started == old(started)
      ensures State() == SweepStep(old(State()), rules, w, now)
      ensures trans == if old(status) == Active && HasOpenDue(old(exps)) then BreachedOf(old(exps), now) else []
    {
      hide SentOnce, BreachedOf, HasOpenDue;
      trans := [];
      if status != Active || !HasOpenDue(exps) { return; }
      NothingBreached(now);
      var changed := false;
      ghost var before := exps;
      for i := 0 to |exps|
        invariant status == Active && BreachedUpTo(exps, before, now, i)
        invariant trans == BreachedOf(before[..i], now)
        invariant changed <==> exps != before
      {
        BreachNext(exps, before, now, i);
        var e := exps[i];
        if e.IsOpen() && PastDue(now, e.dueAt) {
          exps := exps[i := e.(breachedAt := Some(now))];
          changed := true;
          trans := trans + [ExpBreached(e.key, e.col)];
        }
      }
      assert before[..|before|] == before;
      BreachedAll(exps, before, now, sent);
      if changed && rules.Some? {
        var completed := MaybeComplete(rules.value, w.filled);
      }
    }
  }

  ghost predicate CreationReport(trans: seq<Transition>, order: seq<Id>, rules: seq<Rule>, w: World, now: int) {
    var exps := OpenedAtCreation(rules, w.filled, now).exps;
    var after := SatisfyIn(exps, w.filled, now);
    && NoDup(order) && Elements(order) == ColumnsOf(exps) * w.filled
    && trans == [RunStarted] + SatisfiedAlong(exps, order) + NotifiedOf(after, rules, w)
                + CompletionOf(NotifyAll(after, rules, w), rules, w.filled)
  }

  function UpdateReport(exps: seq<Exp>, rules: seq<Rule>, c: Id, w: World, now: int): seq<Transition> {
    var fired := FireUpdates(Firing(exps, {}), rules, c, w.filled, now).exps;
    var after := SatisfyIn(fired, {c}, now);
    SatisfiedOn(fired, c) + NotifiedOf(after, rules, w) + CompletionOf(NotifyAll(after, rules, w), rules, w.filled)
  }

  lemma CreationSatisfies(exps: seq<Exp>, filled: set<Id>, now: int)
    ensures SatisfyIn(exps, ColumnsOf(exps) * filled, now) == SatisfyIn(exps, filled, now)
  {
    forall i | 0 <= i < |exps|
      ensures Satisfied(exps[i], ColumnsOf(exps) * filled, now) == Satisfied(exps[i], filled, now)
    {
      assert exps[i] in exps;
    }
  }

  lemma {:induction false} SingleOrder(order: seq<Id>, c: Id)
    requires NoDup(order) && Elements(order) == {c}
    ensures order == [c]
  {
    NoDupCard(order);
    assert order[0] in Elements(order);
  }

  /** Opening appends unannounced entries and touches no other. */
  ghost predicate AppendsQuietly(exps: seq<Exp>, more: seq<Exp>) {
    && exps <= more
    && forall i :: |exps| <= i < |more| ==> more[i].notified == [] && more[i].IsOpen()
  }

  lemma {:induction false} OpenColsQuiet(exps: seq<Exp>, r: Rule, cols: seq<Id>, now: int)
    ensures AppendsQuietly(exps, OpenCols(exps, r, cols, now))
  {
    if cols != [] { OpenColsQuiet(exps, r, cols[..|cols| - 1], now); }
  }

  lemma {:induction false} RowsQuiet(s: Firing, rules: seq<Rule>, now: int)
    ensures AppendsQuietly(s.exps, FireRows(s, rules, now).exps)
  {
    if rules != [] {
      var before, r := FireRows(s, rules[..|rules| - 1], now), rules[|rules| - 1];
      RowsQuiet(s, rules[..|rules| - 1], now);
      OpenColsQuiet(before.exps, r, r.expected, now);
    }
  }

  lemma {:induction false} PrefilledQuiet(s: Firing, rules: seq<Rule>, filled: set<Id>, now: int)
    ensures AppendsQuietly(s.exps, FireAllPrefilled(s, rules, filled, now).exps)
  {
    if rules != [] {
      var before, r := FireAllPrefilled(s, rules[..|rules| - 1], filled, now), rules[|rules| - 1];
      PrefilledQuiet(s, rules[..|rules| - 1], filled, now);
      OpenColsQuiet(before.exps, r, r.expected, now);
    }
  }

  lemma {:induction false} UpdatesQuiet(s: Firing, rules: seq<Rule>, c: Id, filled: set<Id>, now: int)
    ensures AppendsQuietly(s.exps, FireUpdates(s, rules, c, filled, now).exps)
  {
    if rules != [] {
      var before, r := FireUpdates(s, rules[..|rules| - 1], c, filled, now), rules[|rules| - 1];
      UpdatesQuiet(s, rules[..|rules| - 1], c, filled, now);
      OpenColsQuiet(before.exps, r, r.expected, now);
    }
  }

  lemma FreshLedger(rules: seq<Rule>, filled: set<Id>, now: int)
    ensures SentOnce(SatisfyIn(OpenedAtCreation(rules, filled, now).exps, filled, now), multiset{})
  {
    var rows := FireRows(Firing([], {}), rules, now);
    RowsQuiet(Firing([], {}), rules, now);
    PrefilledQuiet(rows, rules, filled, now);
  }

  lemma {:induction false} UpdatesKeepNotices(exps: seq<Exp>, rules: seq<Rule>, c: Id, filled: set<Id>, now: int)
    ensures var more := SatisfyIn(FireUpdates(Firing(exps, {}), rules, c, filled, now).exps, {c}, now);
            && |exps| <= |more|
            && (forall i :: 0 <= i < |exps| ==> more[i].notified == exps[i].notified)
            && (forall i :: |exps| <= i < |more| ==> more[i].notified == [])
  {
    UpdatesQuiet(Firing(exps, {}), rules, c, filled, now);
  }
}
