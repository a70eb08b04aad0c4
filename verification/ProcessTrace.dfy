/**
 * The whole ledger as a function of the history, with no loops, no cascade and no guards: when
 * each rule first fired, and what first closed each expectation after that.
 */
module ProcessTrace {
  import opened Common
  import opened ProcessRules
  import opened ProcessLedger
  import opened ProcessLaws

  // ----- the declarative ledger -----

  /** The rule's join is met: an all-join by all of its triggers, any other by one of them. */
  predicate Joined(r: Rule, filled: set<Id>) {
    && r.triggers != []
    && if r.join == AllJoin then forall c :: c in r.triggers ==> c in filled
                            else exists c :: c in r.triggers && c in filled
  }

  /** Whether an event is an occasion for the rule. */
  predicate Triggers(r: Rule, ev: Event) {
    match ev
    case Create(_, w, _) =>
      r.op != OnUpdated && (r.kind == RowKind || (r.kind == ColumnKind && Joined(r, w.filled)))
    case Update(_, c, w, _) => r.kind == ColumnKind && c in r.triggers && (r.join == AllJoin ==> Joined(r, w.filled))
    case SweepAt(_, _, _) => false
  }

  function Now(ev: Event): int {
    ev.now
  }

  /** The position of the first event that triggers the rule; the length of the history if none does. */
  function FirstFire(r: Rule, h: seq<Event>): (t: nat)
    ensures t <= |h|
    ensures t < |h| ==> Triggers(r, h[t])
    ensures forall i {:trigger Triggers(r, h[i])} :: 0 <= i < t ==> !Triggers(r, h[i])
  {
    if h == [] then 0
    else
      var t := FirstFire(r, h[..|h| - 1]);
      assert forall i :: 0 <= i < |h| - 1 ==> h[..|h| - 1][i] == h[i];
      if t < |h| - 1 || Triggers(r, h[|h| - 1]) then t else |h|
  }

  datatype Fate = Waiting | Met(at: int) | Missed(at: int)

  /** What one event does to an expectation on column `c` that is still waiting. */
  function FateOn(ev: Event, c: Id, due: Option<int>): Fate {
    match ev
    case Create(_, w, now) => if c in w.filled then Met(now) else Waiting
    case Update(_, k, _, now) => if c == k then Met(now) else Waiting
    case SweepAt(_, _, now) => if due.Some? && due.value <= now then Missed(now) else Waiting
  }

  /** The first event from position `t` on that closes the expectation decides. */
  function FateOf(h: seq<Event>, t: nat, c: Id, due: Option<int>): Fate {
    if |h| <= t then Waiting
    else
      var f := FateOf(h[..|h| - 1], t, c, due);
      if f != Waiting then f else FateOn(h[|h| - 1], c, due)
  }

  function Entry(r: Rule, c: Id, h: seq<Event>, t: nat): Exp
    requires t < |h|
  {
    var due := if r.within == 0 then None else Some(Now(h[t]) + r.within);
    var f := FateOf(h, t, c, due);
    Exp(r.key, c, Now(h[t]), due,
        if f.Met? then Some(f.at) else None,
        if f.Missed? then Some(f.at) else None, [])
  }

  /** One entry per distinct expected column, in the order listed. */
  function EntriesOf(r: Rule, cols: seq<Id>, h: seq<Event>, t: nat): seq<Exp>
    requires t < |h|
  {
    if cols == [] then []
    else
      var before, c := cols[..|cols| - 1], cols[|cols| - 1];
      EntriesOf(r, before, h, t) + (if c in before then [] else [Entry(r, c, h, t)])
  }

  function OpenedBy(rules: seq<Rule>, kind: Kind, h: seq<Event>, t: nat): seq<Exp>
    requires t < |h|
  {
    if rules == [] then []
    else
      var r := rules[|rules| - 1];
      OpenedBy(rules[..|rules| - 1], kind, h, t)
      + (if r.kind == kind && FirstFire(r, h) == t then EntriesOf(r, r.expected, h, t) else [])
  }

  /** Everything opened by the first `n` events, as it stands at the end of the history. */
  function Ledger(rules: seq<Rule>, h: seq<Event>, n: nat): seq<Exp>
    requires n <= |h|
  {
    if n == 0 then []
    else Ledger(rules, h, n - 1) + OpenedBy(rules, RowKind, h, n - 1) + OpenedBy(rules, ColumnKind, h, n - 1)
  }

  /** Something was expected, all of it is closed, and every column rule whose join is met has an entry. */
  predicate NothingLeft(exps: seq<Exp>, rules: seq<Rule>, filled: set<Id>) {
    && exps != []
    && (forall e :: e in exps ==> e.satisfiedAt.Some? || e.breachedAt.Some?)
    && forall r :: r in rules && r.kind == ColumnKind && Joined(r, filled) ==> exists e :: e in exps && e.key == r.key
  }

  /** What completion looks at is exactly that. */
  lemma QuiescentIsNothingLeft(exps: seq<Exp>, rules: seq<Rule>, filled: set<Id>)
    ensures Quiescent(exps, rules, filled) <==> NothingLeft(exps, rules, filled)
  {
  }

  /** The run is done after the last event of `h`. */
  predicate QuietAt(rules: seq<Rule>, h: seq<Event>)
    requires h != []
  {
    var ev, before := h[|h| - 1], h[..|h| - 1];
    && NothingLeft(Ledger(rules, h, |h|), rules, ev.w.filled)
    && (ev.SweepAt? ==> ev.proc.Some? && Ledger(rules, h, |h|) != Ledger(rules, before, |before|))
  }

  /** The history up to and including the event that completed the run. */
  function LivePart(rules: seq<Rule>, h: seq<Event>): (live: seq<Event>)
    ensures h != [] ==> live != []
  {
    if |h| <= 1 then h
    else
      var live := LivePart(rules, h[..|h| - 1]);
      if QuietAt(rules, live) then live else live + [h[|h| - 1]]
  }

  // ----- assumptions on the history -----

  ghost predicate DistinctKeys(rules: seq<Rule>) {
    rules == []
    || (DistinctKeys(rules[..|rules| - 1]) && !KeyIn(rules[..|rules| - 1], rules[|rules| - 1].key))
  }

  ghost predicate KeyIn(rules: seq<Rule>, key: string) {
    exists r :: r in rules && r.key == key
  }

  ghost predicate UsesRules(ev: Event, rules: seq<Rule>) {
    match ev
    case Create(rs, _, _) => rs == rules
    case Update(rs, _, _, _) => rs == rules
    case SweepAt(proc, _, _) => proc.Some? ==> proc.value == rules
  }

  /** One creation, then updates and sweeps, all under one rule set. */
  ghost predicate RowHistory(rules: seq<Rule>, h: seq<Event>) {
    && h != [] && h[0].Create?
    && forall i {:trigger UsesRules(h[i], rules)} :: 0 <= i < |h| ==>
        UsesRules(h[i], rules) && (i > 0 ==> !h[i].Create?)
  }

  // ----- one event more -----

  function Advance(e: Exp, ev: Event): Exp {
    var f := FateOn(ev, e.col, e.dueAt);
    if !e.IsOpen() || f == Waiting then e
    else e.(satisfiedAt := if f.Met? then Some(f.at) else None, breachedAt := if f.Missed? then Some(f.at) else None)
  }

  function AdvanceAll(exps: seq<Exp>, ev: Event): (r: seq<Exp>)
    ensures |r| == |exps|
    ensures forall i {:trigger r[i]} :: 0 <= i < |r| ==> r[i] == Advance(exps[i], ev)
  {
    seq(|exps|, i requires 0 <= i < |exps| => Advance(exps[i], ev))
  }

  lemma AdvanceConcat(a: seq<Exp>, b: seq<Exp>, ev: Event)
    ensures AdvanceAll(a + b, ev) == AdvanceAll(a, ev) + AdvanceAll(b, ev)
  {
  }

  lemma {:induction false} FirstFireSnoc(r: Rule, h: seq<Event>, ev: Event)
    ensures FirstFire(r, h + [ev]) == if FirstFire(r, h) < |h| then FirstFire(r, h)
                                      else if Triggers(r, ev) then |h| else |h| + 1
  {
    assert (h + [ev])[..|h|] == h;
  }

  lemma EntrySnoc(r: Rule, c: Id, h: seq<Event>, t: nat, ev: Event)
    requires t < |h|
    ensures Entry(r, c, h + [ev], t) == Advance(Entry(r, c, h, t), ev)
  {
    assert (h + [ev])[..|h|] == h;
  }

  lemma {:induction false} EntriesSnoc(r: Rule, cols: seq<Id>, h: seq<Event>, t: nat, ev: Event)
    requires t < |h|
    ensures EntriesOf(r, cols, h + [ev], t) == AdvanceAll(EntriesOf(r, cols, h, t), ev)
  {
    if cols != [] {
      var before, c := cols[..|cols| - 1], cols[|cols| - 1];
      EntriesSnoc(r, before, h, t, ev);
      EntrySnoc(r, c, h, t, ev);
      AdvanceConcat(EntriesOf(r, before, h, t), if c in before then [] else [Entry(r, c, h, t)], ev);
    }
  }

  lemma {:induction false} OpenedSnoc(rules: seq<Rule>, kind: Kind, h: seq<Event>, t: nat, ev: Event)
    requires t < |h|
    ensures OpenedBy(rules, kind, h + [ev], t) == AdvanceAll(OpenedBy(rules, kind, h, t), ev)
  {
    if rules != [] {
      var rest, r := rules[..|rules| - 1], rules[|rules| - 1];
      OpenedSnoc(rest, kind, h, t, ev);
      FirstFireSnoc(r, h, ev);
      EntriesSnoc(r, r.expected, h, t, ev);
      AdvanceConcat(OpenedBy(rest, kind, h, t),
                    if r.kind == kind && FirstFire(r, h) == t then EntriesOf(r, r.expected, h, t) else [], ev);
    }
  }

  lemma LedgerUnfolds(rules: seq<Rule>, h: seq<Event>, n: nat)
    requires 0 < n <= |h|
    ensures Ledger(rules, h, n) == Ledger(rules, h, n - 1) + OpenedBy(rules, RowKind, h, n - 1) +
            OpenedBy(rules, ColumnKind, h, n - 1)
  {
  }

  /** What was opened before only ages. */
  lemma {:induction false} LedgerSnoc(rules: seq<Rule>, h: seq<Event>, n: nat, ev: Event)
    requires n <= |h|
    ensures Ledger(rules, h + [ev], n) == AdvanceAll(Ledger(rules, h, n), ev)
  {
    if n > 0 {
      LedgerUnfolds(rules, h, n);
      LedgerUnfolds(rules, h + [ev], n);
      hide OpenedBy, AdvanceAll, Ledger;
      LedgerSnoc(rules, h, n - 1, ev);
      OpenedSnoc(rules, RowKind, h, n - 1, ev);
      OpenedSnoc(rules, ColumnKind, h, n - 1, ev);
      AdvanceConcat3(Ledger(rules, h, n - 1), OpenedBy(rules, RowKind, h, n - 1),
        OpenedBy(rules, ColumnKind, h, n - 1), ev);
    }
  }

  lemma AdvanceConcat3(a: seq<Exp>, b: seq<Exp>, d: seq<Exp>, ev: Event)
    ensures AdvanceAll(a + b + d, ev) == AdvanceAll(a, ev) + AdvanceAll(b, ev) + AdvanceAll(d, ev)
  {
    AdvanceConcat(a, b, ev);
    AdvanceConcat(a + b, d, ev);
  }

  // ----- what the event opens -----

  function NewCols(r: Rule, cols: seq<Id>, now: int): seq<Exp> {
    if cols == [] then []
    else
      var before, c := cols[..|cols| - 1], cols[|cols| - 1];
      NewCols(r, before, now) + (if c in before then [] else [NewExp(r, c, now)])
  }

  predicate FiresFirst(r: Rule, kind: Kind, h: seq<Event>, ev: Event) {
    r.kind == kind && FirstFire(r, h) == |h| && Triggers(r, ev)
  }

  function Fresh(rules: seq<Rule>, kind: Kind, h: seq<Event>, ev: Event): seq<Exp> {
    if rules == [] then []
    else
      var r := rules[|rules| - 1];
      Fresh(rules[..|rules| - 1], kind, h, ev) +
        (if FiresFirst(r, kind, h, ev) then NewCols(r, r.expected, Now(ev)) else [])
  }

  lemma NewEntry(r: Rule, c: Id, h: seq<Event>, ev: Event)
    ensures Entry(r, c, h + [ev], |h|) == Advance(NewExp(r, c, Now(ev)), ev)
  {
    var due := DefaultDueAt(Now(ev), r.within);
    assert (h + [ev])[..|h|] == h && (h + [ev])[|h|] == ev;
    assert FateOf(h, |h|, c, due) == Waiting;
    assert FateOf(h + [ev], |h|, c, due) == FateOn(ev, c, due);
  }

  lemma {:induction false} NewEntries(r: Rule, cols: seq<Id>, h: seq<Event>, ev: Event)
    ensures EntriesOf(r, cols, h + [ev], |h|) == AdvanceAll(NewCols(r, cols, Now(ev)), ev)
  {
    if cols != [] {
      var before, c := cols[..|cols| - 1], cols[|cols| - 1];
      NewEntries(r, before, h, ev);
      NewEntry(r, c, h, ev);
      AdvanceConcat(NewCols(r, before, Now(ev)), if c in before then [] else [NewExp(r, c, Now(ev))], ev);
    }
  }

  lemma {:induction false} FreshOpened(rules: seq<Rule>, kind: Kind, h: seq<Event>, ev: Event)
    ensures OpenedBy(rules, kind, h + [ev], |h|) == AdvanceAll(Fresh(rules, kind, h, ev), ev)
  {
    if rules != [] {
      var rest, r := rules[..|rules| - 1], rules[|rules| - 1];
      FreshOpened(rest, kind, h, ev);
      FirstFireSnoc(r, h, ev);
      NewEntries(r, r.expected, h, ev);
      AdvanceConcat(Fresh(rest, kind, h, ev),
                    if FiresFirst(r, kind, h, ev) then NewCols(r, r.expected, Now(ev)) else [], ev);
    }
  }

  /** The ledger after one more event: the old entries and the fresh ones, all aged by that event. */
  lemma {:induction false} LedgerStep(rules: seq<Rule>, h: seq<Event>, ev: Event)
    ensures Ledger(rules, h + [ev], |h| + 1)
            == AdvanceAll(Ledger(rules, h, |h|) + Fresh(rules, RowKind, h, ev) + Fresh(rules, ColumnKind, h, ev), ev)
  {
    LedgerSnoc(rules, h, |h|, ev);
    FreshOpened(rules, RowKind, h, ev);
    FreshOpened(rules, ColumnKind, h, ev);
    AdvanceConcat(Ledger(rules, h, |h|), Fresh(rules, RowKind, h, ev), ev);
    AdvanceConcat(Ledger(rules, h, |h|) + Fresh(rules, RowKind, h, ev), Fresh(rules, ColumnKind, h, ev), ev);
  }

  // ----- which keys and pairs the ledger holds -----

  lemma {:induction false} EntriesPairs(r: Rule, cols: seq<Id>, h: seq<Event>, t: nat, key: string, c: Id)
    requires t < |h|
    ensures HasExp(EntriesOf(r, cols, h, t), key, c) <==> key == r.key && c in cols
  {
    if cols != [] {
      var before, k := cols[..|cols| - 1], cols[|cols| - 1];
      assert cols == before + [k];
      EntriesPairs(r, before, h, t, key, c);
      HasExpConcat(EntriesOf(r, before, h, t), if k in before then [] else [Entry(r, k, h, t)], key, c);
      assert HasExp([Entry(r, k, h, t)], key, c) <==> key == r.key && c == k by {
        assert Entry(r, k, h, t) in [Entry(r, k, h, t)];
      }
    }
  }

  lemma HasExpConcat(a: seq<Exp>, b: seq<Exp>, key: string, c: Id)
    ensures HasExp(a + b, key, c) <==> HasExp(a, key, c) || HasExp(b, key, c)
  {
    if HasExp(a, key, c) {
      var e :| e in a && e.key == key && e.col == c;
      assert e in a + b;
    }
    if HasExp(b, key, c) {
      var e :| e in b && e.key == key && e.col == c;
      assert e in a + b;
    }
  }

  /** Some rule with this key and column first fired at position t. */
  ghost predicate OpensPair(rules: seq<Rule>, h: seq<Event>, t: nat, kind: Kind, key: string, c: Id) {
    exists r :: r in rules && r.kind == kind && FirstFire(r, h) == t && r.key == key && c in r.expected
  }

  lemma {:induction false} OpenedPairs(rules: seq<Rule>, kind: Kind, h: seq<Event>, t: nat, key: string, c: Id)
    requires t < |h|
    ensures HasExp(OpenedBy(rules, kind, h, t), key, c) <==> OpensPair(rules, h, t, kind, key, c)
  {
    if rules != [] {
      var rest, r := rules[..|rules| - 1], rules[|rules| - 1];
      assert rules == rest + [r];
      OpenedPairs(rest, kind, h, t, key, c);
      EntriesPairs(r, r.expected, h, t, key, c);
      HasExpConcat(OpenedBy(rest, kind, h, t),
                   if r.kind == kind && FirstFire(r, h) == t then EntriesOf(r, r.expected, h, t) else [], key, c);
    }
  }

  ghost predicate FiredPair(rules: seq<Rule>, h: seq<Event>, n: nat, key: string, c: Id) {
    exists r :: r in rules && r.kind != OtherKind && FirstFire(r, h) < n && r.key == key && c in r.expected
  }

  lemma {:induction false} LedgerPairs(rules: seq<Rule>, h: seq<Event>, n: nat, key: string, c: Id)
    requires n <= |h|
    ensures HasExp(Ledger(rules, h, n), key, c) <==> FiredPair(rules, h, n, key, c)
  {
    hide *;
    if n == 0 {
      NoPairsYet(rules, h, key, c);
    } else {
      LedgerPairs(rules, h, n - 1, key, c);
      LedgerPairsStep(rules, h, n, key, c);
      FiredPairStep(rules, h, n, key, c);
    }
  }

  lemma {:induction false} NoPairsYet(rules: seq<Rule>, h: seq<Event>, key: string, c: Id)
    ensures !HasExp(Ledger(rules, h, 0), key, c) && !FiredPair(rules, h, 0, key, c)
  {
  }

  lemma LedgerPairsStep(rules: seq<Rule>, h: seq<Event>, n: nat, key: string, c: Id)
    requires 0 < n <= |h|
    ensures HasExp(Ledger(rules, h, n), key, c) <==>
            || HasExp(Ledger(rules, h, n - 1), key, c)
            || OpensPair(rules, h, n - 1, RowKind, key, c)
            || OpensPair(rules, h, n - 1, ColumnKind, key, c)
  {
    hide HasExp, OpensPair;
    var a, b, d := Ledger(rules, h, n - 1), OpenedBy(rules, RowKind, h, n - 1), OpenedBy(rules, ColumnKind, h, n - 1);
    OpenedPairs(rules, RowKind, h, n - 1, key, c);
    OpenedPairs(rules, ColumnKind, h, n - 1, key, c);
    HasExpConcat3(Ledger(rules, h, n), a, b, d, key, c);
  }

  lemma HasExpConcat3(l: seq<Exp>, a: seq<Exp>, b: seq<Exp>, d: seq<Exp>, key: string, c: Id)
    requires l == a + b + d
    ensures HasExp(l, key, c) <==> HasExp(a, key, c) || HasExp(b, key, c) || HasExp(d, key, c)
  {
    HasExpConcat(a, b, key, c);
    HasExpConcat(a + b, d, key, c);
  }

  lemma FiredPairStep(rules: seq<Rule>, h: seq<Event>, n: nat, key: string, c: Id)
    requires 0 < n <= |h|
    ensures FiredPair(rules, h, n, key, c) <==>
            || FiredPair(rules, h, n - 1, key, c)
            || OpensPair(rules, h, n - 1, RowKind, key, c)
            || OpensPair(rules, h, n - 1, ColumnKind, key, c)
  {
  }

  /** A ledger that holds exactly the pairs of the rules fired in `h`. */
  ghost predicate Matches(exps: seq<Exp>, rules: seq<Rule>, h: seq<Event>) {
    forall key, c {:trigger HasExp(exps, key, c)} :: HasExp(exps, key, c) <==> FiredPair(rules, h, |h|, key, c)
  }

  lemma {:induction false} KeysApart(rules: seq<Rule>, a: Rule, b: Rule)
    requires DistinctKeys(rules) && a in rules && b in rules && a.key == b.key
    ensures a == b
  {
    var rest, r := rules[..|rules| - 1], rules[|rules| - 1];
    assert rules == rest + [r];
    if a in rest && b in rest {
      KeysApart(rest, a, b);
    }
  }

  lemma KeyHasPair(exps: seq<Exp>, key: string)
    ensures HasKey(exps, key) <==> exists c: Id :: HasExp(exps, key, c)
  {
    if HasKey(exps, key) {
      var e :| e in exps && e.key == key;
      assert HasExp(exps, key, e.col);
    }
  }

  /** Under distinct keys the ledger tells for each rule whether it fired. */
  lemma {:induction false} RuleInLedger(exps: seq<Exp>, rules: seq<Rule>, h: seq<Event>, r: Rule)
    requires Matches(exps, rules, h) && DistinctKeys(rules) && r in rules && r.kind != OtherKind
    ensures FirstFire(r, h) < |h| ==> forall c :: c in r.expected ==> HasExp(exps, r.key, c)
    ensures FirstFire(r, h) == |h| ==> !HasKey(exps, r.key)
  {
    forall c | FirstFire(r, h) < |h| && c in r.expected
      ensures HasExp(exps, r.key, c)
    {
      assert FiredPair(rules, h, |h|, r.key, c);
    }
    if FirstFire(r, h) == |h| {
      forall c: Id
        ensures !HasExp(exps, r.key, c)
      {
        if FiredPair(rules, h, |h|, r.key, c) {
          var q :| q in rules && FirstFire(q, h) < |h| && q.key == r.key && c in q.expected;
          KeysApart(rules, q, r);
        }
      }
      KeyHasPair(exps, r.key);
    }
  }

  // ----- the firing loops open exactly the fresh entries -----

  lemma {:induction false} NewColsPairs(r: Rule, cols: seq<Id>, now: int, key: string, c: Id)
    ensures HasExp(NewCols(r, cols, now), key, c) <==> key == r.key && c in cols
  {
    if cols != [] {
      var before, k := cols[..|cols| - 1], cols[|cols| - 1];
      assert cols == before + [k];
      NewColsPairs(r, before, now, key, c);
      HasExpConcat(NewCols(r, before, now), if k in before then [] else [NewExp(r, k, now)], key, c);
      assert HasExp([NewExp(r, k, now)], key, c) <==> key == r.key && c == k by {
        assert NewExp(r, k, now) in [NewExp(r, k, now)];
      }
    }
  }

  lemma {:induction false} OpenColsFresh(exps: seq<Exp>, r: Rule, cols: seq<Id>, now: int)
    requires !HasKey(exps, r.key)
    ensures OpenCols(exps, r, cols, now) == exps + NewCols(r, cols, now)
  {
    if cols != [] {
      var before, c := cols[..|cols| - 1], cols[|cols| - 1];
      OpenColsFresh(exps, r, before, now);
      HasExpConcat(exps, NewCols(r, before, now), r.key, c);
      NewColsPairs(r, before, now, r.key, c);
      KeyHasPair(exps, r.key);
    }
  }

  lemma {:induction false} FreshKeys(rules: seq<Rule>, kind: Kind, h: seq<Event>, ev: Event, key: string)
    ensures HasKey(Fresh(rules, kind, h, ev), key) ==> exists r :: r in rules && r.kind == kind && r.key == key
  {
    if rules != [] && HasKey(Fresh(rules, kind, h, ev), key) {
      var rest, r := rules[..|rules| - 1], rules[|rules| - 1];
      assert rules == rest + [r];
      FreshKeys(rest, kind, h, ev, key);
      var e :| e in Fresh(rules, kind, h, ev) && e.key == key;
      if e in Fresh(rest, kind, h, ev) {
        assert HasKey(Fresh(rest, kind, h, ev), key);
      } else {
        NewColsPairs(r, r.expected, Now(ev), key, e.col);
        assert HasExp(NewCols(r, r.expected, Now(ev)), key, e.col);
      }
    }
  }

  lemma HasKeyConcat(a: seq<Exp>, b: seq<Exp>, key: string)
    ensures HasKey(a + b, key) <==> HasKey(a, key) || HasKey(b, key)
  {
    if HasKey(a, key) { var e :| e in a && e.key == key; assert e in a + b; }
    if HasKey(b, key) { var e :| e in b && e.key == key; assert e in a + b; }
  }

  lemma {:induction false} FireUpdatesFresh(exps: seq<Exp>, all: seq<Rule>, rules: seq<Rule>, h: seq<Event>, ev: Event)
    requires ev.Update? && Matches(exps, all, h) && DistinctKeys(all) && rules <= all
    ensures FireUpdates(Firing(exps, {}), rules, ev.c, ev.w.filled, ev.now).exps ==
            exps + Fresh(rules, ColumnKind, h, ev)
  {
    if rules != [] {
      hide Fresh, Matches, DistinctKeys;
      FireUpdatesFresh(exps, all, rules[..|rules| - 1], h, ev);
      UpdateOneMore(exps, all, rules, h, ev,
        FireUpdates(Firing(exps, {}), rules[..|rules| - 1], ev.c, ev.w.filled, ev.now));
    }
  }

  lemma {:induction false} UpdateOneMore(exps: seq<Exp>, all: seq<Rule>, rules: seq<Rule>, h: seq<Event>, ev: Event,
                                         s: Firing)
    requires ev.Update? && Matches(exps, all, h) && DistinctKeys(all) && rules <= all && rules != []
    requires s.exps == exps + Fresh(rules[..|rules| - 1], ColumnKind, h, ev)
    ensures FireUpdate(s, rules[|rules| - 1], ev.c, ev.w.filled, ev.now).exps == exps + Fresh(rules, ColumnKind, h, ev)
  {
    hide *;
    LastOfPrefix(all, rules);
    var r := rules[|rules| - 1];
    FreshLast(rules, ColumnKind, h, ev);
    NowOf(ev);
    var before, new_ := Fresh(rules[..|rules| - 1], ColumnKind, h, ev), NewCols(r, r.expected, ev.now);
    if r.kind == ColumnKind { UpdateTurn(exps, all, rules, h, ev); }
    UpdateMove(s, r, h, ev);
    LaterFirst(exps, before, new_);
  }

  lemma LaterFirst(a: seq<Exp>, b: seq<Exp>, c: seq<Exp>)
    ensures a + b + c == a + (b + c)
  {
  }

  lemma LastOfPrefix(all: seq<Rule>, rules: seq<Rule>)
    requires rules <= all && rules != []
    ensures rules[|rules| - 1] in all
  {
    assert all[|rules| - 1] == rules[|rules| - 1];
  }

  lemma NowOf(ev: Event)
    ensures Now(ev) == ev.now
  {
  }

  lemma {:induction false} UpdateMove(s: Firing, r: Rule, h: seq<Event>, ev: Event)
    requires ev.Update?
    requires r.kind == ColumnKind && FirstFire(r, h) < |h| ==> Fire(s.exps, r, ev.now) == s.exps
    requires r.kind == ColumnKind && FirstFire(r, h) == |h| ==> !HasKey(s.exps, r.key)
    ensures FireUpdate(s, r, ev.c, ev.w.filled, ev.now).exps ==
            if FiresFirst(r, ColumnKind, h, ev) then Fire(s.exps, r, ev.now) else s.exps
    ensures FiresFirst(r, ColumnKind, h, ev) ==> r.kind == ColumnKind && FirstFire(r, h) == |h|
  {
    hide Fire;
  }

  /** A column rule's turn at an update: it opens everything it expects the first time, nothing later. */
  lemma {:induction false} UpdateTurn(exps: seq<Exp>, all: seq<Rule>, rules: seq<Rule>, h: seq<Event>, ev: Event)
    requires ev.Update? && Matches(exps, all, h) && DistinctKeys(all)
    requires rules != [] && rules <= all && rules[|rules| - 1] in all && rules[|rules| - 1].kind == ColumnKind
    ensures var r, before := rules[|rules| - 1], exps + Fresh(rules[..|rules| - 1], ColumnKind, h, ev);
            && (FirstFire(r, h) < |h| ==> Fire(before, r, ev.now) == before)
            && (FirstFire(r, h) == |h| ==> !HasKey(before, r.key))
            && (FirstFire(r, h) == |h| ==> Fire(before, r, ev.now) == before + NewCols(r, r.expected, ev.now))
  {
    var rest, r := rules[..|rules| - 1], rules[|rules| - 1];
    RuleInLedger(exps, all, h, r);
    if FirstFire(r, h) < |h| {
      AlreadyFired(exps, Fresh(rest, ColumnKind, h, ev), r, ev.now);
    } else {
      NotYetFired(exps, all, rules, h, ev);
      OpenColsFresh(exps + Fresh(rest, ColumnKind, h, ev), r, r.expected, ev.now);
    }
  }

  lemma AlreadyFired(exps: seq<Exp>, more: seq<Exp>, r: Rule, now: int)
    requires forall c :: c in r.expected ==> HasExp(exps, r.key, c)
    ensures Fire(exps + more, r, now) == exps + more
  {
    forall c | c in r.expected
      ensures HasExp(exps + more, r.key, c)
    {
      HasExpConcat(exps, more, r.key, c);
    }
    OpenColsNothing(exps + more, r, r.expected, now);
  }

  lemma NotYetFired(exps: seq<Exp>, all: seq<Rule>, rules: seq<Rule>, h: seq<Event>, ev: Event)
    requires rules != [] && rules <= all && DistinctKeys(all)
    requires !HasKey(exps, rules[|rules| - 1].key)
    ensures !HasKey(exps + Fresh(rules[..|rules| - 1], ColumnKind, h, ev), rules[|rules| - 1].key)
  {
    var rest, r := rules[..|rules| - 1], rules[|rules| - 1];
    DistinctPrefix(all, rules);
    FreshKeys(rest, ColumnKind, h, ev, r.key);
    assert !KeyIn(rest, r.key);
    HasKeyConcat(exps, Fresh(rest, ColumnKind, h, ev), r.key);
  }

  lemma {:induction false} DistinctPrefix(all: seq<Rule>, rules: seq<Rule>)
    requires DistinctKeys(all) && rules <= all
    ensures DistinctKeys(rules)
    decreases |all|
  {
    if rules == all {
    } else {
      assert rules <= all[..|all| - 1];
      DistinctPrefix(all[..|all| - 1], rules);
    }
  }

  // ----- creation -----

  lemma {:induction false} FireRowsFresh(all: seq<Rule>, rules: seq<Rule>, ev: Event)
    requires ev.Create? && DistinctKeys(all) && rules <= all
    ensures FireRows(Firing([], {}), rules, ev.now).exps == Fresh(rules, RowKind, [], ev)
    ensures FiredRows(FireRows(Firing([], {}), rules, ev.now).fired, rules)
  {
    if rules != [] {
      hide FiredRows, DistinctKeys, Fresh;
      var rest, r := rules[..|rules| - 1], rules[|rules| - 1];
      FireRowsFresh(all, rest, ev);
      FiredRowsGrow(FireRows(Firing([], {}), rest, ev.now).fired, rules);
      RowTurn(all, rules, ev);
    }
  }

  /** Every fired key is that of a row rule. */
  ghost predicate FiredRows(fired: set<string>, rules: seq<Rule>) {
    forall key :: key in fired ==> exists r :: r in rules && r.kind == RowKind && r.key == key
  }

  lemma FiredRowsGrow(fired: set<string>, rules: seq<Rule>)
    requires rules != [] && FiredRows(fired, rules[..|rules| - 1])
    ensures FiredRows(fired, rules)
    ensures rules[|rules| - 1].kind == RowKind ==> FiredRows(fired + {rules[|rules| - 1].key}, rules)
  {
    SnocMembers(rules);
  }

  /** A row rule's turn at creation: its key is new, so it opens everything it expects. */
  lemma RowTurn(all: seq<Rule>, rules: seq<Rule>, ev: Event)
    requires ev.Create? && DistinctKeys(all) && rules <= all && rules != []
    ensures var rest, r := rules[..|rules| - 1], rules[|rules| - 1];
            FireRow(Firing(Fresh(rest, RowKind, [], ev), {}), r, ev.now).exps == Fresh(rules, RowKind, [], ev)
  {
    var rest, r := rules[..|rules| - 1], rules[|rules| - 1];
    DistinctPrefix(all, rules);
    assert !KeyIn(rest, r.key);
    FreshKeys(rest, RowKind, [], ev, r.key);
    OpenColsFresh(Fresh(rest, RowKind, [], ev), r, r.expected, ev.now);
  }

  /** Every fired key is that of a row rule, or of one of the first column rules. */
  ghost predicate FiredAmong(fired: set<string>, all: seq<Rule>, rules: seq<Rule>) {
    forall key :: key in fired ==> exists r: Rule :: r.key == key && ((r in all && r.kind == RowKind) || r in rules)
  }

  lemma FiredGrows(fired: set<string>, all: seq<Rule>, rules: seq<Rule>)
    requires rules != [] && FiredAmong(fired, all, rules[..|rules| - 1])
    ensures FiredAmong(fired, all, rules) && FiredAmong(fired + {rules[|rules| - 1].key}, all, rules)
  {
    assert rules[|rules| - 1] in rules;
  }

  lemma {:induction false} PrefilledFresh(all: seq<Rule>, rules: seq<Rule>, ev: Event)
    requires ev.Create? && DistinctKeys(all) && rules <= all
    ensures var s := FireAllPrefilled(FireRows(Firing([], {}), all, ev.now), rules, ev.w.filled, ev.now);
            && s.exps == Fresh(all, RowKind, [], ev) + Fresh(rules, ColumnKind, [], ev)
            && FiredAmong(s.fired, all, rules)
  {
    if rules == [] {
      FireRowsFresh(all, all, ev);
    } else {
      hide FiredAmong, DistinctKeys, Fresh;
      PrefilledFresh(all, rules[..|rules| - 1], ev);
      var s := FireAllPrefilled(FireRows(Firing([], {}), all, ev.now), rules[..|rules| - 1], ev.w.filled, ev.now);
      FiredGrows(s.fired, all, rules);
      PrefilledStep(all, rules, ev, s);
    }
  }

  lemma {:induction false} PrefilledStep(all: seq<Rule>, rules: seq<Rule>, ev: Event, s: Firing)
    requires ev.Create? && DistinctKeys(all) && rules <= all && rules != []
    requires s.exps == Fresh(all, RowKind, [], ev) + Fresh(rules[..|rules| - 1], ColumnKind, [], ev)
    requires FiredAmong(s.fired, all, rules[..|rules| - 1])
    ensures FirePrefilled(s, rules[|rules| - 1], ev.w.filled, ev.now).exps ==
            Fresh(all, RowKind, [], ev) + Fresh(rules, ColumnKind, [], ev)
  {
    hide *;
    var r := rules[|rules| - 1];
    FreshLast(rules, ColumnKind, [], ev);
    if FiresFirst(r, ColumnKind, [], ev) {
      FirstIsColumn(r, ev);
      PrefilledTurn(all, rules, ev, s);
    }
    PrefilledMove(s, r, ev);
    LaterFirst(Fresh(all, RowKind, [], ev), Fresh(rules[..|rules| - 1], ColumnKind, [], ev),
      NewCols(r, r.expected, ev.now));
  }

  lemma FirstIsColumn(r: Rule, ev: Event)
    requires FiresFirst(r, ColumnKind, [], ev) && ev.Create?
    ensures r.kind == ColumnKind && Now(ev) == ev.now
  {
  }

  lemma PrefilledMove(s: Firing, r: Rule, ev: Event)
    requires ev.Create?
    requires FiresFirst(r, ColumnKind, [], ev) ==> r.key !in s.fired
    ensures FirePrefilled(s, r, ev.w.filled, ev.now).exps ==
            if FiresFirst(r, ColumnKind, [], ev) then Fire(s.exps, r, ev.now) else s.exps
  {
  }

  lemma {:induction false} FreshLast(rules: seq<Rule>, kind: Kind, h: seq<Event>, ev: Event)
    requires rules != []
    ensures var r, before := rules[|rules| - 1], Fresh(rules[..|rules| - 1], kind, h, ev);
            Fresh(rules, kind, h, ev) ==
            if FiresFirst(r, kind, h, ev) then before + NewCols(r, r.expected, Now(ev)) else before
  {
  }

  /** A column rule's turn at creation: neither its key nor its entries are there yet. */
  lemma {:induction false} PrefilledTurn(all: seq<Rule>, rules: seq<Rule>, ev: Event, s: Firing)
    requires ev.Create? && DistinctKeys(all) && rules <= all && rules != [] && rules[|rules| - 1].kind == ColumnKind
    requires s.exps == Fresh(all, RowKind, [], ev) + Fresh(rules[..|rules| - 1], ColumnKind, [], ev)
    requires FiredAmong(s.fired, all, rules[..|rules| - 1])
    ensures var r := rules[|rules| - 1];
            r.key !in s.fired && Fire(s.exps, r, ev.now) == s.exps + NewCols(r, r.expected, ev.now)
  {
    var rest, r := rules[..|rules| - 1], rules[|rules| - 1];
    assert r in all;
    DistinctPrefix(all, rules);
    assert !KeyIn(rest, r.key);
    forall q | q in all && q.kind == RowKind
      ensures q.key != r.key
    {
      if q.key == r.key { KeysApart(all, q, r); }
    }
    FreshKeys(all, RowKind, [], ev, r.key);
    FreshKeys(rest, ColumnKind, [], ev, r.key);
    HasKeyConcat(Fresh(all, RowKind, [], ev), Fresh(rest, ColumnKind, [], ev), r.key);
    OpenColsFresh(s.exps, r, r.expected, ev.now);
  }

  // ----- entries without their notices -----

  function Core(e: Exp): Exp {
    e.(notified := [])
  }

  function Cores(exps: seq<Exp>): (r: seq<Exp>)
    ensures |r| == |exps|
    ensures forall i {:trigger r[i]} :: 0 <= i < |r| ==> r[i] == Core(exps[i])
  {
    seq(|exps|, i requires 0 <= i < |exps| => Core(exps[i]))
  }

  lemma CoresAlike(exps: seq<Exp>)
    ensures LedgersAlike(exps, Cores(exps))
  {
    forall i | 0 <= i < |exps| ensures ClosedAlike(exps[i], Cores(exps)[i]) { }
  }

  lemma CoresPairs(exps: seq<Exp>, key: string, c: Id)
    ensures HasExp(exps, key, c) <==> HasExp(Cores(exps), key, c)
  {
    if HasExp(exps, key, c) {
      var i :| 0 <= i < |exps| && exps[i].key == key && exps[i].col == c;
      assert Cores(exps)[i] in Cores(exps);
    }
    if HasExp(Cores(exps), key, c) {
      var i :| 0 <= i < |exps| && Cores(exps)[i].key == key && Cores(exps)[i].col == c;
      assert exps[i] in exps;
    }
  }

  lemma {:induction false} LedgerMatches(exps: seq<Exp>, rules: seq<Rule>, h: seq<Event>)
    requires Cores(exps) == Ledger(rules, h, |h|)
    ensures Matches(exps, rules, h)
  {
    forall key, c: Id
      ensures HasExp(exps, key, c) <==> FiredPair(rules, h, |h|, key, c)
    {
      CoresPairs(exps, key, c);
      LedgerPairs(rules, h, |h|, key, c);
    }
  }

  lemma {:induction false} FreshAreCores(rules: seq<Rule>, kind: Kind, h: seq<Event>, ev: Event)
    ensures Cores(Fresh(rules, kind, h, ev)) == Fresh(rules, kind, h, ev)
  {
    if rules != [] {
      FreshAreCores(rules[..|rules| - 1], kind, h, ev);
      var r := rules[|rules| - 1];
      NewColsAreCores(r, r.expected, Now(ev));
      CoresConcat(Fresh(rules[..|rules| - 1], kind, h, ev),
                  if FiresFirst(r, kind, h, ev) then NewCols(r, r.expected, Now(ev)) else []);
    }
  }

  lemma {:induction false} NewColsAreCores(r: Rule, cols: seq<Id>, now: int)
    ensures Cores(NewCols(r, cols, now)) == NewCols(r, cols, now)
  {
    if cols != [] { NewColsAreCores(r, cols[..|cols| - 1], now); }
  }

  lemma CoresConcat(a: seq<Exp>, b: seq<Exp>)
    ensures Cores(a + b) == Cores(a) + Cores(b)
  {
  }

  lemma {:induction false} NothingFresh(rules: seq<Rule>, kind: Kind, h: seq<Event>, ev: Event)
    requires (ev.Update? && kind == RowKind) || ev.SweepAt?
    ensures Fresh(rules, kind, h, ev) == []
  {
    if rules != [] { NothingFresh(rules[..|rules| - 1], kind, h, ev); }
  }

  // ----- one event on a live run -----

  lemma {:induction false} CreateRefines(rules: seq<Rule>, ev: Event)
    requires ev.Create? && ev.rules == rules && DistinctKeys(rules)
    ensures var run := CreateStep(rules, ev.w, ev.now);
            Cores(run.exps) == Ledger(rules, [ev], 1) && (run.status == Completed <==> QuietAt(rules, [ev]))
  {
    hide Ledger, Fresh, Cores, AdvanceAll, SatisfyIn, NotifyAll, Quiescent, LedgersAlike, FireRows, FireAllPrefilled,
      DistinctKeys;
    var opens := OpenedAtCreation(rules, ev.w.filled, ev.now).exps;
    FirstLedger(rules, ev);
    var run := CreateStep(rules, ev.w, ev.now);
    CreateAges(opens, rules, ev);
    CoresAlike(run.exps);
    AlikeQuiescent(run.exps, Cores(run.exps), rules, ev.w.filled);
    QuiescentIsNothingLeft(Cores(run.exps), rules, ev.w.filled);
  }

  /** The declarative ledger of a creation alone: what creation opens, aged by it. */
  lemma {:induction false} FirstLedger(rules: seq<Rule>, ev: Event)
    requires ev.Create? && ev.rules == rules && DistinctKeys(rules)
    ensures var opens := OpenedAtCreation(rules, ev.w.filled, ev.now).exps;
            Cores(opens) == opens && Ledger(rules, [ev], 1) == AdvanceAll(opens, ev)
  {
    NoLedgerYet(rules);
    PrefilledFresh(rules, rules, ev);
    hide Ledger, Fresh, AdvanceAll, FireRows, FireAllPrefilled, DistinctKeys;
    LedgerStep(rules, [], ev);
    var a, b := Fresh(rules, RowKind, [], ev), Fresh(rules, ColumnKind, [], ev);
    NothingBefore(ev, a, b);
    hide Cores;
    FreshAreCores(rules, RowKind, [], ev);
    FreshAreCores(rules, ColumnKind, [], ev);
    CoresConcat(a, b);
  }

  lemma {:induction false} NoLedgerYet(rules: seq<Rule>)
    ensures Ledger(rules, [], 0) == []
  {
  }

  lemma NothingBefore(ev: Event, a: seq<Exp>, b: seq<Exp>)
    ensures [] + [ev] == [ev] && [] + a + b == a + b
  {
  }

  lemma CreateAges(opens: seq<Exp>, rules: seq<Rule>, ev: Event)
    requires ev.Create?
    ensures Cores(NotifyAll(SatisfyIn(opens, ev.w.filled, ev.now), rules, ev.w)) == AdvanceAll(Cores(opens), ev)
  {
    var mid := SatisfyIn(opens, ev.w.filled, ev.now);
    var out := NotifyAll(mid, rules, ev.w);
    forall i | 0 <= i < |opens|
      ensures Cores(out)[i] == Advance(Cores(opens)[i], ev)
    {
      assert out[i] == Notified(mid[i], rules, ev.w) && mid[i] == Satisfied(opens[i], ev.w.filled, ev.now);
    }
  }

  lemma UpdateAges(opens: seq<Exp>, rules: seq<Rule>, ev: Event)
    requires ev.Update?
    ensures Cores(NotifyAll(SatisfyIn(opens, {ev.c}, ev.now), rules, ev.w)) == AdvanceAll(Cores(opens), ev)
  {
    var mid := SatisfyIn(opens, {ev.c}, ev.now);
    var out := NotifyAll(mid, rules, ev.w);
    forall i | 0 <= i < |opens|
      ensures Cores(out)[i] == Advance(Cores(opens)[i], ev)
    {
      assert out[i] == Notified(mid[i], rules, ev.w) && mid[i] == Satisfied(opens[i], {ev.c}, ev.now);
    }
  }

  lemma {:induction false} UpdateRefines(run: Run, rules: seq<Rule>, h: seq<Event>, ev: Event)
    requires ev.Update? && ev.rules == rules && DistinctKeys(rules)
    requires run.status == Active && Cores(run.exps) == Ledger(rules, h, |h|)
    ensures var next := UpdateStep(run, rules, ev.c, ev.w, ev.now);
            Cores(next.exps) == Ledger(rules, h + [ev], |h| + 1) &&
              (next.status == Completed <==> QuietAt(rules, h + [ev]))
  {
    hide Ledger, Fresh, Cores, AdvanceAll, SatisfyIn, NotifyAll, Quiescent, LedgersAlike, FireUpdates, Matches,
      DistinctKeys;
    LedgerMatches(run.exps, rules, h);
    FireUpdatesFresh(run.exps, rules, rules, h, ev);
    var opens := run.exps + Fresh(rules, ColumnKind, h, ev);
    LedgerStep(rules, h, ev);
    NothingFresh(rules, RowKind, h, ev);
    assert Ledger(rules, h, |h|) + [] == Ledger(rules, h, |h|);
    FreshAreCores(rules, ColumnKind, h, ev);
    CoresConcat(run.exps, Fresh(rules, ColumnKind, h, ev));
    UpdateAges(opens, rules, ev);
    var next := UpdateStep(run, rules, ev.c, ev.w, ev.now);
    CoresAlike(next.exps);
    AlikeQuiescent(next.exps, Cores(next.exps), rules, ev.w.filled);
    QuiescentIsNothingLeft(Cores(next.exps), rules, ev.w.filled);
  }

  lemma SweepAges(exps: seq<Exp>, ev: Event)
    requires ev.SweepAt?
    ensures Cores(BreachAll(exps, ev.now)) == AdvanceAll(Cores(exps), ev)
    ensures BreachAll(exps, ev.now) == exps <==> AdvanceAll(Cores(exps), ev) == Cores(exps)
  {
    var out := BreachAll(exps, ev.now);
    forall i | 0 <= i < |exps|
      ensures Cores(out)[i] == Advance(Cores(exps)[i], ev)
      ensures out[i] == exps[i] <==> Cores(out)[i] == Cores(exps)[i]
    {
      assert out[i] == Breached(exps[i], ev.now);
    }
  }

  lemma {:induction false} SweepRefines(run: Run, rules: seq<Rule>, h: seq<Event>, ev: Event)
    requires ev.SweepAt? && UsesRules(ev, rules)
    requires run.status == Active && Cores(run.exps) == Ledger(rules, h, |h|)
    ensures var next := SweepStep(run, ev.proc, ev.w, ev.now);
            Cores(next.exps) == Ledger(rules, h + [ev], |h| + 1) &&
              (next.status == Completed <==> QuietAt(rules, h + [ev]))
  {
    hide Ledger, Fresh, Cores, AdvanceAll, BreachAll, Quiescent, LedgersAlike, HasOpenDue;
    LedgerStep(rules, h, ev);
    NothingFresh(rules, RowKind, h, ev);
    NothingFresh(rules, ColumnKind, h, ev);
    assert Ledger(rules, h, |h|) + [] + [] == Ledger(rules, h, |h|);
    SweepAges(run.exps, ev);
    NoOpenDueNoBreach(run.exps, ev.now);
    var next := SweepStep(run, ev.proc, ev.w, ev.now);
    CoresAlike(next.exps);
    AlikeQuiescent(next.exps, Cores(next.exps), rules, ev.w.filled);
    QuiescentIsNothingLeft(Cores(next.exps), rules, ev.w.filled);
    assert (h + [ev])[..|h|] == h;
  }

  /**
   * After one creation and any updates and sweeps the ledger is the declarative one of the live
   * part of the history, and the run is completed exactly when that part went quiet.
   */
  lemma {:induction false} TraceRefinement(rules: seq<Rule>, h: seq<Event>)
    requires RowHistory(rules, h) && DistinctKeys(rules)
    ensures Play(h).Some?
    ensures var live := LivePart(rules, h);
            && Cores(Play(h).value.exps) == Ledger(rules, live, |live|)
            && (Play(h).value.status == Completed <==> QuietAt(rules, live))
  {
    if |h| == 1 {
      assert UsesRules(h[0], rules) && h == [h[0]];
      assert Play(h[..0]) == None;
      CreateRefines(rules, h[0]);
    } else {
      var before, ev := h[..|h| - 1], h[|h| - 1];
      HistoryPrefix(rules, h);
      TraceRefinement(rules, before);
      assert UsesRules(h[|h| - 1], rules);
      var live, run := LivePart(rules, before), Play(before).value;
      assert Play(h) == Step(Some(run), ev);
      assert LivePart(rules, h) == if QuietAt(rules, live) then live else live + [ev];
      hide Play, LivePart, Ledger, QuietAt, Cores, Step, RowHistory;
      TraceStep(rules, live, run, ev);
    }
  }

  /** One more event on a run that stands as its live history says. */
  lemma TraceStep(rules: seq<Rule>, live: seq<Event>, run: Run, ev: Event)
    requires live != [] && DistinctKeys(rules) && UsesRules(ev, rules) && !ev.Create?
    requires Cores(run.exps) == Ledger(rules, live, |live|) && (run.status == Completed <==> QuietAt(rules, live))
    ensures var next, now := Step(Some(run), ev), if QuietAt(rules, live) then live else live + [ev];
            && next.Some? && Cores(next.value.exps) == Ledger(rules, now, |now|)
            && (next.value.status == Completed <==> QuietAt(rules, now))
  {
    hide Ledger, QuietAt, Cores, DistinctKeys;
    if run.status == Active {
      if ev.Update? {
        UpdateRefines(run, rules, live, ev);
      } else {
        SweepRefines(run, rules, live, ev);
      }
    }
  }

  lemma HistoryPrefix(rules: seq<Rule>, h: seq<Event>)
    requires RowHistory(rules, h) && |h| > 1
    ensures RowHistory(rules, h[..|h| - 1]) && !h[|h| - 1].Create?
  {
    var before := h[..|h| - 1];
    assert UsesRules(h[|h| - 1], rules);
    forall i | 0 <= i < |before|
      ensures UsesRules(before[i], rules) && (i > 0 ==> !before[i].Create?)
    {
      assert UsesRules(h[i], rules);
    }
  }

  // ----- the deadline of an entry -----

  /** The entry belongs to a rule, and its deadline is that rule's window after its opening. */
  ghost predicate Windowed(e: Exp, rules: seq<Rule>) {
    exists r :: r in rules && r.key == e.key && e.dueAt == DefaultDueAt(e.openedAt, r.within)
  }

  lemma {:induction false} EntriesWindowed(r: Rule, cols: seq<Id>, h: seq<Event>, t: nat, e: Exp)
    requires t < |h| && e in EntriesOf(r, cols, h, t)
    ensures e.key == r.key && e.dueAt == DefaultDueAt(e.openedAt, r.within)
  {
    if e in EntriesOf(r, cols[..|cols| - 1], h, t) { EntriesWindowed(r, cols[..|cols| - 1], h, t, e); }
  }

  lemma {:induction false} OpenedWindowed(rules: seq<Rule>, kind: Kind, h: seq<Event>, t: nat, e: Exp)
    requires t < |h| && e in OpenedBy(rules, kind, h, t)
    ensures Windowed(e, rules)
  {
    var rest, r := rules[..|rules| - 1], rules[|rules| - 1];
    if e in OpenedBy(rest, kind, h, t) {
      OpenedWindowed(rest, kind, h, t, e);
      var q :| q in rest && q.key == e.key && e.dueAt == DefaultDueAt(e.openedAt, q.within);
      assert q in rules;
    } else {
      EntriesWindowed(r, r.expected, h, t, e);
    }
  }

  lemma MemberOfThree<T>(a: seq<T>, b: seq<T>, c: seq<T>, e: T)
    requires e in a + b + c
    ensures e in a || e in b || e in c
  {
  }

  lemma {:induction false} LedgerWindowed(rules: seq<Rule>, h: seq<Event>, n: nat, e: Exp)
    requires n <= |h| && e in Ledger(rules, h, n)
    ensures Windowed(e, rules)
  {
    hide OpenedBy, Windowed;
    LedgerUnfolds(rules, h, n);
    hide *;
    MemberOfThree(Ledger(rules, h, n - 1),
                  OpenedBy(rules, RowKind, h, n - 1), OpenedBy(rules, ColumnKind, h, n - 1), e);
    if e in Ledger(rules, h, n - 1) {
      LedgerWindowed(rules, h, n - 1, e);
    } else if e in OpenedBy(rules, RowKind, h, n - 1) {
      OpenedWindowed(rules, RowKind, h, n - 1, e);
    } else {
      OpenedWindowed(rules, ColumnKind, h, n - 1, e);
    }
  }

  /** A breached entry is at least its rule's window late, and a rule without a window never breaches. */
  lemma {:induction false} BreachesAreLate(rules: seq<Rule>, h: seq<Event>, i: nat)
    requires RowHistory(rules, h) && DistinctKeys(rules)
    requires Play(h).Some? && i < |Play(h).value.exps|
    ensures var e := Play(h).value.exps[i];
            exists r :: r in rules && r.key == e.key
                        && (e.breachedAt.Some? ==> r.within != 0 && e.breachedAt.value >= e.openedAt + r.within)
  {
    hide Play, RowHistory, DistinctKeys, Windowed, Ledger;
    var exps, live := Play(h).value.exps, LivePart(rules, h);
    TraceRefinement(rules, h);
    assert Cores(exps)[i] in Ledger(rules, live, |live|);
    LedgerWindowed(rules, live, |live|, Cores(exps)[i]);
    PlayOk(h);
    WindowedIsLate(exps[i], rules);
  }

  lemma WindowedIsLate(e: Exp, rules: seq<Rule>)
    requires Windowed(Core(e), rules) && EntryOk(e)
    ensures exists r :: r in rules && r.key == e.key
                        && (e.breachedAt.Some? ==> r.within != 0 && e.breachedAt.value >= e.openedAt + r.within)
  {
    var r :| r in rules && r.key == e.key && e.dueAt == DefaultDueAt(e.openedAt, r.within);
  }
}
