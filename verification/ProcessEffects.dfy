/**
 * What each event does to a run, said entry by entry and rule by rule: what is opened, closed and
 * announced, when the run is done, and that the reports tell exactly that.
 */
module ProcessEffects {
  import opened Common
  import opened ProcessRules
  import opened ProcessLedger
  import opened ProcessEngine
  import opened ProcessLaws
  import opened ProcessTrace

  // ----- what is opened -----

  /**
   * In every history the ledger holds an entry of rule `r` for column `c` exactly when the rule expects
   * the column and some event of the live part was an occasion for it.
   */
  lemma {:induction false} OpenedExactly(rules: seq<Rule>, h: seq<Event>, r: Rule, c: Id)
    requires RowHistory(rules, h) && DistinctKeys(rules) && r in rules && r.kind != OtherKind
    ensures Play(h).Some?
    ensures (exists e :: e in Play(h).value.exps && e.key == r.key && e.col == c) <==>
            c in r.expected && exists i :: 0 <= i < |LivePart(rules, h)| && Triggers(r, LivePart(rules, h)[i])
  {
    hide Play, LivePart, Ledger, QuietAt, RowHistory, DistinctKeys, Triggers;
    var live := LivePart(rules, h);
    TraceRefinement(rules, h);
    CoresPairs(Play(h).value.exps, r.key, c);
    LedgerPairs(rules, live, |live|, r.key, c);
    OnlyRule(rules, live, r, c);
  }

  lemma {:induction false} OnlyRule(rules: seq<Rule>, h: seq<Event>, r: Rule, c: Id)
    requires DistinctKeys(rules) && r in rules && r.kind != OtherKind
    ensures FiredPair(rules, h, |h|, r.key, c) <==>
            c in r.expected && exists i :: 0 <= i < |h| && Triggers(r, h[i])
  {
    hide Triggers, DistinctKeys;
    if FiredPair(rules, h, |h|, r.key, c) {
      var q :| q in rules && FirstFire(q, h) < |h| && q.key == r.key && c in q.expected;
      KeysApart(rules, q, r);
      assert Triggers(r, h[FirstFire(r, h)]);
    }
  }

  /**
   * After a creation the ledger holds an entry of rule `r` for column `c` exactly when the rule expects
   * the column, listens to creations, and is a row rule or a column rule whose join is met: all
   * triggers filled for an all-join, some trigger filled for any other.
   */
  lemma {:induction false} CreationOpensExactly(rules: seq<Rule>, w: World, now: int, r: Rule, c: Id)
    requires DistinctKeys(rules) && r in rules && r.kind != OtherKind
    ensures (exists e :: e in CreateStep(rules, w, now).exps && e.key == r.key && e.col == c) <==>
            && c in r.expected && r.op != OnUpdated
            && (r.kind == ColumnKind ==>
                  && r.triggers != []
                  && (r.join == AllJoin ==> forall t :: t in r.triggers ==> t in w.filled)
                  && (r.join != AllJoin ==> exists t :: t in r.triggers && t in w.filled))
  {
    var ev := Create(rules, w, now);
    hide CreateStep, DistinctKeys;
    assert [ev][..0] == [] && [ev][0] == ev;
    assert Play([ev]) == Some(CreateStep(rules, w, now));
    assert RowHistory(rules, [ev]);
    OpenedExactly(rules, [ev], r, c);
    assert LivePart(rules, [ev]) == [ev];
  }

  // ----- what a sweep closes -----

  /**
   * A sweep breaches, at its own time, exactly the open entries whose deadline it has reached, and
   * changes nothing else; the run is done after it exactly when something was breached, the process
   * is at hand and nothing is left.  A completed run is left alone.
   */
  lemma SweepBreachesExactly(run: Run, proc: Option<seq<Rule>>, w: World, now: int)
    requires run.status == Active
    ensures var z := SweepStep(run, proc, w, now);
            && |z.exps| == |run.exps|
            && (forall i {:trigger z.exps[i]} :: 0 <= i < |z.exps| ==>
                  var e := run.exps[i];
                  z.exps[i] == if e.satisfiedAt == None && e.breachedAt == None && e.dueAt.Some? && e.dueAt.value <= now
                               then e.(breachedAt := Some(now)) else e)
            && (z.status == Completed <==>
                  z.exps != run.exps && proc.Some? && NothingLeft(z.exps, proc.value, w.filled))
    ensures SweepStep(Run(Completed, run.exps), proc, w, now) == Run(Completed, run.exps)
  {
    hide NothingLeft;
    NoOpenDueNoBreach(run.exps, now);
    if proc.Some? { QuiescentIsNothingLeft(BreachAll(run.exps, now), proc.value, w.filled); }
  }

  // ----- who is told -----

  /** Rule `i` is the last with this key, and opts in. */
  ghost predicate LastOptsIn(rules: seq<Rule>, i: nat, key: string) {
    && i < |rules| && rules[i].key == key && rules[i].notifyOnExpect
    && forall j :: i < j < |rules| ==> rules[j].key != key
  }

  /** Entries with this key are announced: the last rule of that key opted in, or no rule has it. */
  ghost predicate OptedIn(rules: seq<Rule>, key: string) {
    (forall r :: r in rules ==> r.key != key) || exists i :: LastOptsIn(rules, i, key)
  }

  lemma {:induction false} NotifyFlagIsOptIn(rules: seq<Rule>, key: string)
    ensures NotifyFlag(rules, key) <==> OptedIn(rules, key)
  {
    if rules != [] {
      var rest, last := rules[..|rules| - 1], rules[|rules| - 1];
      NotifyFlagIsOptIn(rest, key);
      SnocMembers(rules);
      if last.key == key {
        assert last.notifyOnExpect ==> LastOptsIn(rules, |rules| - 1, key);
      } else {
        OptInSnoc(rules, key);
      }
    }
  }

  lemma OptInSnoc(rules: seq<Rule>, key: string)
    requires rules != [] && rules[|rules| - 1].key != key
    ensures OptedIn(rules, key) <==> OptedIn(rules[..|rules| - 1], key)
  {
    var rest := rules[..|rules| - 1];
    SnocMembers(rules);
    forall i: nat
      ensures LastOptsIn(rules, i, key) <==> LastOptsIn(rest, i, key)
    {
    }
  }

  /** What announcing makes of an entry: told once, while open, to the owners of its column, if its rule opted in. */
  ghost predicate Announced(before: seq<User>, e: Exp, rules: seq<Rule>, w: World) {
    e.notified ==
      if before == [] && e.satisfiedAt == None && e.breachedAt == None && OptedIn(rules, e.key) && e.col in w.owners
      then w.owners[e.col] else before
  }

  lemma NotifiedIs(e: Exp, rules: seq<Rule>, w: World)
    ensures Notified(e, rules, w) == e.(notified := Notified(e, rules, w).notified)
    ensures Announced(e.notified, Notified(e, rules, w), rules, w)
  {
    NotifyFlagIsOptIn(rules, e.key);
    hide OptedIn, NotifyFlag;
  }

  /** After a creation every entry stands announced as it should be. */
  lemma CreationAnnounces(rules: seq<Rule>, w: World, now: int, i: nat)
    requires i < |CreateStep(rules, w, now).exps|
    ensures Announced([], CreateStep(rules, w, now).exps[i], rules, w)
  {
    var opens := OpenedAtCreation(rules, w.filled, now).exps;
    var closed := SatisfyIn(opens, w.filled, now);
    RowsQuiet(Firing([], {}), rules, now);
    PrefilledQuiet(FireRows(Firing([], {}), rules, now), rules, w.filled, now);
    assert opens[i].notified == [];
    hide OpenedAtCreation, Announced;
    assert closed[i] == Satisfied(opens[i], w.filled, now);
    NotifiedIs(closed[i], rules, w);
  }

  /**
   * After an update every entry stands announced as it should be: old ones by what they were told
   * before, new ones from the start.
   */
  lemma UpdateAnnounces(run: Run, rules: seq<Rule>, c: Id, w: World, now: int, i: nat)
    requires run.status == Active && i < |UpdateStep(run, rules, c, w, now).exps|
    ensures Announced(if i < |run.exps| then run.exps[i].notified else [],
                      UpdateStep(run, rules, c, w, now).exps[i], rules, w)
  {
    var fired := FireUpdates(Firing(run.exps, {}), rules, c, w.filled, now).exps;
    var closed := SatisfyIn(fired, {c}, now);
    UpdatesQuiet(Firing(run.exps, {}), rules, c, w.filled, now);
    hide FireUpdates, Announced;
    assert closed[i] == Satisfied(fired[i], {c}, now);
    NotifiedIs(closed[i], rules, w);
  }

  // ----- when the run is done -----

  /** Creation and update finish the run exactly when nothing is left. */
  lemma StepsCompleteExactly(run: Run, rules: seq<Rule>, c: Id, w: World, now: int)
    ensures CreateStep(rules, w, now).status == Completed <==>
            NothingLeft(CreateStep(rules, w, now).exps, rules, w.filled)
    ensures run.status == Active ==>
              (UpdateStep(run, rules, c, w, now).status == Completed <==>
                 NothingLeft(UpdateStep(run, rules, c, w, now).exps, rules, w.filled))
    ensures run.status == Completed ==> UpdateStep(run, rules, c, w, now) == run
  {
    hide NothingLeft, Quiescent, OpenedAtCreation, FireUpdates, NotifyAll, SatisfyIn;
    QuiescentIsNothingLeft(CreateStep(rules, w, now).exps, rules, w.filled);
    QuiescentIsNothingLeft(UpdateStep(run, rules, c, w, now).exps, rules, w.filled);
  }

  // ----- what an update closes -----

  /** An update satisfies, at its own time, exactly the open entries on its column, old and new, and keeps the rest. */
  lemma UpdateSatisfiesExactly(run: Run, rules: seq<Rule>, c: Id, w: World, now: int)
    requires run.status == Active
    ensures var z := UpdateStep(run, rules, c, w, now);
            && |run.exps| <= |z.exps|
            && (forall i {:trigger z.exps[i]} :: 0 <= i < |z.exps| ==>
                  var was := if i < |run.exps| then (run.exps[i].satisfiedAt, run.exps[i].breachedAt) else (None, None);
                  && z.exps[i].breachedAt == was.1
                  && z.exps[i].satisfiedAt == if z.exps[i].col == c && was == (None, None) then Some(now) else was.0)
  {
    var fired := FireUpdates(Firing(run.exps, {}), rules, c, w.filled, now).exps;
    var closed := SatisfyIn(fired, {c}, now);
    var z := UpdateStep(run, rules, c, w, now);
    UpdatesQuiet(Firing(run.exps, {}), rules, c, w.filled, now);
    hide FireUpdates, Quiescent, NotifyFlag;
    forall i | 0 <= i < |z.exps|
      ensures z.exps[i] == Notified(Satisfied(fired[i], {c}, now), rules, w)
    {
      assert closed[i] == Satisfied(fired[i], {c}, now);
    }
  }

  /** A creation satisfies, at its own time, exactly the entries whose column is filled; all are opened by it. */
  lemma CreationSatisfiesExactly(rules: seq<Rule>, w: World, now: int, i: nat)
    requires i < |CreateStep(rules, w, now).exps|
    ensures var e := CreateStep(rules, w, now).exps[i];
            e.breachedAt == None && e.satisfiedAt == if e.col in w.filled then Some(now) else None
  {
    var opens := OpenedAtCreation(rules, w.filled, now).exps;
    var closed := SatisfyIn(opens, w.filled, now);
    RowsQuiet(Firing([], {}), rules, now);
    PrefilledQuiet(FireRows(Firing([], {}), rules, now), rules, w.filled, now);
    assert opens[i].IsOpen();
    hide OpenedAtCreation, Quiescent, NotifyFlag;
    assert closed[i] == Satisfied(opens[i], w.filled, now);
    assert CreateStep(rules, w, now).exps[i] == Notified(closed[i], rules, w);
  }

  // ----- what is reported -----

  /** Entry `i` of `now` was closed, or told, since `before`; an entry not there before is new. */
  ghost predicate NewlySatisfied(before: seq<Exp>, after: seq<Exp>, i: nat) {
    i < |after| && after[i].satisfiedAt.Some? && (i < |before| ==> before[i].satisfiedAt.None?)
  }

  ghost predicate NewlyBreached(before: seq<Exp>, after: seq<Exp>, i: nat) {
    i < |after| && after[i].breachedAt.Some? && (i < |before| ==> before[i].breachedAt.None?)
  }

  ghost predicate NewlyTold(before: seq<Exp>, after: seq<Exp>, i: nat) {
    i < |after| && after[i].notified != [] && (i < |before| ==> before[i].notified == [])
  }

  /** The change the transition tells of happened to some entry. */
  ghost predicate Happened(before: seq<Exp>, after: seq<Exp>, t: Transition) {
    match t
    case ExpSatisfied(key, c) =>
      exists i: nat :: NewlySatisfied(before, after, i) && after[i].key == key && after[i].col == c
    case ExpBreached(key, c) =>
      exists i: nat :: NewlyBreached(before, after, i) && after[i].key == key && after[i].col == c
    case OwnersNotified(key, c, owners) =>
      exists i: nat :: && NewlyTold(before, after, i) && after[i].key == key && after[i].col == c
                       && after[i].notified == owners
    case RunStarted => before == []
    case RunCompleted => false
  }

  ghost predicate Meets(e: Exp, c: Id, t: Transition) {
    e.col == c && e.IsOpen() && t == ExpSatisfied(e.key, c)
  }

  lemma {:induction false} SatisfiedOnMembers(exps: seq<Exp>, c: Id, t: Transition)
    ensures t in SatisfiedOn(exps, c) <==> exists i :: 0 <= i < |exps| && Meets(exps[i], c, t)
  {
    if exps != [] {
      var rest := exps[..|exps| - 1];
      SatisfiedOnMembers(rest, c, t);
      assert forall i :: 0 <= i < |rest| ==> Meets(rest[i], c, t) == Meets(exps[i], c, t);
    }
  }

  ghost predicate MeetsAlong(e: Exp, order: seq<Id>, t: Transition) {
    e.col in order && Meets(e, e.col, t)
  }

  lemma {:induction false} SatisfiedAlongMembers(exps: seq<Exp>, order: seq<Id>, t: Transition)
    ensures t in SatisfiedAlong(exps, order) <==> exists i :: 0 <= i < |exps| && MeetsAlong(exps[i], order, t)
  {
    if order != [] {
      var rest, c := order[..|order| - 1], order[|order| - 1];
      SatisfiedAlongMembers(exps, rest, t);
      SatisfiedOnMembers(exps, c, t);
      SnocMembers(order);
      assert forall e {:trigger MeetsAlong(e, order, t)} ::
          MeetsAlong(e, order, t) <==> MeetsAlong(e, rest, t) || Meets(e, c, t);
    }
  }

  lemma {:induction false} NotifiedOfMembers(exps: seq<Exp>, rules: seq<Rule>, w: World, t: Transition)
    ensures t in NotifiedOf(exps, rules, w) <==>
            exists i :: 0 <= i < |exps| && ToNotify(exps[i], rules, w)
                        && t == OwnersNotified(exps[i].key, exps[i].col, OwnersOf(w, exps[i].col))
  {
    hide ToNotify;
    if exps != [] { NotifiedOfMembers(exps[..|exps| - 1], rules, w, t); }
  }

  ghost predicate Overdue(e: Exp, now: int, t: Transition) {
    e.IsOpen() && PastDue(now, e.dueAt) && t == ExpBreached(e.key, e.col)
  }

  lemma {:induction false} BreachedOfMembers(exps: seq<Exp>, now: int, t: Transition)
    ensures t in BreachedOf(exps, now) <==> exists i :: 0 <= i < |exps| && Overdue(exps[i], now, t)
  {
    if exps != [] {
      var rest := exps[..|exps| - 1];
      BreachedOfMembers(rest, now, t);
      assert forall i :: 0 <= i < |rest| ==> Overdue(rest[i], now, t) == Overdue(exps[i], now, t);
    }
  }

  /** A sweep reports exactly the entries it breached. */
  lemma {:induction false} SweepReportTells(exps: seq<Exp>, now: int, t: Transition)
    ensures t in BreachedOf(exps, now) <==> t.ExpBreached? && Happened(exps, BreachAll(exps, now), t)
  {
    var after := BreachAll(exps, now);
    BreachedOfMembers(exps, now, t);
    if i :| 0 <= i < |exps| && Overdue(exps[i], now, t) {
      assert after[i] == Breached(exps[i], now);
      assert NewlyBreached(exps, after, i);
    }
    if t.ExpBreached? {
      if i: nat :| NewlyBreached(exps, after, i) && after[i].key == t.key && after[i].col == t.col {
        assert after[i] == Breached(exps[i], now);
        assert Overdue(exps[i], now, t);
      }
    }
  }

  /** An update reports exactly the entries it satisfied and announced, and the run's completion. */
  lemma UpdateReportTells(run: Run, rules: seq<Rule>, c: Id, w: World, now: int, t: Transition)
    requires run.status == Active
    ensures var z := UpdateStep(run, rules, c, w, now);
            t in UpdateReport(run.exps, rules, c, w, now) <==>
              || ((t.ExpSatisfied? || t.OwnersNotified?) && Happened(run.exps, z.exps, t))
              || (t.RunCompleted? && NothingLeft(z.exps, rules, w.filled))
  {
    var fired := FireUpdates(Firing(run.exps, {}), rules, c, w.filled, now).exps;
    var z := UpdateStep(run, rules, c, w, now);
    UpdatesQuiet(Firing(run.exps, {}), rules, c, w.filled, now);
    hide FireUpdates, NothingLeft, Quiescent;
    QuiescentIsNothingLeft(z.exps, rules, w.filled);
    SatisfiedOnMembers(fired, c, t);
    StepReport(run.exps, fired, {c}, rules, w, now, t);
  }

  /** A creation reports the start, exactly the entries it satisfied and announced, and the run's completion. */
  lemma CreationReportTells(trans: seq<Transition>, order: seq<Id>, rules: seq<Rule>, w: World, now: int, t: Transition)
    requires CreationReport(trans, order, rules, w, now)
    ensures var z := CreateStep(rules, w, now);
            t in trans <==>
              || t.RunStarted?
              || ((t.ExpSatisfied? || t.OwnersNotified?) && Happened([], z.exps, t))
              || (t.RunCompleted? && NothingLeft(z.exps, rules, w.filled))
  {
    var opens := OpenedAtCreation(rules, w.filled, now).exps;
    var z := CreateStep(rules, w, now);
    RowsQuiet(Firing([], {}), rules, now);
    PrefilledQuiet(FireRows(Firing([], {}), rules, now), rules, w.filled, now);
    assert AppendsQuietly([], opens);
    hide OpenedAtCreation, NothingLeft, Quiescent, ToNotify;
    QuiescentIsNothingLeft(z.exps, rules, w.filled);
    SatisfiedAlongMembers(opens, order, t);
    FilledOrder(opens, order, w.filled);
    StepReport([], opens, w.filled, rules, w, now, t);
  }

  lemma FilledOrder(exps: seq<Exp>, order: seq<Id>, filled: set<Id>)
    requires Elements(order) == ColumnsOf(exps) * filled
    ensures forall i :: 0 <= i < |exps| ==> (exps[i].col in order <==> exps[i].col in filled)
  {
    forall i | 0 <= i < |exps|
      ensures exps[i].col in order <==> exps[i].col in filled
    {
      assert exps[i] in exps;
      assert exps[i].col in Elements(order) <==> exps[i].col in order;
    }
  }

  /** Satisfying and announcing a ledger whose newer entries are open and unannounced. */
  lemma {:induction false} StepReport(before: seq<Exp>, fired: seq<Exp>, cols: set<Id>, rules: seq<Rule>, w: World,
                                      now: int, t: Transition)
    requires AppendsQuietly(before, fired)
    ensures var after := SatisfyIn(fired, cols, now);
            var z := NotifyAll(after, rules, w);
            && (t.ExpSatisfied? ==>
                  (Happened(before, z, t) <==>
                     exists i :: 0 <= i < |fired| && fired[i].col in cols && fired[i].IsOpen()
                                 && t == ExpSatisfied(fired[i].key, fired[i].col)))
            && (t in NotifiedOf(after, rules, w) <==> t.OwnersNotified? && Happened(before, z, t))
  {
    var after := SatisfyIn(fired, cols, now);
    var z := NotifyAll(after, rules, w);
    NotifiedOfMembers(after, rules, w, t);
    forall i: nat | i < |fired|
      ensures z[i].key == fired[i].key && z[i].col == fired[i].col
      ensures NewlySatisfied(before, z, i) <==> fired[i].col in cols && fired[i].IsOpen()
      ensures NewlyTold(before, z, i) <==> ToNotify(after[i], rules, w)
      ensures ToNotify(after[i], rules, w) ==> z[i].notified == OwnersOf(w, after[i].col)
    {
      StepEntry(before, fired, cols, rules, w, now, i);
    }
    hide ToNotify, AppendsQuietly, NewlySatisfied, NewlyTold;
  }

  lemma StepEntry(before: seq<Exp>, fired: seq<Exp>, cols: set<Id>, rules: seq<Rule>, w: World, now: int, i: nat)
    requires AppendsQuietly(before, fired) && i < |fired|
    ensures var after := SatisfyIn(fired, cols, now);
            var z := NotifyAll(after, rules, w);
            && z[i].key == fired[i].key && z[i].col == fired[i].col
            && (NewlySatisfied(before, z, i) <==> fired[i].col in cols && fired[i].IsOpen())
            && (NewlyTold(before, z, i) <==> ToNotify(after[i], rules, w))
            && (ToNotify(after[i], rules, w) ==> z[i].notified == OwnersOf(w, after[i].col))
  {
    hide NotifyFlag;
    var after := SatisfyIn(fired, cols, now);
    var z := NotifyAll(after, rules, w);
    assert z[i] == Notified(after[i], rules, w) && after[i] == Satisfied(fired[i], cols, now);
    assert i < |before| ==> before[i] == fired[i];
  }
}
