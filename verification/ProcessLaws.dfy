/** What every step of a run keeps, and what happens when steps repeat. */
module ProcessLaws {
  import opened Common
  import opened ProcessRules
  import opened ProcessValidation
  import opened ProcessLedger
  import opened ProcessEngine

  // ----- runs over any history, the rule set changing freely between events -----

  datatype Event =
    | Create(rules: seq<Rule>, w: World, now: int)
    | Update(rules: seq<Rule>, c: Id, w: World, now: int)
    | SweepAt(proc: Option<seq<Rule>>, w: World, now: int)

  function Step(run: Option<Run>, ev: Event): Option<Run> {
    match (run, ev)
    case (None, Create(rules, w, now)) => Some(CreateStep(rules, w, now))
    case (None, _) => None
    case (Some(r), Create(_, _, _)) => Some(r)
    case (Some(r), Update(rules, c, w, now)) => Some(UpdateStep(r, rules, c, w, now))
    case (Some(r), SweepAt(proc, w, now)) => Some(SweepStep(r, proc, w, now))
  }

  function Play(h: seq<Event>): Option<Run> {
    if h == [] then None else Step(Play(h[..|h| - 1]), h[|h| - 1])
  }

  // ----- the ledger invariant -----

  ghost predicate EntryOk(e: Exp) {
    && !(e.satisfiedAt.Some? && e.breachedAt.Some?)
    && (e.breachedAt.Some? ==> e.dueAt.Some? && e.breachedAt.value >= e.dueAt.value)
  }

  ghost predicate SamePair(a: Exp, b: Exp) {
    a.key == b.key && a.col == b.col
  }

  ghost predicate LedgerOk(exps: seq<Exp>) {
    && (forall i {:trigger EntryOk(exps[i])} :: 0 <= i < |exps| ==> EntryOk(exps[i]))
    && (forall i, j {:trigger SamePair(exps[i], exps[j])} :: 0 <= i < j < |exps| ==> !SamePair(exps[i], exps[j]))
  }

  /** What may happen to one entry: it can be closed once, one way, and announced once. */
  ghost predicate EntryEvolves(a: Exp, b: Exp) {
    && SamePair(a, b) && a.openedAt == b.openedAt && a.dueAt == b.dueAt
    && (!a.IsOpen() ==> a.satisfiedAt == b.satisfiedAt && a.breachedAt == b.breachedAt)
    && (a.notified != [] ==> a.notified == b.notified)
  }

  ghost predicate LedgerEvolves(a: seq<Exp>, b: seq<Exp>) {
    |a| <= |b| && forall i {:trigger EntryEvolves(a[i], b[i])} :: 0 <= i < |a| ==> EntryEvolves(a[i], b[i])
  }

  ghost predicate RunOk(r: Run) {
    LedgerOk(r.exps) && (r.status == Completed ==> r.exps != [] && AllClosed(r.exps))
  }

  ghost predicate RunEvolves(a: Run, b: Run) {
    LedgerEvolves(a.exps, b.exps) && (a.status == Completed ==> a == b)
  }

  lemma LedgerEvolvesTrans(a: seq<Exp>, b: seq<Exp>, c: seq<Exp>)
    requires LedgerEvolves(a, b) && LedgerEvolves(b, c)
    ensures LedgerEvolves(a, c)
  {
    forall i | 0 <= i < |a|
      ensures EntryEvolves(a[i], c[i])
    {
      assert EntryEvolves(a[i], b[i]) && EntryEvolves(b[i], c[i]);
    }
  }

  lemma {:induction false} OpenColsOk(exps: seq<Exp>, r: Rule, cols: seq<Id>, now: int)
    requires LedgerOk(exps)
    ensures LedgerOk(OpenCols(exps, r, cols, now)) && LedgerEvolves(exps, OpenCols(exps, r, cols, now))
  {
    if cols != [] {
      var before, c := OpenCols(exps, r, cols[..|cols| - 1], now), cols[|cols| - 1];
      OpenColsOk(exps, r, cols[..|cols| - 1], now);
      if !HasExp(before, r.key, c) {
        AppendOk(before, NewExp(r, c, now));
        LedgerEvolvesTrans(exps, before, before + [NewExp(r, c, now)]);
      }
    }
  }

  lemma AppendOk(exps: seq<Exp>, e: Exp)
    requires LedgerOk(exps) && EntryOk(e) && !HasExp(exps, e.key, e.col)
    ensures LedgerOk(exps + [e]) && LedgerEvolves(exps, exps + [e])
  {
    var more := exps + [e];
    forall i | 0 <= i < |more|
      ensures EntryOk(more[i])
    {
      if i < |exps| { assert EntryOk(exps[i]); }
    }
    forall i, j | 0 <= i < j < |more|
      ensures !SamePair(more[i], more[j])
    {
      if j < |exps| { assert !SamePair(exps[i], exps[j]); } else { assert exps[i] in exps; }
    }
  }

  /** Changing entries one by one, each within its rights, keeps the ledger. */
  lemma MapOk(a: seq<Exp>, b: seq<Exp>)
    requires LedgerOk(a) && |a| == |b|
    requires forall i {:trigger b[i]} :: 0 <= i < |a| ==> EntryEvolves(a[i], b[i]) && (EntryOk(a[i]) ==> EntryOk(b[i]))
    ensures LedgerOk(b) && LedgerEvolves(a, b)
  {
    forall i | 0 <= i < |b|
      ensures EntryOk(b[i]) && EntryEvolves(a[i], b[i])
    {
      assert EntryOk(a[i]);
    }
    forall i, j | 0 <= i < j < |b|
      ensures !SamePair(b[i], b[j])
    {
      assert !SamePair(a[i], a[j]);
      assert SamePair(a[i], b[i]) && SamePair(a[j], b[j]);
    }
  }

  lemma {:induction false} FireRowsOk(s: Firing, rules: seq<Rule>, now: int)
    requires LedgerOk(s.exps)
    ensures LedgerOk(FireRows(s, rules, now).exps) && LedgerEvolves(s.exps, FireRows(s, rules, now).exps)
  {
    if rules == [] {
      MapOk(s.exps, s.exps);
    } else {
      var before, r := FireRows(s, rules[..|rules| - 1], now), rules[|rules| - 1];
      FireRowsOk(s, rules[..|rules| - 1], now);
      OpenColsOk(before.exps, r, r.expected, now);
      LedgerEvolvesTrans(s.exps, before.exps, Fire(before.exps, r, now));
    }
  }

  lemma {:induction false} FirePrefilledOk(s: Firing, rules: seq<Rule>, filled: set<Id>, now: int)
    requires LedgerOk(s.exps)
    ensures LedgerOk(FireAllPrefilled(s, rules, filled, now).exps)
  {
    if rules != [] {
      var before, r := FireAllPrefilled(s, rules[..|rules| - 1], filled, now), rules[|rules| - 1];
      FirePrefilledOk(s, rules[..|rules| - 1], filled, now);
      OpenColsOk(before.exps, r, r.expected, now);
    }
  }

  lemma {:induction false} FireUpdatesOk(s: Firing, rules: seq<Rule>, c: Id, filled: set<Id>, now: int)
    requires LedgerOk(s.exps)
    ensures LedgerOk(FireUpdates(s, rules, c, filled, now).exps)
    ensures LedgerEvolves(s.exps, FireUpdates(s, rules, c, filled, now).exps)
  {
    if rules == [] {
      MapOk(s.exps, s.exps);
    } else {
      var before, r := FireUpdates(s, rules[..|rules| - 1], c, filled, now), rules[|rules| - 1];
      FireUpdatesOk(s, rules[..|rules| - 1], c, filled, now);
      OpenColsOk(before.exps, r, r.expected, now);
      LedgerEvolvesTrans(s.exps, before.exps, Fire(before.exps, r, now));
    }
  }

  lemma CloseAndNotifyOk(exps: seq<Exp>, cols: set<Id>, rules: seq<Rule>, w: World, now: int)
    requires LedgerOk(exps)
    ensures var out := NotifyAll(SatisfyIn(exps, cols, now), rules, w);
            LedgerOk(out) && LedgerEvolves(exps, out)
  {
    var mid := SatisfyIn(exps, cols, now);
    var out := NotifyAll(mid, rules, w);
    MapOk(exps, mid);
    MapOk(mid, out);
    LedgerEvolvesTrans(exps, mid, out);
  }

  lemma StepOk(run: Option<Run>, ev: Event)
    requires run.Some? ==> RunOk(run.value)
    ensures Step(run, ev).Some? ==> RunOk(Step(run, ev).value)
    ensures run.Some? ==> Step(run, ev).Some? && RunEvolves(run.value, Step(run, ev).value)
  {
    match (run, ev) {
      case (None, Create(rules, w, now)) =>
        var rows := FireRows(Firing([], {}), rules, now);
        FireRowsOk(Firing([], {}), rules, now);
        FirePrefilledOk(rows, rules, w.filled, now);
        CloseAndNotifyOk(FireAllPrefilled(rows, rules, w.filled, now).exps, w.filled, rules, w, now);
      case (None, _) =>
      case (Some(r), Create(_, _, _)) => MapOk(r.exps, r.exps);
      case (Some(r), Update(rules, c, w, now)) =>
        MapOk(r.exps, r.exps);
        var fired := FireUpdates(Firing(r.exps, {}), rules, c, w.filled, now).exps;
        FireUpdatesOk(Firing(r.exps, {}), rules, c, w.filled, now);
        CloseAndNotifyOk(fired, {c}, rules, w, now);
        LedgerEvolvesTrans(r.exps, fired, NotifyAll(SatisfyIn(fired, {c}, now), rules, w));
      case (Some(r), SweepAt(proc, w, now)) =>
        MapOk(r.exps, r.exps);
        MapOk(r.exps, BreachAll(r.exps, now));
    }
  }

  lemma {:induction false} PlayOk(h: seq<Event>)
    ensures Play(h).Some? ==> RunOk(Play(h).value)
  {
    if h != [] {
      PlayOk(h[..|h| - 1]);
      StepOk(Play(h[..|h| - 1]), h[|h| - 1]);
    }
  }

  lemma {:induction false} PlayOneMore(h: seq<Event>, more: seq<Event>)
    requires more != []
    ensures Play(h + more) == Step(Play(h + more[..|more| - 1]), more[|more| - 1])
  {
    hide *;
    PlayUnfolds(h + more);
    assert (h + more)[..|h + more| - 1] == h + more[..|more| - 1];
  }

  lemma {:induction false} PlayUnfolds(h: seq<Event>)
    requires h != []
    ensures Play(h) == Step(Play(h[..|h| - 1]), h[|h| - 1])
  {
  }

  /** Over every history: entries stay, close at most once and one way, and a completed run never changes. */
  lemma {:induction false} LedgerSafety(h: seq<Event>, more: seq<Event>)
    requires Play(h).Some?
    ensures Play(h + more).Some? && RunOk(Play(h + more).value)
    ensures RunEvolves(Play(h).value, Play(h + more).value)
  {
    PlayOk(h);
    if more == [] {
      assert h + more == h;
      MapOk(Play(h).value.exps, Play(h).value.exps);
    } else {
      PlayOneMore(h, more);
      PlayOk(h + more[..|more| - 1]);
      hide Play, Step, RunOk, LedgerEvolves;
      var most, ev := more[..|more| - 1], more[|more| - 1];
      LedgerSafety(h, most);
      StepOk(Play(h + most), ev);
      LedgerEvolvesTrans(Play(h).value.exps, Play(h + most).value.exps, Play(h + more).value.exps);
    }
  }

  // ----- redelivery -----

  lemma HasExpKept(a: seq<Exp>, b: seq<Exp>, key: string, c: Id)
    requires LedgerEvolves(a, b) && HasExp(a, key, c)
    ensures HasExp(b, key, c)
  {
    var e :| e in a && e.key == key && e.col == c;
    var i :| 0 <= i < |a| && a[i] == e;
    assert EntryEvolves(a[i], b[i]);
    assert b[i] in b;
  }

  lemma HasKeyKept(a: seq<Exp>, b: seq<Exp>, key: string)
    requires LedgerEvolves(a, b) && HasKey(a, key)
    ensures HasKey(b, key)
  {
    var e :| e in a && e.key == key;
    var i :| 0 <= i < |a| && a[i] == e;
    assert EntryEvolves(a[i], b[i]);
    assert b[i] in b;
  }

  lemma {:induction false} OpenColsHas(exps: seq<Exp>, r: Rule, cols: seq<Id>, now: int, c: Id)
    requires LedgerOk(exps) && c in cols
    ensures HasExp(OpenCols(exps, r, cols, now), r.key, c)
  {
    var before, last := OpenCols(exps, r, cols[..|cols| - 1], now), cols[|cols| - 1];
    assert cols == cols[..|cols| - 1] + [last];
    OpenColsOk(exps, r, cols[..|cols| - 1], now);
    if c == last {
      if !HasExp(before, r.key, c) { assert NewExp(r, c, now) in before + [NewExp(r, c, now)]; }
    } else {
      OpenColsHas(exps, r, cols[..|cols| - 1], now, c);
      var e :| e in before && e.key == r.key && e.col == c;
      assert e in OpenCols(exps, r, cols, now);
    }
  }

  lemma {:induction false} OpenColsNothing(exps: seq<Exp>, r: Rule, cols: seq<Id>, now: int)
    requires forall c :: c in cols ==> HasExp(exps, r.key, c)
    ensures OpenCols(exps, r, cols, now) == exps
  {
    if cols != [] {
      assert cols[|cols| - 1] in cols;
      OpenColsNothing(exps, r, cols[..|cols| - 1], now);
    }
  }

  /** A rule this update can fire again already has all it expects. */
  ghost predicate Exhausted(r: Rule, c: Id, filled: set<Id>, exps: seq<Exp>) {
    FiresOnUpdate(r, c, filled, exps) ==> forall k :: k in r.expected ==> HasExp(exps, r.key, k)
  }

  lemma {:induction false} UpdateExhausts(s: Firing, rules: seq<Rule>, c: Id, filled: set<Id>, now: int,
                                          out: seq<Exp>, r: Rule)
    requires LedgerOk(s.exps) && r in rules && LedgerEvolves(FireUpdates(s, rules, c, filled, now).exps, out)
    ensures Exhausted(r, c, filled, out)
  {
    var last, rest := rules[|rules| - 1], rules[..|rules| - 1];
    assert rules == rest + [last];
    var before := FireUpdates(s, rest, c, filled, now);
    FireUpdatesOk(s, rest, c, filled, now);
    var after := FireUpdate(before, last, c, filled, now);
    OpenColsOk(before.exps, last, last.expected, now);
    MapOk(before.exps, before.exps);
    LedgerEvolvesTrans(before.exps, after.exps, out);
    if r in rest {
      UpdateExhausts(s, rest, c, filled, now, out, r);
    } else if FiresOnUpdate(r, c, filled, out) {
      if HasKey(before.exps, r.key) { HasKeyKept(before.exps, out, r.key); }
      assert FiresOnUpdate(r, c, filled, before.exps);
      forall k | k in r.expected
        ensures HasExp(out, r.key, k)
      {
        OpenColsHas(before.exps, r, r.expected, now, k);
        HasExpKept(after.exps, out, r.key, k);
      }
    }
  }

  lemma {:induction false} NothingToFire(exps: seq<Exp>, rules: seq<Rule>, c: Id, filled: set<Id>, now: int)
    requires forall r :: r in rules ==> Exhausted(r, c, filled, exps)
    ensures FireUpdates(Firing(exps, {}), rules, c, filled, now).exps == exps
  {
    if rules != [] {
      var last, rest := rules[|rules| - 1], rules[..|rules| - 1];
      assert rules == rest + [last];
      NothingToFire(exps, rest, c, filled, now);
      assert last in rules;
      if FiresOnUpdate(last, c, filled, exps) {
        OpenColsNothing(exps, last, last.expected, now);
      }
    }
  }

  lemma {:induction false} NothingReported(exps: seq<Exp>, c: Id, rules: seq<Rule>, w: World)
    requires forall e :: e in exps ==> (e.col == c ==> !e.IsOpen()) && !ToNotify(e, rules, w)
    ensures SatisfiedOn(exps, c) == [] && NotifiedOf(exps, rules, w) == []
  {
    if exps != [] {
      assert exps == exps[..|exps| - 1] + [exps[|exps| - 1]];
      NothingReported(exps[..|exps| - 1], c, rules, w);
    }
  }

  /** Delivering the same value update again leaves the first delivery's state and reports nothing. */
  lemma RedeliveredUpdate(run: Run, rules: seq<Rule>, c: Id, w: World, now: int, later: int)
    requires RunOk(run)
    ensures var once := UpdateStep(run, rules, c, w, now);
            && UpdateStep(once, rules, c, w, later) == once
            && (once.status == Active ==> UpdateReport(once.exps, rules, c, w, later) == [])
  {
    var once := UpdateStep(run, rules, c, w, now);
    if once.status == Active {
      var fired := FireUpdates(Firing(run.exps, {}), rules, c, w.filled, now).exps;
      FireUpdatesOk(Firing(run.exps, {}), rules, c, w.filled, now);
      var closed := SatisfyIn(fired, {c}, now);
      CloseAndNotifyOk(fired, {c}, rules, w, now);
      forall r | r in rules
        ensures Exhausted(r, c, w.filled, once.exps)
      {
        UpdateExhausts(Firing(run.exps, {}), rules, c, w.filled, now, once.exps, r);
      }
      NothingToFire(once.exps, rules, c, w.filled, later);
      forall e | e in once.exps
        ensures (e.col == c ==> !e.IsOpen()) && !ToNotify(e, rules, w)
      {
        var i :| 0 <= i < |once.exps| && once.exps[i] == e;
        assert once.exps[i] == Notified(closed[i], rules, w);
        assert closed[i] == Satisfied(fired[i], {c}, now);
      }
      QuietLedger(once.exps, rules, c, w, later);
      NothingReported(once.exps, c, rules, w);
    }
  }

  lemma QuietLedger(exps: seq<Exp>, rules: seq<Rule>, c: Id, w: World, now: int)
    requires forall e :: e in exps ==> (e.col == c ==> !e.IsOpen()) && !ToNotify(e, rules, w)
    ensures SatisfyIn(exps, {c}, now) == exps && NotifyAll(exps, rules, w) == exps
  {
    forall i | 0 <= i < |exps|
      ensures Satisfied(exps[i], {c}, now) == exps[i] && Notified(exps[i], rules, w) == exps[i]
    {
      assert exps[i] in exps;
    }
  }

  // ----- the sweep -----

  /** Closed the same way entry by entry, whatever the times. */
  ghost predicate ClosedAlike(a: Exp, b: Exp) {
    SamePair(a, b) && a.satisfiedAt == b.satisfiedAt && (a.breachedAt.Some? <==> b.breachedAt.Some?)
  }

  ghost predicate LedgersAlike(a: seq<Exp>, b: seq<Exp>) {
    |a| == |b| && forall i {:trigger ClosedAlike(a[i], b[i])} :: 0 <= i < |a| ==> ClosedAlike(a[i], b[i])
  }

  lemma AlikeOneWay(a: seq<Exp>, b: seq<Exp>, rules: seq<Rule>, filled: set<Id>)
    requires LedgersAlike(a, b) && Quiescent(a, rules, filled)
    ensures Quiescent(b, rules, filled)
  {
    forall e | e in b
      ensures !e.IsOpen()
    {
      var i :| 0 <= i < |b| && b[i] == e;
      assert ClosedAlike(a[i], b[i]) && a[i] in a;
    }
    forall r | r in rules
      ensures !Blocks(r, b, filled)
    {
      assert !Blocks(r, a, filled);
      if HasKey(a, r.key) {
        var i :| 0 <= i < |a| && a[i].key == r.key;
        assert ClosedAlike(a[i], b[i]) && b[i] in b;
      }
    }
  }

  lemma AlikeQuiescent(a: seq<Exp>, b: seq<Exp>, rules: seq<Rule>, filled: set<Id>)
    requires LedgersAlike(a, b)
    ensures Quiescent(a, rules, filled) <==> Quiescent(b, rules, filled)
  {
    assert LedgersAlike(b, a) by {
      forall i | 0 <= i < |b| ensures ClosedAlike(b[i], a[i]) { assert ClosedAlike(a[i], b[i]); }
    }
    if Quiescent(a, rules, filled) { AlikeOneWay(a, b, rules, filled); }
    if Quiescent(b, rules, filled) { AlikeOneWay(b, a, rules, filled); }
  }

  /** Sweeping again at the same time changes nothing. */
  lemma SweepTwice(run: Run, proc: Option<seq<Rule>>, w: World, now: int)
    ensures SweepStep(SweepStep(run, proc, w, now), proc, w, now) == SweepStep(run, proc, w, now)
  {
    var once := BreachAll(run.exps, now);
    assert BreachAll(once, now) == once;
  }

  /** Sweeping at t1 and then at a later t2 closes the same entries and completes the same runs as at t2 alone. */
  lemma SweepsCompose(run: Run, rules: seq<Rule>, w: World, t1: int, t2: int)
    requires t1 <= t2
    ensures var both := SweepStep(SweepStep(run, Some(rules), w, t1), Some(rules), w, t2);
            var late := SweepStep(run, Some(rules), w, t2);
            both.status == late.status && LedgersAlike(both.exps, late.exps)
  {
    var e1, e2 := BreachAll(run.exps, t1), BreachAll(run.exps, t2);
    var e12 := BreachAll(e1, t2);
    assert LedgersAlike(run.exps, run.exps) by {
      forall i | 0 <= i < |run.exps| ensures ClosedAlike(run.exps[i], run.exps[i]) { }
    }
    assert LedgersAlike(e12, e2) by {
      forall i | 0 <= i < |run.exps| ensures ClosedAlike(e12[i], e2[i]) {
        assert e12[i] == Breached(e1[i], t2) && e1[i] == Breached(run.exps[i], t1);
      }
    }
    AlikeQuiescent(e12, e2, rules, w.filled);
    NoOpenDueNoBreach(run.exps, t1);
    NoOpenDueNoBreach(run.exps, t2);
    NoOpenDueNoBreach(e1, t2);
    if run.status == Active && e1 != run.exps {
      BreachStays(run.exps, t1, t2);
      if Quiescent(e1, rules, w.filled) {
        ClosedStays(e1, t2);
      }
    }
  }

  lemma NoOpenDueNoBreach(exps: seq<Exp>, now: int)
    ensures !HasOpenDue(exps) ==> BreachAll(exps, now) == exps
  {
    if !HasOpenDue(exps) {
      forall i | 0 <= i < |exps|
        ensures Breached(exps[i], now) == exps[i]
      {
        assert exps[i] in exps;
      }
    }
  }

  lemma BreachStays(exps: seq<Exp>, t1: int, t2: int)
    requires t1 <= t2 && BreachAll(exps, t1) != exps
    ensures BreachAll(exps, t2) != exps
  {
    assert exists i :: 0 <= i < |exps| && BreachAll(exps, t1)[i] != exps[i];
    var i :| 0 <= i < |exps| && BreachAll(exps, t1)[i] != exps[i];
    assert BreachAll(exps, t2)[i] != exps[i];
  }

  lemma ClosedStays(exps: seq<Exp>, now: int)
    requires AllClosed(exps)
    ensures BreachAll(exps, now) == exps
  {
    forall i | 0 <= i < |exps|
      ensures Breached(exps[i], now) == exps[i]
    {
      assert exps[i] in exps;
    }
  }

  // ----- what validation buys at run time -----

  lemma {:induction false} OpenColsNew(exps: seq<Exp>, r: Rule, cols: seq<Id>, now: int, i: nat)
    requires |exps| <= i < |OpenCols(exps, r, cols, now)|
    ensures OpenCols(exps, r, cols, now)[i].col in cols
  {
    if cols != [] {
      var before := OpenCols(exps, r, cols[..|cols| - 1], now);
      assert cols == cols[..|cols| - 1] + [cols[|cols| - 1]];
      if i < |before| { OpenColsNew(exps, r, cols[..|cols| - 1], now, i); }
    }
  }

  lemma {:induction false} NoSelfOpened(exps: seq<Exp>, rules: seq<Rule>, c: Id, filled: set<Id>, now: int, i: nat)
    requires forall r :: r in rules ==> WellFormed(r)
    requires |exps| <= i < |FireUpdates(Firing(exps, {}), rules, c, filled, now).exps|
    ensures FireUpdates(Firing(exps, {}), rules, c, filled, now).exps[i].col != c
  {
    if rules != [] {
      var last, rest := rules[|rules| - 1], rules[..|rules| - 1];
      assert rules == rest + [last];
      assert last in rules;
      var before := FireUpdates(Firing(exps, {}), rest, c, filled, now);
      UpdatesQuiet(Firing(exps, {}), rest, c, filled, now);
      OpenColsQuiet(before.exps, last, last.expected, now);
      if i < |before.exps| {
        NoSelfOpened(exps, rest, c, filled, now, i);
      } else {
        OpenColsNew(before.exps, last, last.expected, now, i);
      }
    }
  }

  /** Under an accepted rule set, no update satisfies an expectation that the same update opened. */
  lemma AcceptedRulesNeverSelfSatisfy(run: Run, rules: seq<Rule>, c: Id, w: World, now: int, i: nat)
    requires Acceptable(rules) && run.status == Active
    requires |run.exps| <= i < |UpdateStep(run, rules, c, w, now).exps|
    ensures UpdateStep(run, rules, c, w, now).exps[i].IsOpen()
  {
    var fired := FireUpdates(Firing(run.exps, {}), rules, c, w.filled, now).exps;
    NoSelfOpened(run.exps, rules, c, w.filled, now, i);
    UpdatesQuiet(Firing(run.exps, {}), rules, c, w.filled, now);
    assert SatisfyIn(fired, {c}, now)[i] == fired[i];
  }
}
