/** The expectation ledger of one run, and what each event does to it. */
module ProcessLedger {
  import opened Common
  import opened ProcessRules

  /** One expectation: `column` should be filled, because `key` fired. */
  datatype Exp = Exp(
    key: string,
    col: Id,
    openedAt: int,
    dueAt: Option<int>,
    satisfiedAt: Option<int>,
    breachedAt: Option<int>,
    notified: seq<User>)
  {
    predicate IsOpen() {
      satisfiedAt.None? && breachedAt.None?
    }
  }

  datatype Status = Active | Completed

  datatype Run = Run(status: Status, exps: seq<Exp>)

  /** What an event sees of the world: which cells of the row are filled, and who owns each column. */
  datatype World = World(filled: set<Id>, owners: map<Id, seq<User>>)

  function OwnersOf(w: World, c: Id): seq<User> {
    if c in w.owners then w.owners[c] else []
  }

  // ----- opening -----

  function DefaultDueAt(openedAt: int, within: int): Option<int> {
    if within == 0 then None else Some(openedAt + within)
  }

  function NewExp(r: Rule, c: Id, now: int): Exp {
    Exp(r.key, c, now, DefaultDueAt(now, r.within), None, None, [])
  }

  predicate HasExp(exps: seq<Exp>, key: string, c: Id) {
    exists e :: e in exps && e.key == key && e.col == c
  }

  predicate HasKey(exps: seq<Exp>, key: string) {
    exists e :: e in exps && e.key == key
  }

  /** Open one expectation per column of `cols` that rule `r` does not have yet. */
  function OpenCols(exps: seq<Exp>, r: Rule, cols: seq<Id>, now: int): seq<Exp> {
    if cols == [] then exps
    else
      var before, c := OpenCols(exps, r, cols[..|cols| - 1], now), cols[|cols| - 1];
      if HasExp(before, r.key, c) then before else before + [NewExp(r, c, now)]
  }

  function Fire(exps: seq<Exp>, r: Rule, now: int): seq<Exp> {
    OpenCols(exps, r, r.expected, now)
  }

  predicate AllFilled(cols: seq<Id>, filled: set<Id>) {
    cols != [] && forall c :: c in cols ==> c in filled
  }

  predicate AnyFilled(cols: seq<Id>, filled: set<Id>) {
    exists c :: c in cols && c in filled
  }

  /** The join condition over the cells that are filled now. */
  predicate Triggerable(r: Rule, filled: set<Id>) {
    if r.join == AllJoin then AllFilled(r.triggers, filled) else AnyFilled(r.triggers, filled)
  }

  /** Which rules an event has already fired, beside the ledger. */
  datatype Firing = Firing(exps: seq<Exp>, fired: set<string>)

  function FireRow(s: Firing, r: Rule, now: int): Firing {
    if r.kind == RowKind && r.op != OnUpdated then Firing(Fire(s.exps, r, now), s.fired + {r.key}) else s
  }

  function FireRows(s: Firing, rules: seq<Rule>, now: int): Firing {
    if rules == [] then s else FireRow(FireRows(s, rules[..|rules| - 1], now), rules[|rules| - 1], now)
  }

  predicate FiresAtCreation(r: Rule, filled: set<Id>) {
    r.kind == ColumnKind && r.op != OnUpdated && r.triggers != [] && Triggerable(r, filled)
  }

  function FirePrefilled(s: Firing, r: Rule, filled: set<Id>, now: int): Firing {
    if FiresAtCreation(r, filled) && r.key !in s.fired then Firing(Fire(s.exps, r, now), s.fired + {r.key}) else s
  }

  function FireAllPrefilled(s: Firing, rules: seq<Rule>, filled: set<Id>, now: int): Firing {
    if rules == [] then s
    else FirePrefilled(FireAllPrefilled(s, rules[..|rules| - 1], filled, now), rules[|rules| - 1], filled, now)
  }

  /** Whether an update of `c` fires column rule `r`, given the ledger so far. */
  predicate FiresOnUpdate(r: Rule, c: Id, filled: set<Id>, exps: seq<Exp>) {
    && r.kind == ColumnKind && c in r.triggers
    && !(r.op == OnCreated && HasKey(exps, r.key))
    && (r.join == AllJoin ==> !HasKey(exps, r.key) && AllFilled(r.triggers, filled))
  }

  function FireUpdate(s: Firing, r: Rule, c: Id, filled: set<Id>, now: int): Firing {
    if FiresOnUpdate(r, c, filled, s.exps) then
      var exps := Fire(s.exps, r, now);
      Firing(exps, if |exps| > |s.exps| then s.fired + {r.key} else s.fired)
    else s
  }

  function FireUpdates(s: Firing, rules: seq<Rule>, c: Id, filled: set<Id>, now: int): Firing {
    if rules == [] then s
    else FireUpdate(FireUpdates(s, rules[..|rules| - 1], c, filled, now), rules[|rules| - 1], c, filled, now)
  }

  // ----- closing -----

  function Satisfied(e: Exp, cols: set<Id>, now: int): Exp {
    if e.col in cols && e.IsOpen() then e.(satisfiedAt := Some(now)) else e
  }

  function SatisfyIn(exps: seq<Exp>, cols: set<Id>, now: int): (r: seq<Exp>)
    ensures |r| == |exps|
    ensures forall i {:trigger r[i]} :: 0 <= i < |r| ==> r[i] == Satisfied(exps[i], cols, now)
  {
    seq(|exps|, i requires 0 <= i < |exps| => Satisfied(exps[i], cols, now))
  }

  predicate PastDue(now: int, due: Option<int>) {
    due.Some? && now >= due.value
  }

  function Breached(e: Exp, now: int): Exp {
    if e.IsOpen() && PastDue(now, e.dueAt) then e.(breachedAt := Some(now)) else e
  }

  function BreachAll(exps: seq<Exp>, now: int): (r: seq<Exp>)
    ensures |r| == |exps|
    ensures forall i {:trigger r[i]} :: 0 <= i < |r| ==> r[i] == Breached(exps[i], now)
  {
    seq(|exps|, i requires 0 <= i < |exps| => Breached(exps[i], now))
  }

  // ----- notifying -----

  /** The opt-in of the last rule with this key; a key with no rule counts as opted in. */
  function NotifyFlag(rules: seq<Rule>, key: string): bool {
    if rules == [] then true
    else if rules[|rules| - 1].key == key then rules[|rules| - 1].notifyOnExpect
    else NotifyFlag(rules[..|rules| - 1], key)
  }

  predicate ToNotify(e: Exp, rules: seq<Rule>, w: World) {
    e.IsOpen() && e.notified == [] && NotifyFlag(rules, e.key) && OwnersOf(w, e.col) != []
  }

  function Notified(e: Exp, rules: seq<Rule>, w: World): Exp {
    if ToNotify(e, rules, w) then e.(notified := OwnersOf(w, e.col)) else e
  }

  function NotifyAll(exps: seq<Exp>, rules: seq<Rule>, w: World): (r: seq<Exp>)
    ensures |r| == |exps|
    ensures forall i {:trigger r[i]} :: 0 <= i < |r| ==> r[i] == Notified(exps[i], rules, w)
  {
    seq(|exps|, i requires 0 <= i < |exps| => Notified(exps[i], rules, w))
  }

  // ----- completing -----

  predicate AllClosed(exps: seq<Exp>) {
    forall e :: e in exps ==> !e.IsOpen()
  }

  predicate Blocks(r: Rule, exps: seq<Exp>, filled: set<Id>) {
    r.kind == ColumnKind && r.triggers != [] && !HasKey(exps, r.key) && Triggerable(r, filled)
  }

  /** Something was expected, nothing is still open, and no column rule without an entry could fire now. */
  predicate Quiescent(exps: seq<Exp>, rules: seq<Rule>, filled: set<Id>) {
    exps != [] && AllClosed(exps) && forall r :: r in rules ==> !Blocks(r, exps, filled)
  }

  function Settle(exps: seq<Exp>, rules: seq<Rule>, filled: set<Id>): Run {
    Run(if Quiescent(exps, rules, filled) then Completed else Active, exps)
  }

  // ----- the three events -----

  function OpenedAtCreation(rules: seq<Rule>, filled: set<Id>, now: int): Firing {
    FireAllPrefilled(FireRows(Firing([], {}), rules, now), rules, filled, now)
  }

  /** A row appears: fire, satisfy what is filled, notify, maybe complete. */
  function CreateStep(rules: seq<Rule>, w: World, now: int): Run {
    var after := OpenedAtCreation(rules, w.filled, now).exps;
    Settle(NotifyAll(SatisfyIn(after, w.filled, now), rules, w), rules, w.filled)
  }

  /** A cell of an active run's row is written. */
  function UpdateStep(run: Run, rules: seq<Rule>, c: Id, w: World, now: int): Run {
    if run.status == Completed then run
    else
      var after := FireUpdates(Firing(run.exps, {}), rules, c, w.filled, now).exps;
      Settle(NotifyAll(SatisfyIn(after, {c}, now), rules, w), rules, w.filled)
  }

  /** An open expectation with a deadline: what makes an active run a candidate of the sweep. */
  predicate HasOpenDue(exps: seq<Exp>) {
    exists e :: e in exps && e.dueAt.Some? && e.IsOpen()
  }

  /** The deadline sweep; with no process at hand it breaches but never completes. */
  function SweepStep(run: Run, rules: Option<seq<Rule>>, w: World, now: int): Run {
    if run.status == Completed || !HasOpenDue(run.exps) then run
    else
      var exps := BreachAll(run.exps, now);
      if exps != run.exps && rules.Some? then Settle(exps, rules.value, w.filled) else Run(Active, exps)
  }
}
