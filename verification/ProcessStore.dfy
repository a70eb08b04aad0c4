/** How the SQL repository stores a ledger, and the sweep's candidate query over the stored flag. */
module ProcessStore {
  import opened ProcessLedger

  /** A stored expectation: the entry verbatim, its position, and the precomputed candidate flag. */
  datatype StoredExp = StoredExp(position: nat, openDue: bool, raw: Exp)

  /** The flag agrees with the entry it was computed from. */
  ghost predicate Flagged(row: StoredExp) {
    row.openDue <==> row.raw.dueAt.Some? && row.raw.IsOpen()
  }

  datatype StoredRun = StoredRun(status: Status, rows: seq<StoredExp>)

  ghost predicate RunFlagged(r: StoredRun) {
    forall i {:trigger r.rows[i]} :: 0 <= i < |r.rows| ==> Flagged(r.rows[i])
  }

  /** The ledger a reader gets back. */
  function Ledger(r: StoredRun): (exps: seq<Exp>)
    ensures |exps| == |r.rows| && forall i {:trigger exps[i]} :: 0 <= i < |exps| ==> exps[i] == r.rows[i].raw
  {
    seq(|r.rows|, i requires 0 <= i < |r.rows| => r.rows[i].raw)
  }

  class RunTable {
    var runs: seq<StoredRun>

    ghost predicate Valid()
      reads this
    {
      forall k {:trigger RunFlagged(runs[k])} :: 0 <= k < |runs| ==> RunFlagged(runs[k])
    }

    /** Delete and reinsert the whole ledger of one run, recomputing the flag of every row. */
    method SetExpectations(run: nat, exps: seq<Exp>)
      requires Valid() && run < |runs|
      modifies this
      ensures Valid() && |runs| == |old(runs)|
      ensures Ledger(runs[run]) == exps && runs[run].status == old(runs)[run].status
      ensures forall k :: 0 <= k < |runs| && k != run ==> runs[k] == old(runs)[k]
    {
      var rows: seq<StoredExp> := [];
      for i := 0 to |exps|
        invariant |rows| == i
        invariant forall j {:trigger rows[j]} :: 0 <= j < i ==> rows[j].raw == exps[j] && Flagged(rows[j])
      {
        var e := exps[i];
        rows := rows + [StoredExp(i, e.dueAt.Some? && e.IsOpen(), e)];
      }
      ghost var before := runs;
      runs := runs[run := StoredRun(runs[run].status, rows)];
      forall k | 0 <= k < |runs|
        ensures RunFlagged(runs[k])
      {
        if k != run { assert RunFlagged(before[k]); }
      }
    }

    /** The active runs with a flagged row, in order: exactly those the in-memory scan selects. */
    method ListActiveRunsWithDue() returns (found: seq<nat>)
      requires Valid()
      ensures forall k: nat :: k in found <==> k < |runs| && runs[k].status == Active && HasOpenDue(Ledger(runs[k]))
      ensures forall i, j :: 0 <= i < j < |found| ==> found[i] < found[j]
    {
      found := [];
      for k := 0 to |runs|
        invariant forall j: nat :: j in found <==> j < k && runs[j].status == Active && HasOpenDue(Ledger(runs[j]))
        invariant forall i, j :: 0 <= i < j < |found| ==> found[i] < found[j]
        invariant forall i :: 0 <= i < |found| ==> found[i] < k
      {
        assert RunFlagged(runs[k]);
        FlagIsScan(runs[k]);
        if runs[k].status == Active && exists row :: row in runs[k].rows && row.openDue {
          found := found + [k];
        }
      }
    }
  }

  /** The stored flag selects exactly the ledgers the in-memory scan selects. */
  lemma FlagIsScan(r: StoredRun)
    requires RunFlagged(r)
    ensures (exists row :: row in r.rows && row.openDue) <==> HasOpenDue(Ledger(r))
  {
    var exps := Ledger(r);
    if exists row :: row in r.rows && row.openDue {
      var i :| 0 <= i < |r.rows| && r.rows[i].openDue;
      assert exps[i] in exps;
    }
    if HasOpenDue(exps) {
      var i :| 0 <= i < |exps| && exps[i].dueAt.Some? && exps[i].IsOpen();
      assert r.rows[i] in r.rows;
    }
  }
}
