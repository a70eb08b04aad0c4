/** Sorting rows by a stored integer key, the way `sorted(rows, key=...)` and ORDER BY do: stably. */
module Sorting {
  import opened Common

  function Key(key: map<Id, int>, k: Id): int {
    if k in key then key[k] else 0
  }

  function InsertSorted(t: seq<Id>, x: Id, key: map<Id, int>): (r: seq<Id>)
    ensures |r| == |t| + 1
  {
    if t == [] || Key(key, t[|t| - 1]) <= Key(key, x) then t + [x]
    else InsertSorted(t[..|t| - 1], x, key) + [t[|t| - 1]]
  }

  function SortBy(s: seq<Id>, key: map<Id, int>): (r: seq<Id>)
    ensures |r| == |s|
  {
    if s == [] then [] else InsertSorted(SortBy(s[..|s| - 1], key), s[|s| - 1], key)
  }

  /** The elements of `s` that lie in `keep`, in the order of `s`. */
  function Keep(s: seq<Id>, keep: set<Id>): seq<Id> {
    if s == [] then []
    else Keep(s[..|s| - 1], keep) + (if s[|s| - 1] in keep then [s[|s| - 1]] else [])
  }

  lemma {:induction false} KeepMembers(s: seq<Id>, keep: set<Id>)
    ensures forall k :: k in Keep(s, keep) <==> k in s && k in keep
    ensures NoDup(s) ==> NoDup(Keep(s, keep))
  {
    if s != [] {
      var t, x := s[..|s| - 1], s[|s| - 1];
      assert s == t + [x];
      KeepMembers(t, keep);
      if NoDup(s) && x in keep {
        NoDupSnoc(Keep(t, keep), x);
        assert Keep(s, keep) == Keep(t, keep) + [x];
      } else {
        assert x !in keep ==> Keep(s, keep) == Keep(t, keep);
      }
    }
  }

  // ----- strictly ascending sequences -----

  /** Strictly ascending by key, every key in [lo, hi). */
  ghost predicate Ascending(t: seq<Id>, key: map<Id, int>, lo: int, hi: int) {
    && lo <= hi
    && (t != [] ==> lo <= Key(key, t[|t| - 1]) < hi && Ascending(t[..|t| - 1], key, lo, Key(key, t[|t| - 1])))
  }

  lemma {:induction false} AscendingKeys(t: seq<Id>, key: map<Id, int>, lo: int, hi: int)
    requires Ascending(t, key, lo, hi)
    ensures forall i :: 0 <= i < |t| ==> lo <= Key(key, t[i]) < hi
    ensures forall i, j :: 0 <= i < j < |t| ==> Key(key, t[i]) < Key(key, t[j])
    ensures NoDup(t)
  {
    if t != [] {
      AscendingKeys(t[..|t| - 1], key, lo, Key(key, t[|t| - 1]));
    }
  }

  lemma {:induction false} AscendingFromKeys(t: seq<Id>, key: map<Id, int>, lo: int, hi: int)
    requires lo <= hi
    requires forall i :: 0 <= i < |t| ==> lo <= Key(key, t[i]) < hi
    requires forall i, j :: 0 <= i < j < |t| ==> Key(key, t[i]) < Key(key, t[j])
    ensures Ascending(t, key, lo, hi)
  {
    if t != [] {
      AscendingFromKeys(t[..|t| - 1], key, lo, Key(key, t[|t| - 1]));
    }
  }

  lemma {:induction false} AscendingConcat(a: seq<Id>, b: seq<Id>, key: map<Id, int>, lo: int, mid: int, hi: int)
    requires Ascending(a, key, lo, mid) && Ascending(b, key, mid, hi)
    ensures Ascending(a + b, key, lo, hi)
  {
    if b == [] {
      assert a + b == a;
      AscendingWiden(a, key, lo, mid, lo, hi);
    } else {
      AscendingConcat(a, b[..|b| - 1], key, lo, mid, Key(key, b[|b| - 1]));
      assert (a + b)[..|a + b| - 1] == a + b[..|b| - 1];
    }
  }

  lemma {:induction false} AscendingWiden(t: seq<Id>, key: map<Id, int>, lo: int, hi: int, lo': int, hi': int)
    requires Ascending(t, key, lo, hi) && lo' <= lo && hi <= hi'
    ensures Ascending(t, key, lo', hi')
  {
    if t != [] {
      var h := Key(key, t[|t| - 1]);
      AscendingWiden(t[..|t| - 1], key, lo, h, lo', h);
    }
  }

  /** A set of rows has only one strictly ascending listing. */
  lemma {:induction false} AscendingUnique(a: seq<Id>, b: seq<Id>, key: map<Id, int>, lo: int, hi: int)
    requires Ascending(a, key, lo, hi) && Ascending(b, key, lo, hi)
    requires forall k :: k in a <==> k in b
    ensures a == b
  {
    assert a != [] ==> a[0] in b;
    assert b != [] ==> b[0] in a;
    if a != [] {
      var fa, fb := a[..|a| - 1], b[..|b| - 1];
      SameLast(a, b, key, lo, hi, fa, fb);
      hide *;
      AscendingUnique(fa, fb, key, lo, Key(key, a[|a| - 1]));
      SnocEqual(a, b);
    }
  }

  lemma SnocEqual(a: seq<Id>, b: seq<Id>)
    requires a != [] && b != [] && a[..|a| - 1] == b[..|b| - 1] && a[|a| - 1] == b[|b| - 1]
    ensures a == b
  {
    assert a == a[..|a| - 1] + [a[|a| - 1]] && b == b[..|b| - 1] + [b[|b| - 1]];
  }

  /** The last of an ascending list is the one with the largest key, and it is there once. */
  lemma LastIsLargest(t: seq<Id>, key: map<Id, int>, lo: int, hi: int)
    requires Ascending(t, key, lo, hi) && t != []
    ensures forall k :: k in t[..|t| - 1] ==> Key(key, k) < Key(key, t[|t| - 1])
    ensures forall k :: k in t <==> k in t[..|t| - 1] || k == t[|t| - 1]
    ensures Ascending(t[..|t| - 1], key, lo, Key(key, t[|t| - 1]))
  {
    AscendingKeys(t[..|t| - 1], key, lo, Key(key, t[|t| - 1]));
    SnocMembers(t);
  }

  lemma SameLast(a: seq<Id>, b: seq<Id>, key: map<Id, int>, lo: int, hi: int, fa: seq<Id>, fb: seq<Id>)
    requires Ascending(a, key, lo, hi) && Ascending(b, key, lo, hi) && a != [] && b != []
    requires fa == a[..|a| - 1] && fb == b[..|b| - 1]
    requires forall k :: k in a <==> k in b
    ensures a[|a| - 1] == b[|b| - 1]
    ensures forall k :: k in fa <==> k in fb
    ensures Ascending(fa, key, lo, Key(key, a[|a| - 1])) && Ascending(fb, key, lo, Key(key, a[|a| - 1]))
  {
    LastIsLargest(a, key, lo, hi);
    LastIsLargest(b, key, lo, hi);
    hide Ascending;
    var x, y := a[|a| - 1], b[|b| - 1];
    assert x in a && y in b;
    assert x in fb || x == y;
    assert y in fa || x == y;
    forall k
      ensures k in fa <==> k in fb
    {
      assert k in a <==> k in b;
    }
  }

  /** A list ending in its largest key is ascending when its front is. */
  lemma {:induction false} AscendingSnoc(t: seq<Id>, y: Id, key: map<Id, int>, lo: int, hi: int)
    requires Ascending(t, key, lo, Key(key, y)) && lo <= Key(key, y) < hi
    ensures Ascending(t + [y], key, lo, hi)
  {
    assert (t + [y])[..|t|] == t;
  }

  // ----- what SortBy does -----

  lemma {:induction false} InsertMembers(t: seq<Id>, x: Id, key: map<Id, int>)
    ensures forall k :: k in InsertSorted(t, x, key) <==> k in t || k == x
  {
    if t != [] && Key(key, t[|t| - 1]) > Key(key, x) {
      InsertMembers(t[..|t| - 1], x, key);
      assert t == t[..|t| - 1] + [t[|t| - 1]];
    }
  }

  lemma {:induction false} SortMembers(s: seq<Id>, key: map<Id, int>)
    ensures forall k :: k in SortBy(s, key) <==> k in s
  {
    if s != [] {
      SortMembers(s[..|s| - 1], key);
      InsertMembers(SortBy(s[..|s| - 1], key), s[|s| - 1], key);
      assert s == s[..|s| - 1] + [s[|s| - 1]];
    }
  }

  ghost predicate KeysApart(s: seq<Id>, key: map<Id, int>) {
    forall a, b :: a in s && b in s && a != b ==> Key(key, a) != Key(key, b)
  }

  lemma {:induction false} InsertAscending(t: seq<Id>, x: Id, key: map<Id, int>, lo: int, hi: int)
    requires Ascending(t, key, lo, hi) && lo <= Key(key, x) < hi
    requires forall k :: k in t ==> Key(key, k) != Key(key, x)
    ensures Ascending(InsertSorted(t, x, key), key, lo, hi)
  {
    if t == [] {
      assert InsertSorted(t, x, key) == [x] && [x][..0] == [];
    } else {
      var y := t[|t| - 1];
      assert y in t && lo <= Key(key, y) < hi;
      SnocMembers(t);
      if Key(key, y) < Key(key, x) {
        assert Ascending(t, key, lo, Key(key, x));
        hide Ascending;
        AscendingSnoc(t, x, key, lo, hi);
      } else {
        assert Ascending(t[..|t| - 1], key, lo, Key(key, y));
        hide Ascending;
        InsertAscending(t[..|t| - 1], x, key, lo, Key(key, y));
        AscendingSnoc(InsertSorted(t[..|t| - 1], x, key), y, key, lo, hi);
      }
    }
  }

  /** With distinct keys the result is the strictly ascending listing. */
  lemma {:induction false} SortAscending(s: seq<Id>, key: map<Id, int>, lo: int, hi: int)
    requires NoDup(s) && KeysApart(s, key) && lo <= hi
    requires forall k :: k in s ==> lo <= Key(key, k) < hi
    ensures Ascending(SortBy(s, key), key, lo, hi)
  {
    if s != [] {
      var t, x := s[..|s| - 1], s[|s| - 1];
      assert s == t + [x];
      SortAscending(t, key, lo, hi);
      SortMembers(t, key);
      InsertAscending(SortBy(t, key), x, key, lo, hi);
    }
  }

  /** Sorting a set of rows with distinct keys gives whichever ascending listing one can exhibit. */
  lemma {:induction false} SortIs(s: seq<Id>, t: seq<Id>, key: map<Id, int>, lo: int, hi: int)
    requires NoDup(s) && Ascending(t, key, lo, hi)
    requires forall k :: k in s <==> k in t
    ensures SortBy(s, key) == t
  {
    AscendingKeys(t, key, lo, hi);
    forall a, b | a in s && b in s && a != b
      ensures Key(key, a) != Key(key, b)
    {
      var i :| 0 <= i < |t| && t[i] == a;
      var j :| 0 <= j < |t| && t[j] == b;
    }
    forall k | k in s
      ensures lo <= Key(key, k) < hi
    {
      var i :| 0 <= i < |t| && t[i] == k;
    }
    SortAscending(s, key, lo, hi);
    SortMembers(s, key);
    AscendingUnique(SortBy(s, key), t, key, lo, hi);
  }

  // ----- stability -----

  /** Weakly ascending by key. */
  ghost predicate Sorted(t: seq<Id>, key: map<Id, int>) {
    t == [] || (Sorted(t[..|t| - 1], key) && forall k :: k in t[..|t| - 1] ==> Key(key, k) <= Key(key, t[|t| - 1]))
  }

  lemma {:induction false} InsertKeepsSorted(t: seq<Id>, x: Id, key: map<Id, int>)
    requires Sorted(t, key)
    ensures Sorted(InsertSorted(t, x, key), key)
  {
    if t != [] {
      var u, y := t[..|t| - 1], t[|t| - 1];
      assert t == u + [y];
      if Key(key, y) <= Key(key, x) {
        assert (t + [x])[..|t|] == t;
      } else {
        InsertKeepsSorted(u, x, key);
        InsertMembers(u, x, key);
        var r := InsertSorted(u, x, key);
        assert (r + [y])[..|r|] == r;
      }
    } else {
      assert [x][..0] == [];
      assert [] + [x] == [x];
    }
  }

  lemma {:induction false} SortSorted(s: seq<Id>, key: map<Id, int>)
    ensures Sorted(SortBy(s, key), key)
  {
    if s != [] {
      SortSorted(s[..|s| - 1], key);
      InsertKeepsSorted(SortBy(s[..|s| - 1], key), s[|s| - 1], key);
    }
  }

  lemma {:induction false} KeepSnoc(t: seq<Id>, x: Id, keep: set<Id>)
    ensures Keep(t + [x], keep) == Keep(t, keep) + (if x in keep then [x] else [])
  {
    assert (t + [x])[..|t|] == t;
  }

  lemma {:induction false} SortedFront(u: seq<Id>, key: map<Id, int>)
    requires Sorted(u, key) && u != []
    ensures Sorted(u[..|u| - 1], key)
  {
  }

  lemma {:induction false} InsertKeep(u: seq<Id>, x: Id, key: map<Id, int>, keep: set<Id>)
    requires Sorted(u, key)
    ensures Keep(InsertSorted(u, x, key), keep)
            == if x in keep then InsertSorted(Keep(u, keep), x, key) else Keep(u, keep)
  {
    if u == [] {
      KeepSnoc([], x, keep);
      assert [] + [x] == [x];
    } else {
      hide Keep, Sorted;
      SortedFront(u, key);
      var t, y := u[..|u| - 1], u[|u| - 1];
      if Key(key, y) <= Key(key, x) {
        assert InsertSorted(u, x, key) == u + [x];
        hide *;
        KeepSnoc(u, x, keep);
        KeepBelow(u, x, key, keep);
      } else {
        hide *;
        assert u == t + [y];
        InsertKeep(t, x, key, keep);
        InsertKeepInner(t, x, y, key, keep);
      }
    }
  }

  lemma {:induction false} InsertKeepInner(t: seq<Id>, x: Id, y: Id, key: map<Id, int>, keep: set<Id>)
    requires Key(key, x) < Key(key, y)
    requires Keep(InsertSorted(t, x, key), keep)
             == if x in keep then InsertSorted(Keep(t, keep), x, key) else Keep(t, keep)
    ensures Keep(InsertSorted(t + [y], x, key), keep)
            == if x in keep then InsertSorted(Keep(t + [y], keep), x, key) else Keep(t + [y], keep)
  {
    KeepSnoc(t, y, keep);
    InsertAbove(t, x, y, key);
    InsertAbove(Keep(t, keep), x, y, key);
    KeepSnoc(InsertSorted(t, x, key), y, keep);
    assert y !in keep ==> Keep(t + [y], keep) == Keep(t, keep);
  }

  /** Nothing kept of a sorted list lies above its last element. */
  lemma {:induction false} KeepBelow(u: seq<Id>, x: Id, key: map<Id, int>, keep: set<Id>)
    requires u != [] && Sorted(u, key) && Key(key, u[|u| - 1]) <= Key(key, x)
    ensures InsertSorted(Keep(u, keep), x, key) == Keep(u, keep) + [x]
  {
    KeepMembers(u, keep);
    var v := Keep(u, keep);
    assert v != [] ==> v[|v| - 1] in v;
    assert u == u[..|u| - 1] + [u[|u| - 1]];
  }

  lemma {:induction false} InsertAbove(v: seq<Id>, x: Id, y: Id, key: map<Id, int>)
    requires Key(key, x) < Key(key, y)
    ensures InsertSorted(v + [y], x, key) == InsertSorted(v, x, key) + [y]
  {
    assert (v + [y])[..|v|] == v;
  }

  /** Sorting and restricting commute: rows that tie keep their relative order. */
  lemma {:induction false} SortKeep(s: seq<Id>, key: map<Id, int>, keep: set<Id>)
    ensures Keep(SortBy(s, key), keep) == SortBy(Keep(s, keep), key)
  {
    if s != [] {
      hide *;
      var t, x := s[..|s| - 1], s[|s| - 1];
      assert s == t + [x];
      SortKeep(t, key, keep);
      SortSnoc(t, x, key);
      SortSorted(t, key);
      InsertKeep(SortBy(t, key), x, key, keep);
      KeepSnoc(t, x, keep);
      var v := Keep(t, keep);
      if x in keep { SortSnoc(v, x, key); } else { assert v + [] == v; }
    }
  }

  lemma {:induction false} SortSnoc(t: seq<Id>, x: Id, key: map<Id, int>)
    ensures SortBy(t + [x], key) == InsertSorted(SortBy(t, key), x, key)
  {
    assert (t + [x])[..|t|] == t;
  }

  /** Rows that all carry the same key stay as they are. */
  lemma {:induction false} SortTies(s: seq<Id>, key: map<Id, int>)
    requires forall a, b :: a in s && b in s ==> Key(key, a) == Key(key, b)
    ensures SortBy(s, key) == s
  {
    if s != [] {
      var t, x := s[..|s| - 1], s[|s| - 1];
      assert s == t + [x];
      SortTies(t, key);
    }
  }
}
