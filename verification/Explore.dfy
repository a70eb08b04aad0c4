/** Bounded reads over a numbered sheet: the subtree walk, the depth pass and the keyset pager. */
module Explore {
  import opened Common
  import opened Forests
  import opened NestedSets
  import opened Sorting
  import opened Preorders
  import opened TreeRepository

  const MIN_PAGE: int := 1
  const MAX_PAGE: int := 200
  const NODE_BUDGET: int := 200

  /** What the pager sees of a node. */
  datatype Row = Row(lft: int, name: Id)

  predicate Beyond(r: Row, c: Row) {
    r.lft > c.lft || (r.lft == c.lft && r.name > c.name)
  }

  function ClampLimit(limit: int): (r: int)
    ensures 1 <= limit <= 200 ==> r == limit
    ensures limit < 1 ==> r == 1
    ensures limit > 200 ==> r == 200
  {
    if limit < MIN_PAGE then MIN_PAGE else if limit > MAX_PAGE then MAX_PAGE else limit
  }

  // ----- keyset paging -----

  datatype Page = Page(window: seq<Row>, hasMore: bool, next: Option<Row>)

  /** Where the rows beyond the cursor begin. */
  function FirstBeyond(items: seq<Row>, c: Row): (i: nat)
    ensures i <= |items|
    ensures forall j {:trigger Beyond(items[j], c)} :: 0 <= j < i ==> !Beyond(items[j], c)
    ensures i < |items| ==> Beyond(items[i], c)
  {
    if items == [] then 0
    else if Beyond(items[0], c) then 0
    else
      assert forall j :: 1 <= j < |items| ==> items[j] == items[1..][j - 1];
      1 + FirstBeyond(items[1..], c)
  }

  function StartOf(items: seq<Row>, cursor: Option<Row>): (i: nat)
    ensures i <= |items|
  {
    match cursor case None => 0 case Some(c) => FirstBeyond(items, c)
  }

  function PageAt(items: seq<Row>, cursor: Option<Row>, limit: nat): Page
    requires 1 <= limit
  {
    var rest := items[StartOf(items, cursor)..];
    if |rest| > limit then Page(rest[..limit], true, Some(rest[limit - 1])) else Page(rest, false, None)
  }

  /**
   * A page of a list in key order: the first rows beyond the cursor, as many as the limit allows; there
   * is more exactly when some of them did not fit, and then the last row shown is the next cursor.
   */
  lemma PageIsExact(items: seq<Row>, cursor: Option<Row>, limit: nat) returns (lo: nat, hi: nat)
    requires InKeyOrder(items) && 1 <= limit
    ensures lo <= hi <= |items| && PageAt(items, cursor, limit).window == items[lo..hi]
    ensures forall i {:trigger items[i]} :: 0 <= i < |items| ==>
              (lo <= i <==> || cursor == None || items[i].lft > cursor.value.lft
                            || (items[i].lft == cursor.value.lft && items[i].name > cursor.value.name))
    ensures hi == |items| || hi - lo == limit
    ensures hi - lo <= limit
    ensures PageAt(items, cursor, limit).hasMore <==> hi < |items|
    ensures PageAt(items, cursor, limit).next == if hi < |items| then Some(items[hi - 1]) else None
  {
    lo := StartOf(items, cursor);
    hi := if |items| - lo > limit then lo + limit else |items|;
    assert items[lo..][..hi - lo] == items[lo..hi];
    if cursor.Some? {
      forall i | lo <= i < |items|
        ensures Beyond(items[i], cursor.value)
      {
        assert i > lo ==> Beyond(items[i], items[lo]);
      }
      forall i | 0 <= i < lo
        ensures !Beyond(items[i], cursor.value)
      {
      }
    }
  }

  method Paginate(items: seq<Row>, cursor: Option<Row>, limit: nat) returns (page: Page)
    requires 1 <= limit
    ensures page == PageAt(items, cursor, limit)
  {
    var rest := items;
    if cursor.Some? {
      var start, i := |items|, 0;
      while i < |items|
        invariant 0 <= i <= |items| && start == |items|
        invariant forall j :: 0 <= j < i ==> !Beyond(items[j], cursor.value)
      {
        if Beyond(items[i], cursor.value) {
          start := i;
          break;
        }
        i := i + 1;
      }
      assert start == FirstBeyond(items, cursor.value);
      rest := items[start..];
    }
    var window := if |rest| > limit then rest[..limit] else rest;
    var hasMore := |rest| > limit;
    var next := if hasMore && window != [] then Some(window[|window| - 1]) else None;
    page := Page(window, hasMore, next);
  }

  /** The list the pager is meant for: strictly ascending by (lft, name). */
  ghost predicate InKeyOrder(items: seq<Row>) {
    forall i, j {:trigger Beyond(items[j], items[i])} :: 0 <= i < j < |items| ==> Beyond(items[j], items[i])
  }

  lemma {:induction false} CursorLandsAfter(items: seq<Row>, k: nat)
    requires InKeyOrder(items) && k < |items|
    ensures FirstBeyond(items, items[k]) == k + 1
  {
    forall j | 0 <= j <= k
      ensures !Beyond(items[j], items[k])
    {
      assert j < k ==> Beyond(items[k], items[j]);
    }
    assert k + 1 < |items| ==> Beyond(items[k + 1], items[k]);
  }

  /** The windows a client collects by following `next` until `hasMore` is false. */
  ghost function Follow(items: seq<Row>, cursor: Option<Row>, limit: nat): seq<seq<Row>>
    requires InKeyOrder(items) && 1 <= limit
    requires cursor.Some? ==> cursor.value in items
    decreases |items| - StartOf(items, cursor)
  {
    var page := PageAt(items, cursor, limit);
    if page.hasMore then
      var k := StartOf(items, cursor) + limit - 1;
      assert page.next == Some(items[k]);
      CursorLandsAfter(items, k);
      [page.window] + Follow(items, page.next, limit)
    else [page.window]
  }

  ghost function Concat(windows: seq<seq<Row>>): seq<Row> {
    if windows == [] then [] else windows[0] + Concat(windows[1..])
  }

  lemma FollowStep(items: seq<Row>, cursor: Option<Row>, limit: nat) returns (next: Option<Row>, w: seq<Row>)
    requires InKeyOrder(items) && 1 <= limit
    requires cursor.Some? ==> cursor.value in items
    requires PageAt(items, cursor, limit).hasMore
    ensures next.Some? && next.value in items && StartOf(items, next) == StartOf(items, cursor) + limit
    ensures Follow(items, cursor, limit) == [w] + Follow(items, next, limit)
    ensures |w| == limit && w + items[StartOf(items, next)..] == items[StartOf(items, cursor)..]
  {
    var s := StartOf(items, cursor);
    var k := s + limit - 1;
    var page := PageAt(items, cursor, limit);
    next, w := page.next, page.window;
    FullPage(items, cursor, limit);
    FollowUnfolds(items, cursor, limit);
    StartsAt(items, items[k]);
    hide *;
    CursorLandsAfter(items, k);
  }

  lemma {:induction false} StartsAt(items: seq<Row>, c: Row)
    ensures StartOf(items, Some(c)) == FirstBeyond(items, c)
  {
  }

  lemma {:induction false} FollowUnfolds(items: seq<Row>, cursor: Option<Row>, limit: nat)
    requires InKeyOrder(items) && 1 <= limit
    requires cursor.Some? ==> cursor.value in items
    requires PageAt(items, cursor, limit).hasMore
    ensures var page := PageAt(items, cursor, limit);
            page.next.Some? && page.next.value in items &&
              Follow(items, cursor, limit) == [page.window] + Follow(items, page.next, limit)
  {
    FullPage(items, cursor, limit);
    hide PageAt, FirstBeyond, InKeyOrder;
    assert items[StartOf(items, cursor) + limit - 1] in items;
  }

  /** A page with more behind it ends at its limit. */
  lemma FullPage(items: seq<Row>, cursor: Option<Row>, limit: nat)
    requires 1 <= limit && PageAt(items, cursor, limit).hasMore
    ensures var s, page := StartOf(items, cursor), PageAt(items, cursor, limit);
            && s + limit < |items| && page.next == Some(items[s + limit - 1])
            && |page.window| == limit && page.window + items[s + limit..] == items[s..]
  {
    hide FirstBeyond;
    var s := StartOf(items, cursor);
    assert items[s..][..limit] + items[s + limit..] == items[s..];
  }

  lemma {:induction false} ConcatCons(w: seq<Row>, rest: seq<seq<Row>>)
    ensures Concat([w] + rest) == w + Concat(rest)
  {
    assert ([w] + rest)[1..] == rest;
  }

  /** Following the cursor visits every remaining row exactly once and in order. */
  lemma {:induction false} FollowIsExhaustive(items: seq<Row>, cursor: Option<Row>, limit: nat)
    requires InKeyOrder(items) && 1 <= limit
    requires cursor.Some? ==> cursor.value in items
    ensures Concat(Follow(items, cursor, limit)) == items[StartOf(items, cursor)..]
    decreases |items| - StartOf(items, cursor)
  {
    if PageAt(items, cursor, limit).hasMore {
      var next, w := FollowStep(items, cursor, limit);
      FollowIsExhaustive(items, next, limit);
      ConcatCons(w, Follow(items, next, limit));
    } else {
      ConcatCons(items[StartOf(items, cursor)..], []);
    }
  }

  /** Every window but the last is exactly `limit` long, and the last no longer. */
  ghost predicate Full(windows: seq<seq<Row>>, limit: nat) {
    && windows != []
    && if |windows| == 1 then |windows[0]| <= limit else |windows[0]| == limit && Full(windows[1..], limit)
  }

  lemma {:induction false} FullCons(w: seq<Row>, rest: seq<seq<Row>>, limit: nat)
    requires |w| == limit && Full(rest, limit)
    ensures Full([w] + rest, limit)
  {
    assert ([w] + rest)[1..] == rest;
  }

  lemma {:induction false} FollowIsFull(items: seq<Row>, cursor: Option<Row>, limit: nat)
    requires InKeyOrder(items) && 1 <= limit
    requires cursor.Some? ==> cursor.value in items
    ensures Full(Follow(items, cursor, limit), limit)
    decreases |items| - StartOf(items, cursor)
  {
    if PageAt(items, cursor, limit).hasMore {
      var next, w := FollowStep(items, cursor, limit);
      FollowIsFull(items, next, limit);
      FullCons(w, Follow(items, next, limit), limit);
    }
  }

  lemma {:induction false} PagingIsExhaustive(items: seq<Row>, limit: int)
    requires InKeyOrder(items)
    ensures Concat(Follow(items, None, ClampLimit(limit))) == items
    ensures Full(Follow(items, None, ClampLimit(limit)), ClampLimit(limit))
  {
    FollowIsExhaustive(items, None, ClampLimit(limit));
    FollowIsFull(items, None, ClampLimit(limit));
    assert items[0..] == items;
  }

  // ----- node lists as rows -----

  function Rows(x: Index, ids: seq<Id>): (r: seq<Row>)
    ensures |r| == |ids| && forall i :: 0 <= i < |ids| ==> r[i] == Row(x.L(ids[i]), ids[i])
  {
    seq(|ids|, i requires 0 <= i < |ids| => Row(x.L(ids[i]), ids[i]))
  }

  /** Any lft-ascending list of nodes is a legal input of the pager. */
  lemma {:induction false} AscendingRows(x: Index, ids: seq<Id>, lo: int, hi: int)
    requires Ascending(ids, x.lft, lo, hi)
    ensures InKeyOrder(Rows(x, ids))
  {
    AscendingKeys(ids, x.lft, lo, hi);
    var r := Rows(x, ids);
    forall i, j | 0 <= i < j < |r|
      ensures Beyond(r[j], r[i])
    {
      assert Key(x.lft, ids[i]) < Key(x.lft, ids[j]);
    }
  }

  // ----- children grouped from the lft-ordered rows -----

  lemma {:induction false} KidsAscending(s: Sheet, p: Option<Id>)
    requires AtNode(s.f, p)
    ensures Ascending(Kids(s.f, p), s.x.lft, Start(s.x, p), Cursor(s.x, p, Kids(s.f, p), |Kids(s.f, p)|))
  {
    KidsAscendingTo(s, p, |Kids(s.f, p)|);
    assert Kids(s.f, p)[..|Kids(s.f, p)|] == Kids(s.f, p);
  }

  lemma {:induction false} KidsAscendingTo(s: Sheet, p: Option<Id>, i: nat)
    requires AtNode(s.f, p) && i <= |Kids(s.f, p)|
    ensures Ascending(Kids(s.f, p)[..i], s.x.lft, Start(s.x, p), Cursor(s.x, p, Kids(s.f, p), i))
    decreases i
  {
    var kids := Kids(s.f, p);
    CursorMono(s, p, 0, i);
    if i > 0 {
      KidsAscendingTo(s, p, i - 1);
      KidSpan(s, p, i - 1);
      CursorMono(s, p, 0, i - 1);
      assert kids[..i][..i - 1] == kids[..i - 1];
    }
  }

  lemma {:induction false} KidsOfAscending(ids: seq<Id>, par: map<Id, Option<Id>>, p: Option<Id>, key: map<Id, int>,
                                           lo: int, hi: int)
    requires Ascending(ids, key, lo, hi)
    ensures Ascending(KidsOf(ids, par, p), key, lo, hi)
  {
    if ids != [] {
      var k := ids[|ids| - 1];
      KidsOfAscending(ids[..|ids| - 1], par, p, key, lo, Key(key, k));
      var r := KidsOf(ids[..|ids| - 1], par, p);
      if k in par && par[k] == p {
        assert (r + [k])[..|r|] == r;
      } else {
        assert KidsOf(ids, par, p) == r;
        AscendingWiden(r, key, lo, Key(key, k), lo, hi);
      }
    }
  }

  /** Grouping the preorder by parent gives back each node's children in sibling order. */
  lemma {:induction false} GroupingIsKids(s: Sheet, p: Option<Id>)
    ensures KidsOf(Preorder(s.f), s.f.par, p) == Kids(s.f, p)
  {
    var w, n := Preorder(s.f), 2 * |s.f.order| + 1;
    PreorderQuery(s);
    KidsOfAscending(w, s.f.par, p, s.x.lft, 1, n);
    AscendingKeys(w, s.x.lft, 1, n);
    KidsOfMembers(w, s.f.par, p);
    KidsMembers(s.f, p);
    var a, b := KidsOf(w, s.f.par, p), Kids(s.f, p);
    forall k
      ensures k in a <==> k in b
    {
      assert k in w <==> k in s.f.par;
    }
    if AtNode(s.f, p) {
      var hi := Cursor(s.x, p, b, |b|);
      KidsAscending(s, p);
      AscendingWiden(b, s.x.lft, Start(s.x, p), hi, 0, n + hi);
      AscendingWiden(a, s.x.lft, 1, n, 0, n + hi);
      AscendingUnique(a, b, s.x.lft, 0, n + hi);
    } else {
      NoChildrenOutside(s.f, p, a);
      NoChildrenOutside(s.f, p, b);
    }
  }

  lemma NoChildrenOutside(f: Forest, p: Option<Id>, a: seq<Id>)
    requires !AtNode(f, p) && forall k :: k in a ==> k in f.par && f.par[k] == p
    ensures a == []
  {
    if a != [] {
      assert a[0] in a;
      ParentIn(f, a[0]);
    }
  }

  lemma ParentIn(f: Forest, k: Id)
    requires k in f.par
    ensures AtNode(f, f.par[k])
  {
    assert f.LinkOk(k);
  }

  method ChildrenIndex(nodes: seq<Id>, par: map<Id, Option<Id>>) returns (index: map<Option<Id>, seq<Id>>)
    requires forall k :: k in nodes ==> k in par
    ensures forall p {:trigger Get(index, p)} :: Get(index, p) == KidsOf(nodes, par, p)
  {
    index := map[];
    for i := 0 to |nodes|
      invariant forall p {:trigger Get(index, p)} :: Get(index, p) == KidsOf(nodes[..i], par, p)
    {
      var n := nodes[i];
      assert n in nodes;
      KidsOfSnoc(nodes, par, i);
      ghost var was := index;
      index := index[par[n] := Get(index, par[n]) + [n]];
      forall p
        ensures Get(index, p) == KidsOf(nodes[..i + 1], par, p)
      {
        assert Get(was, p) == KidsOf(nodes[..i], par, p);
      }
    }
    assert nodes[..|nodes|] == nodes;
  }

  // ----- the explicit-stack walk -----

  datatype Frame = Frame(node: Id, level: nat)

  /** What popping one frame and everything pushed on its behalf lists, `d` levels down from level 0. */
  ghost function Listed(f: Forest, e: Frame, d: nat): seq<Id> {
    [e.node] + if e.level + 1 < d then Walk(f, Kids(f, Some(e.node)), d - 1 - e.level) else []
  }

  /** What popping the whole stack (top last) lists. */
  ghost function Pending(f: Forest, stack: seq<Frame>, d: nat): seq<Id> {
    if stack == [] then [] else Listed(f, stack[|stack| - 1], d) + Pending(f, stack[..|stack| - 1], d)
  }

  lemma {:induction false} NothingPending(f: Forest, d: nat)
    ensures Pending(f, [], d) == []
  {
  }

  lemma {:induction false} PendingPush(f: Forest, rest: seq<Frame>, e: Frame, d: nat)
    ensures Pending(f, rest + [e], d) == Listed(f, e, d) + Pending(f, rest, d)
  {
    assert (rest + [e])[..|rest|] == rest;
  }

  lemma {:induction false} PushReversed(f: Forest, rest: seq<Frame>, kids: seq<Id>, level: nat, d: nat)
    requires level < d
    ensures Pending(f, rest + Pushed(kids, level), d) == Walk(f, kids, d - level) + Pending(f, rest, d)
  {
    if kids == [] {
      assert rest + Pushed(kids, level) == rest;
    } else {
      var below, top := rest + Pushed(kids[1..], level), Frame(kids[0], level);
      PushReversed(f, rest, kids[1..], level, d);
      PendingPush(f, below, top, d);
      assert rest + Pushed(kids, level) == below + [top];
      ListedIsWalk(f, kids, level, d);
      Assoc(Listed(f, top, d), Walk(f, kids[1..], d - level), Pending(f, rest, d));
    }
  }

  lemma Assoc(a: seq<Id>, b: seq<Id>, c: seq<Id>)
    ensures (a + b) + c == a + (b + c)
  {
  }

  lemma {:induction false} ListedIsWalk(f: Forest, kids: seq<Id>, level: nat, d: nat)
    requires kids != [] && level < d
    ensures Walk(f, kids, d - level) == Listed(f, Frame(kids[0], level), d) + Walk(f, kids[1..], d - level)
  {
  }

  /** `kids` as pushed last-first, so that the first is on top. */
  function Pushed(kids: seq<Id>, level: nat): (r: seq<Frame>)
    ensures |r| == |kids|
  {
    if kids == [] then [] else Pushed(kids[1..], level) + [Frame(kids[0], level)]
  }

  function Levels(depth: int): nat {
    if depth < 0 then 1 else depth + 1
  }

  /** Push the children last-first. */
  method PushChildren(stack: seq<Frame>, kids: seq<Id>, level: nat) returns (r: seq<Frame>)
    ensures r == stack + Pushed(kids, level)
  {
    r := stack;
    var i := |kids|;
    while i > 0
      invariant 0 <= i <= |kids|
      invariant r == stack + Pushed(kids[i..], level)
    {
      i := i - 1;
      assert kids[i..][1..] == kids[i + 1..] && kids[i..][0] == kids[i];
      r := r + [Frame(kids[i], level)];
    }
    assert kids[0..] == kids;
  }

  method ChildrenOf(repo: Repo) returns (childrenOf: map<Option<Id>, seq<Id>>)
    requires repo.Valid()
    ensures IsTable(childrenOf, repo.forest)
  {
    var nodes := repo.ListNodes();
    ghost var s := repo.S();
    PreorderQuery(s);
    childrenOf := ChildrenIndex(nodes, repo.par);
    forall p
      ensures Get(childrenOf, p) == Kids(s.f, p)
    {
      GroupingIsKids(s, p);
    }
  }

  /** Depth-bounded walk of one node's subtree with an explicit stack. */
  method SubtreeWalk(repo: Repo, node: Id, depth: int) returns (matched: seq<Id>)
    requires repo.Valid() && node in repo.par
    ensures matched == Walk(repo.forest, [node], Levels(depth))
  {
    hide Pending, Walk, Kids, Indexed;
    ghost var f, d := repo.forest, Levels(depth);
    NothingPending(f, d);
    var childrenOf := ChildrenOf(repo);
    matched := [];
    var stack := [Frame(node, 0)];
    SingleWalk(f, node, d);
    while stack != []
      invariant matched + Pending(f, stack, d) == Walk(f, [node], d)
      decreases |Pending(f, stack, d)|
    {
      var top, rest := stack[|stack| - 1], stack[..|stack| - 1];
      var next := rest;
      if top.level < depth {
        next := PushChildren(rest, Get(childrenOf, Some(top.node)), top.level + 1);
      }
      PopStep(f, matched, rest, top, next, d);
      assert stack == rest + [top];
      matched, stack := matched + [top.node], next;
    }
  }

  /** Popping one node and pushing its children moves exactly that node from pending to listed. */
  lemma {:induction false} PopStep(f: Forest, listed: seq<Id>, rest: seq<Frame>, top: Frame, next: seq<Frame>, d: nat)
    requires next == if top.level + 1 < d then rest + Pushed(Kids(f, Some(top.node)), top.level + 1) else rest
    ensures (listed + [top.node]) + Pending(f, next, d) == listed + Pending(f, rest + [top], d)
    ensures |Pending(f, next, d)| < |Pending(f, rest + [top], d)|
  {
    PendingPush(f, rest, top, d);
    var below := if top.level + 1 < d then Walk(f, Kids(f, Some(top.node)), d - 1 - top.level) else [];
    if top.level + 1 < d {
      PushReversed(f, rest, Kids(f, Some(top.node)), top.level + 1, d);
    }
    Reassociate(listed, top.node, below, Pending(f, rest, d));
    assert Pending(f, next, d) == below + Pending(f, rest, d);
  }

  lemma Reassociate(a: seq<Id>, x: Id, b: seq<Id>, c: seq<Id>)
    ensures (a + [x]) + (b + c) == a + (([x] + b) + c)
  {
  }

  lemma {:induction false} SingleWalk(f: Forest, n: Id, d: nat)
    requires d > 0
    ensures Pending(f, [Frame(n, 0)], d) == Walk(f, [n], d)
  {
    ListedIsWalk(f, [n], 0, d);
    assert [Frame(n, 0)] == [] + [Frame(n, 0)];
    PendingPush(f, [], Frame(n, 0), d);
  }

  /**
   * The walk lists the root and, of the rows in its interval, exactly those at most `depth` levels below
   * it (a negative depth: none), each once and in strictly increasing lft.
   */
  lemma SubtreeWalkIsWindow(s: Sheet, node: Id, depth: int, k: Id)
    requires node in s.f.par
    ensures k in Walk(s.f, [node], Levels(depth)) <==>
            && k in s.f.par && s.x.L(node) <= s.x.L(k) && s.x.R(k) <= s.x.R(node)
            && (k == node || s.f.depth[k] <= s.f.depth[node] + depth)
    ensures Ascending(Walk(s.f, [node], Levels(depth)), s.x.lft, s.x.L(node), s.x.R(node) + 1)
    ensures InKeyOrder(Rows(s.x, Walk(s.f, [node], Levels(depth))))
  {
    assert AllAt(s.f, [node], s.f.par[node]);
    WalkMembers(s.f, [node], s.f.par[node], Levels(depth), k);
    assert node in [node];
    if k in s.f.par {
      IndexIsAncestry(s, node, k);
      if Anc(s.f, node, k) { AncDepth(s.f, node, k); }
    }
    SpanCounts(s, node);
    assert LaidBetween(s.x, [node][1..], s.x.R(node) + 1, s.x.R(node) + 1);
    WalkAscending(s, [node], s.f.par[node], Levels(depth), s.x.L(node), s.x.R(node) + 1);
    AscendingRows(s.x, Walk(s.f, [node], Levels(depth)), s.x.L(node), s.x.R(node) + 1);
  }

  // ----- the depth pass -----

  /** One pass over the rows in lft order gives every node its depth in the tree. */
  method DepthPass(repo: Repo) returns (depthOf: map<Id, nat>, maxDepth: nat)
    requires repo.Valid()
    ensures depthOf == repo.forest.depth
    ensures forall k :: k in repo.par ==> repo.forest.depth[k] <= maxDepth
    ensures maxDepth == 0 || exists k :: k in repo.par && repo.forest.depth[k] == maxDepth
  {
    hide Preorder, Indexed, DepthsSoFar;
    var nodes := repo.ListNodes();
    ghost var s, f := repo.S(), repo.forest;
    depthOf, maxDepth := map[], 0;
    NoDepthsYet(f);
    ghost var deepest := None;
    for i := 0 to |nodes|
      invariant DepthsSoFar(f, nodes[..i], depthOf, maxDepth)
      invariant maxDepth == 0 || (deepest.Some? && deepest.value in f.par && f.depth[deepest.value] == maxDepth)
    {
      var n := nodes[i];
      DepthOfNext(s, i, depthOf, maxDepth);
      var d := match repo.par[n]
        case None => 0
        case Some(p) => (if p in depthOf then depthOf[p] else 0) + 1;
      DepthsGrow(f, nodes, i, depthOf, maxDepth, d);
      depthOf := depthOf[n := d];
      if d > maxDepth {
        maxDepth, deepest := d, Some(n);
      }
    }
    assert nodes[..|nodes|] == nodes;
    DepthsComplete(s, depthOf, maxDepth);
  }

  /** The rows seen so far carry their true depth, none above `most`. */
  ghost predicate DepthsSoFar(f: Forest, seen: seq<Id>, depthOf: map<Id, nat>, most: nat) {
    && (forall k :: k in depthOf <==> k in seen)
    && (forall k :: k in depthOf ==> k in f.par && depthOf[k] == f.depth[k] <= most)
  }

  lemma NoDepthsYet(f: Forest)
    ensures DepthsSoFar(f, [], map[], 0)
  {
  }

  /** The parent's depth is known when its child is reached. */
  lemma DepthOfNext(s: Sheet, i: nat, depthOf: map<Id, nat>, most: nat)
    requires i < |Preorder(s.f)| && DepthsSoFar(s.f, Preorder(s.f)[..i], depthOf, most)
    ensures var n := Preorder(s.f)[i];
            && n in s.f.par
            && s.f.depth[n] ==
               match s.f.par[n] case None => 0 case Some(p) => (if p in depthOf then depthOf[p] else 0) + 1
  {
    ParentEarlier(s, i);
  }

  /** With every node seen, the table is the depth of every node. */
  lemma DepthsComplete(s: Sheet, depthOf: map<Id, nat>, most: nat)
    requires DepthsSoFar(s.f, Preorder(s.f), depthOf, most)
    ensures depthOf == s.f.depth && forall k :: k in s.f.par ==> s.f.depth[k] <= most
  {
    PreorderQuery(s);
  }

  lemma DepthsGrow(f: Forest, nodes: seq<Id>, i: nat, depthOf: map<Id, nat>, most: nat, d: nat)
    requires i < |nodes| && nodes[i] in f.par && f.depth[nodes[i]] == d
    requires DepthsSoFar(f, nodes[..i], depthOf, most)
    ensures DepthsSoFar(f, nodes[..i + 1], depthOf[nodes[i] := d], if d > most then d else most)
  {
    assert nodes[..i + 1] == nodes[..i] + [nodes[i]];
  }

  /** Preorder puts parents first. */
  lemma ParentEarlier(s: Sheet, i: nat)
    requires i < |Preorder(s.f)|
    ensures Preorder(s.f)[i] in s.f.par
    ensures var n := Preorder(s.f)[i];
            match s.f.par[n]
            case None => s.f.depth[n] == 0
            case Some(p) => p in s.f.par && p in Preorder(s.f)[..i] && s.f.depth[n] == s.f.depth[p] + 1
  {
    hide Preorder, Ascending, Indexed, SortBy;
    var w := Preorder(s.f);
    var n := w[i];
    PreorderQuery(s);
    assert n in w;
    assert s.f.LinkOk(n);
    match s.f.par[n] {
      case None =>
      case Some(p) =>
        KidInside(s, p, n);
        AscendingKeys(w, s.x.lft, 1, 2 * |s.f.order| + 1);
        var j :| 0 <= j < |w| && w[j] == p;
        assert i != j && !(i < j);
        assert w[..i][j] == p;
    }
  }

  // ----- the paged reads -----

  /** The children of a node (or the roots), a page at a time. */
  method ListChildren(repo: Repo, parent: Option<Id>, cursor: Option<Row>, limit: int)
    returns (r: Result<(Page, nat), RepoError>)
    requires repo.Valid()
    ensures !AtNode(repo.forest, parent) ==> r == Err(NotFound)
    ensures AtNode(repo.forest, parent) ==>
              r == Ok((PageAt(Rows(repo.X(), Kids(repo.forest, parent)), cursor, ClampLimit(limit)),
                       |Kids(repo.forest, parent)|))
  {
    if parent.Some? && parent.value !in repo.par { return Err(NotFound); }
    var childrenOf := ChildrenOf(repo);
    var siblings := Get(childrenOf, parent);
    var page := Paginate(Rows(Index(repo.lft, repo.rgt), siblings), cursor, ClampLimit(limit));
    r := Ok((page, |siblings|));
  }

  /** A bounded window of a subtree, a page at a time. */
  method GetSubtree(repo: Repo, node: Id, depth: int, cursor: Option<Row>, limit: int)
    returns (r: Result<Page, RepoError>)
    requires repo.Valid()
    ensures r == if node in repo.par
                 then Ok(PageAt(Rows(repo.X(), Walk(repo.forest, [node], Levels(depth))), cursor, ClampLimit(limit)))
                 else Err(NotFound)
  {
    if node !in repo.par { return Err(NotFound); }
    var cap := if ClampLimit(limit) < NODE_BUDGET then ClampLimit(limit) else NODE_BUDGET;
    var matched := SubtreeWalk(repo, node, depth);
    var page := Paginate(Rows(Index(repo.lft, repo.rgt), matched), cursor, cap);
    r := Ok(page);
  }

  // ----- search -----

  predicate StandsAt(text: string, needle: string, i: int) {
    0 <= i <= |text| - |needle| && text[i..i + |needle|] == needle
  }

  predicate Contains(text: string, needle: string) {
    exists i :: 0 <= i <= |text| - |needle| && StandsAt(text, needle, i)
  }

  /** What a search looks at: the columns the actor reads, the label column, and the one column asked for, if any. */
  datatype Scope = Scope(readable: seq<Id>, labelled: Option<Id>, column: Option<Id>)

  /** The cell holds a value whose lower-case form contains the needle. */
  predicate CellHits(cells: map<(Id, Id), Cell>, lower: string -> string, n: Id, c: Id, needle: string) {
    (n, c) in cells && Contains(lower(cells[(n, c)].value), needle)
  }

  ghost predicate Matches(cells: map<(Id, Id), Cell>, lower: string -> string, scope: Scope, needle: string, n: Id) {
    match scope.column
    case Some(c) => c in scope.readable && CellHits(cells, lower, n, c, needle)
    case None =>
      || (scope.labelled.Some? && CellHits(cells, lower, n, scope.labelled.value, needle))
      || exists c :: c in scope.readable && CellHits(cells, lower, n, c, needle)
  }

  ghost function Hits(cells: map<(Id, Id), Cell>, lower: string -> string, scope: Scope, needle: string,
                      among: set<Id>): set<Id> {
    set n | n in among && Matches(cells, lower, scope, needle, n)
  }

  method Hit(cells: map<(Id, Id), Cell>, lower: string -> string, scope: Scope, needle: string, n: Id)
    returns (hit: bool)
    ensures hit <==> Matches(cells, lower, scope, needle, n)
  {
    if scope.column.Some? {
      return scope.column.value in scope.readable && CellHits(cells, lower, n, scope.column.value, needle);
    }
    if scope.labelled.Some? && CellHits(cells, lower, n, scope.labelled.value, needle) { return true; }
    for i := 0 to |scope.readable|
      invariant forall j :: 0 <= j < i ==> !CellHits(cells, lower, n, scope.readable[j], needle)
    {
      if CellHits(cells, lower, n, scope.readable[i], needle) { return true; }
    }
    hit := false;
  }

  method Matching(nodes: seq<Id>, cells: map<(Id, Id), Cell>, lower: string -> string, scope: Scope, needle: string)
    returns (matched: seq<Id>)
    ensures matched == Keep(nodes, Hits(cells, lower, scope, needle, Elements(nodes)))
  {
    hide Matches;
    matched := [];
    for i := 0 to |nodes|
      invariant matched == Keep(nodes[..i], Hits(cells, lower, scope, needle, Elements(nodes)))
    {
      assert nodes[..i + 1][..i] == nodes[..i] && nodes[i] in nodes;
      var hit := Hit(cells, lower, scope, needle, nodes[i]);
      if hit { matched := matched + [nodes[i]]; }
    }
    assert nodes[..|nodes|] == nodes;
  }

  /** The nodes a search hits, in preorder, a page at a time. */
  method SearchNodes(repo: Repo, lower: string -> string, scope: Scope, query: string, cursor: Option<Row>, limit: int)
    returns (page: Page)
    requires repo.Valid()
    ensures var hits := Hits(repo.cells, lower, scope, lower(query), repo.par.Keys);
            page == PageAt(Rows(repo.X(), Keep(Preorder(repo.forest), hits)), cursor, ClampLimit(limit))
  {
    hide Hits, PageAt, Keep;
    var nodes := repo.ListNodes();
    assert Elements(nodes) == repo.par.Keys by { PreorderQuery(repo.S()); }
    var matched := Matching(nodes, repo.cells, lower, scope, lower(query));
    page := Paginate(Rows(Index(repo.lft, repo.rgt), matched), cursor, ClampLimit(limit));
  }

  /** Two sheets that agree on everything the actor reads give the same hits, whatever the other columns hold. */
  lemma SearchLeaksNothing(a: map<(Id, Id), Cell>, b: map<(Id, Id), Cell>, lower: string -> string, scope: Scope,
                           needle: string, n: Id)
    requires forall c: Id :: c in scope.readable || scope.labelled == Some(c) ==>
               ((n, c) in a <==> (n, c) in b) && ((n, c) in a ==> a[(n, c)].value == b[(n, c)].value)
    ensures Matches(a, lower, scope, needle, n) <==> Matches(b, lower, scope, needle, n)
  {
    forall c: Id | c in scope.readable || scope.labelled == Some(c)
      ensures CellHits(a, lower, n, c, needle) <==> CellHits(b, lower, n, c, needle)
    {
    }
  }

  /** What a search looks at: the column asked for if readable; with none asked for, the label and all readable. */
  ghost predicate Searched(scope: Scope, c: Id) {
    if scope.column.Some? then scope.column == Some(c) && c in scope.readable
    else scope.labelled == Some(c) || c in scope.readable
  }

  /** The cell holds a value whose lower-case form has the needle somewhere inside. */
  ghost predicate Holds(cells: map<(Id, Id), Cell>, lower: string -> string, n: Id, c: Id, needle: string) {
    (n, c) in cells && exists a, b :: lower(cells[(n, c)].value) == a + needle + b
  }

  /** The rows a search lists are exactly those that hold the needle in a column it looks at. */
  lemma SearchFindsExactly(s: Sheet, cells: map<(Id, Id), Cell>, lower: string -> string, scope: Scope, needle: string,
                           n: Id)
    ensures n in Keep(Preorder(s.f), Hits(cells, lower, scope, needle, s.f.par.Keys)) <==>
            n in s.f.par && exists c :: Searched(scope, c) && Holds(cells, lower, n, c, needle)
  {
    PreorderQuery(s);
    KeepMembers(Preorder(s.f), Hits(cells, lower, scope, needle, s.f.par.Keys));
    hide Preorder, Keep, Searched, Holds, Matches;
    MatchesExactly(cells, lower, scope, needle, n);
  }

  lemma MatchesExactly(cells: map<(Id, Id), Cell>, lower: string -> string, scope: Scope, needle: string, n: Id)
    ensures Matches(cells, lower, scope, needle, n) <==>
            exists c :: Searched(scope, c) && Holds(cells, lower, n, c, needle)
  {
    hide Contains;
    forall c: Id
      ensures CellHits(cells, lower, n, c, needle) <==> Holds(cells, lower, n, c, needle)
    {
      if (n, c) in cells { ContainsExactly(lower(cells[(n, c)].value), needle); }
    }
    hide CellHits, Holds;
  }

  lemma ContainsExactly(text: string, needle: string)
    ensures Contains(text, needle) <==> exists a, b :: text == a + needle + b
  {
    if Contains(text, needle) {
      var i :| 0 <= i <= |text| - |needle| && StandsAt(text, needle, i);
      assert text == text[..i] + needle + text[i + |needle|..];
    }
    if a, b :| text == a + needle + b {
      assert StandsAt(text, needle, |a|);
    }
  }

  /** The path from the root down to a node. */
  method Breadcrumb(repo: Repo, node: Id) returns (r: Result<seq<Id>, RepoError>)
    requires repo.Valid()
    ensures r == if node in repo.par then Ok(Reverse(ParentChain(repo.forest, node))) else Err(NotFound)
  {
    var chain := repo.AncestorsSelf(node);
    match chain {
      case Ok(ids) => r := Ok(Reverse(ids));
      case Err(e) => r := Err(e);
    }
  }

  lemma {:induction false} KeepAscending(ids: seq<Id>, keep: set<Id>, key: map<Id, int>, lo: int, hi: int)
    requires Ascending(ids, key, lo, hi)
    ensures Ascending(Keep(ids, keep), key, lo, hi)
  {
    if ids != [] {
      var k := ids[|ids| - 1];
      KeepAscending(ids[..|ids| - 1], keep, key, lo, Key(key, k));
      var r := Keep(ids[..|ids| - 1], keep);
      if k in keep {
        assert (r + [k])[..|r|] == r;
      } else {
        assert Keep(ids, keep) == r;
        AscendingWiden(r, key, lo, Key(key, k), lo, hi);
      }
    }
  }

  /** Every paged read can be drained: following its cursor returns the whole list once, in order. */
  lemma {:induction false} PagedReadsDrain(s: Sheet, p: Option<Id>, node: Id, depth: int, hits: set<Id>, limit: int)
    requires AtNode(s.f, p) && node in s.f.par
    ensures var kids := Rows(s.x, Kids(s.f, p));
            InKeyOrder(kids) && Concat(Follow(kids, None, ClampLimit(limit))) == kids
    ensures var sub := Rows(s.x, Walk(s.f, [node], Levels(depth)));
            InKeyOrder(sub) && Concat(Follow(sub, None, ClampLimit(limit))) == sub
    ensures var found := Rows(s.x, Keep(Preorder(s.f), hits));
            InKeyOrder(found) && Concat(Follow(found, None, ClampLimit(limit))) == found
  {
    KidsAscending(s, p);
    AscendingRows(s.x, Kids(s.f, p), Start(s.x, p), Cursor(s.x, p, Kids(s.f, p), |Kids(s.f, p)|));
    PagingIsExhaustive(Rows(s.x, Kids(s.f, p)), limit);
    SubtreeWalkIsWindow(s, node, depth, node);
    PagingIsExhaustive(Rows(s.x, Walk(s.f, [node], Levels(depth))), limit);
    var n := 2 * |s.f.order| + 1;
    PreorderQuery(s);
    KeepAscending(Preorder(s.f), hits, s.x.lft, 1, n);
    AscendingRows(s.x, Keep(Preorder(s.f), hits), 1, n);
    PagingIsExhaustive(Rows(s.x, Keep(Preorder(s.f), hits)), limit);
  }
}
