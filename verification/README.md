# Arbor core: a Dafny model

Arbor keeps sheets of rows in a tree, with columns, cells, delegated branches, change requests and an expectation tracker for filling in columns. This project models the domain kernel under `arbor/core` and the two standalone repository slices that carry algorithms of their own, and proves what they are for.

`dafny verify dfyconfig.toml` checks the whole project.

## How the model is laid out

**The tree and its interval index.** A sheet is a list of rows in insertion order with parent links. `Forests` defines ancestry by following those links; `NestedSets` says what it means for stored `lft`/`rgt` numbers to index a forest and derives that interval containment is ancestry; `ForestEdits` says what create, move and cascade delete do to the links, and `EditLaws` says the same row by row: parents, sibling order, refusals. `TreeRepository.Repo` is the repository itself: mutable rows, parents, numbers and cells, renumbered by the recursive visit after every edit. It carries a ghost forest, and its `Valid()` says that the rows describe that forest and that the index is exact. `Preorders`, `TreeLaws` and `Explore` are the readers: ancestor and descendant queries, subtree blocks, the explicit-stack walk, the one-pass depths, the search and the keyset pager. `PageDrift` says what a create does to every stored number, and which cursors survive it.

**Rules, edges and cycles.** `ProcessRules`, `ProcessGraph`, `CycleSearches` and `ProcessValidation` follow the validator step by step: edges derived from rules, in-degrees, Kahn's queue, the depth-first search of what Kahn leaves, reachability from START, and the list of errors and warnings.

**The expectation tracker.** `ProcessLedger` defines what one creation, one value update and one sweep do to a run; `ProcessEngine.RunTracker` carries them out with the nested loops, the set of fired keys and the unordered set of pending columns of the original; `ProcessLaws` and `ProcessTrace` prove what every history keeps, and that the ledger is a function of the history that mentions no loop; `ProcessEffects` says entry by entry what each event opens, closes, announces and reports, and when a run is done. `ProcessStore` is the stored form with its `open_due` flag.

**Mutate or suggest.** `Authority` resolves structural approvers. `Governance` defines each step on the whole state: sheet, requests, event log. `GovernanceServer.Server` carries the steps out on mutable state, with the item loops and the rollback of a failed request. `CallEffects` says what each call does to rows, cells, grants and columns and why it is refused, and `RequestLaws` follows a call from its names to its effect: resolved, routed, run or filed, approved, rejected or withdrawn. `GovernanceLaws` proves what every run logs and keeps; `Signatures` that every signature in a run is genuine and every applied request signed; `GovernedWrites` and `GovernedParts` that cells, rows, grants, column authority and column order change only by consent; `Deciders` which users really decide, and where deciding and acting differ; `RequestExits` which requests can always be closed and which only their requester can close. `Entitlement` holds the policy call by call, what one signature, one refusal and one handler do, and that everything a run carried out directly was the policy's to allow. The sheet of this part is a value whose edits are the functions of `ForestEdits` and `Columns` that the two repositories are proved against. An event of the model carries the request a replay belongs to; the program's own mutation event does not, and no step of the model reads it.

**Stored column order.** `Columns` relates integer positions, all zero in old rows, to the sequence of columns a reader sees, once for the in-memory repository and once for the SQL one, and resolves and replays stored orders; `ColumnLaws` says of each edit which column stands before which. `Sorting` is the stable sort both read with.

## Where the code and its documentation differ

The model follows the code.

- The pager's module text says a page is stable under inserts to its left (`arbor/core/explore.py:20-21`). Every insert renumbers the sheet, and a cursor is an old number. A cursor at row c resumes right after c, after a row was added under p, if and only if p is the top level or c opens before p closes: `PageDrift.CursorSurvivesCreate`, and `PageDrift.CursorSurvivesIn` for children, subtrees and search hits. When it does, the remaining pages are exactly the rows after c (`PageDrift.ResumedPagesAreTheRest`). With three top-level rows, the cursor at the second and a child added under the first, the second row is shown again: `PageDrift.InsertToTheLeftRepeatsRow`.
- `approve_change` is documented as open to the resolved approver and the co-approvers only (`arbor/core/change_request.py:176-180`). The code also admits the stored owner and editors of the column for requests that write cells or delete a column (`arbor/core/change_request.py:133-145`). The documented set is the one admitted if and only if the call targets no column or every editor of the column is its owner: `Deciders.OnlyApproversDecideExactly`. In `Deciders.EditorSignsAlone` an editor who is neither signs a filed update and thereby applies it.
- Those stored names are compared raw, while a direct write expands roles (`arbor/core/acl.py:94-147`). A user may write directly if and only if stored on the column or holding a role stored on it, and may decide about such requests if and only if stored on it: `Deciders.RoleHoldersWriteOnly`.
- `revokeDelegation` is described as open to an ancestor owner (`arbor/core/acl.py:292`, `docs/CAPABILITIES.md:53`). The lookup starts at the granted branch itself, so whoever decides right above the branch may revoke if and only if the grant is theirs or the branch carries no active grant to someone else: `Deciders.AncestorRevokesExactly`. In `Deciders.PassedOnOutlivesTheGrant` an owner takes a branch back and may not take back the child its grantee passed on.
- `reachable_from_start` says START is never returned. The code does not exclude it: it holds because edges built from rules never enter START (`CycleSearches.StartIsNeverReached`).
- An accepted column order is resolved once more when it is applied, by a direct call as well as by a replay (`arbor/core/handlers.py:367-396`), and an id that is the field key of an earlier column then names that earlier column. The list handed to the repository is the accepted one if and only if no named id is such a key (`Columns.AcceptedOrderReplaysExactly`). Every accepted order ends up applied as accepted if and only if no column to be arranged has an id that is an earlier column's field key, or fewer than two columns are to be arranged, or one of them cannot be named at all, so that no order is accepted (`Columns.AcceptedOrdersApplyExactly`). Columns 1 and 2 with field keys 2 and 7 are the case where it is not: the request for 7 and 1 is accepted as 2 before 1 and applied as 1 before 2 (`Columns.ShadowedOrderDiverges`).
- A column-order or new-column request is written so that it cannot get stuck on columns that changed (`arbor/core/handlers.py:206-221,367-386`), and the sheet owner can indeed always approve it. Other open requests can be undecidable for every user. Approving and rejecting both recompute the approver first (`arbor/core/change_request.py:148-165`), which fails once the row, column or branch is gone, and compare raw names, which no user matches in a slot that holds a role or nothing. Some user can sign or reject an open request if and only if all it is about exists and a slot read for one of its calls holds a user: an owner or editor of the column, a structural approver, whoever gave the grant, the sheet owner (`RequestExits.UsersDecideExactly`, and `RequestExits.OpenRequestsExitExactly` for every run). `RequestExits.RolesFreezeUpdates` is a column stored with roles alone, `RequestExits.DroppedColumnOrphans` a column dropped under an open request; a batch without items is a third case. Only withdrawal is left then.

## Model

| member | source | states |
|---|---|---|
| NestedSets.IndexIsAncestry | arbor/core/testing.py:286-302 | the stored interval of one row lies inside another's exactly when the other is an ancestor-or-self by parent links |
| NestedSets.NumberingIsBijective | arbor/core/testing.py:243-253 | each number from 1 to twice the row count is the lft or rgt of some row |
| NestedSets.OpensDistinct | arbor/core/testing.py:243-253 | two rows never share an opening number |
| NestedSets.SpanCounts | arbor/standalone/repo_tree.py:120-130 | the interval of a row spans exactly two numbers per row of its subtree |
| NestedSets.CursorCounts | arbor/standalone/repo_tree.py:120-130 | the running counter after any number of children has advanced by twice the rows numbered so far |
| NestedSets.UnrelatedApart | arbor/core/testing.py:286-302 | rows neither above nor below each other have disjoint intervals |
| ForestEdits.Created | arbor/standalone/repo_tree.py:248-257 | adding a row under an existing parent, or at the top, gives a forest |
| ForestEdits.CreateUnderNobodyBreaks | arbor/standalone/repo_tree.py:248-257 | adding a row under a parent that is no row leaves links that no forest has |
| ForestEdits.MovedIsForest | arbor/standalone/repo_tree.py:308-336 | re-parenting a row outside its own subtree gives a forest |
| ForestEdits.MoveIntoSubtreeBreaks | arbor/standalone/repo_tree.py:319-328 | re-parenting a row into its own subtree leaves links that no forest has: the guard is needed |
| ForestEdits.MovedAnc | arbor/standalone/repo_tree.py:308-336 | who is above whom after a move: outside the moved subtree nothing changes, inside the old ancestors above it are replaced by the new parent's |
| ForestEdits.DeletedIsForest | arbor/standalone/repo_tree.py:338-351 | removing a whole subtree gives a forest |
| ForestEdits.DeletedAnc | arbor/standalone/repo_tree.py:338-351 | a cascade delete changes no ancestor of a survivor, and removes none |
| EditLaws.KidsPlaces | arbor/standalone/repo_tree.py:116-119 | a parent's children are the rows that name it, in the order those were inserted |
| EditLaws.ChainIsParents | arbor/standalone/repo_tree.py:225-234 | a row's chain starts at it, goes on parent by parent and ends at a top-level row |
| EditLaws.AncIsInChain | arbor/core/testing.py:286-302 | one row is above another, or is it, exactly when it stands in that chain |
| EditLaws.CreatedIsLastChild | arbor/standalone/repo_tree.py:248-257 | a new row is the last child of its parent; no other parent's children change |
| EditLaws.MovedRows | arbor/standalone/repo_tree.py:308-336 | a move changes one parent and no insertion order, so the row stands among its new siblings by when it was inserted |
| EditLaws.DeletedRowsAre | arbor/standalone/repo_tree.py:338-351 | exactly the rows at or below the deleted one go; the others keep their parent and their order |
| EditLaws.MoveRefusedExactly | arbor/standalone/repo_tree.py:308-336 | a move is a cycle exactly when the new parent is the row or below it, not found exactly when one of the two rows is missing, stale exactly when all is well but the anchor is gone |
| TreeRepository.Repo.ChildrenTable | arbor/core/testing.py:235-239 | grouping rows by parent lists every parent's children in insertion order |
| TreeRepository.Repo.Visit | arbor/core/testing.py:242-247 | within a supply of two numbers per row the visit numbers exactly its subtree, draws two numbers per row, never finds the supply empty and touches no number outside |
| TreeRepository.Repo.VisitKids | arbor/core/testing.py:245-250 | visiting the children of a row, or the roots, lays their intervals side by side without gaps |
| TreeRepository.Repo.RebuildNestedSet | arbor/standalone/repo_tree.py:108-130 | the rebuild gives the exact interval index of the current parent links |
| TreeRepository.NumberNextKid | arbor/standalone/repo_tree.py:122-130 | numbering one more child keeps the numbering of the earlier ones |
| TreeRepository.VisitNumbersSubtree | arbor/standalone/repo_tree.py:122-130 | opening a row, numbering below it and closing it numbers its subtree |
| TreeRepository.Repo.AncestorsSelf | arbor/standalone/repo_tree.py:225-234 | the interval query answers the parent chain, nearest first, or that the row is missing |
| TreeRepository.Repo.Descendants | arbor/standalone/repo_tree.py:236-245 | the interval query answers the strict subtree in preorder |
| TreeRepository.Repo.ListNodes | arbor/standalone/repo_tree.py:209-213 | rows by lft are the preorder of the forest |
| TreeRepository.Repo.CreateNode | arbor/standalone/repo_tree.py:248-257 | a fresh row joins last under its parent; the index stays exact, cells stay |
| TreeRepository.Repo.SetValue | arbor/standalone/repo_tree.py:259-296 | the cell takes the value and the next version, or a stale expected version changes nothing and reports the current one |
| TreeRepository.Repo.MoveNode | arbor/standalone/repo_tree.py:308-336 | the move is refused as a cycle exactly when the new parent lies in the row's own subtree; otherwise the forest is the moved one with an exact index |
| TreeRepository.Repo.DeleteNode | arbor/standalone/repo_tree.py:338-351 | exactly the subtree goes, with all its cells and no other; the deleted ids are the row and then its descendants by lft |
| TreeRepository.DeletedRows | arbor/standalone/repo_tree.py:338-351 | the rows collected for deletion by the interval query are the subtree |
| Preorders.WalkAscending | arbor/core/explore.py:132-134 | a depth-bounded walk lists rows in strictly increasing lft |
| Preorders.AncestorQuery | arbor/standalone/repo_tree.py:225-234 | sorting the rows whose interval contains a row by descending lft gives its parent chain |
| Preorders.DescendantQuery | arbor/standalone/repo_tree.py:236-245 | sorting the rows strictly inside an interval by lft gives the preorder of the strict subtree |
| Preorders.PreorderQuery | arbor/standalone/repo_tree.py:209-213 | sorting all rows by lft gives the preorder, every row once |
| Preorders.DepthBound | arbor/core/explore.py:264-271 | a row's depth is less than the number of rows |
| TreeLaws.SubtreeSize | arbor/standalone/repo_tree.py:120-130 | a row's interval width halved is the size of its subtree |
| TreeLaws.SubtreeIsBlock | arbor/standalone/repo_tree.py:236-245 | a subtree is a contiguous block of the preorder |
| TreeLaws.DeletePreorder | arbor/standalone/repo_tree.py:338-351 | a cascade delete cuts exactly that block out of the preorder and keeps the order of the rest |
| TreeLaws.WalkSaturates | arbor/core/explore.py:514-527 | a depth bound at least the height of what is walked cuts nothing off |
| Explore.ClampLimit | arbor/core/explore.py:122-128 | a limit below 1 becomes 1, one above the maximum page becomes the maximum page, and one in between is kept |
| Explore.FirstBeyond | arbor/core/explore.py:193-203 | the page starts at the first row strictly beyond the cursor |
| Explore.Paginate | arbor/core/explore.py:193-215 | the window, the more-flag and the next cursor of one page |
| Explore.PageIsExact | arbor/core/explore.py:193-215 | in a list in key order the page is the first rows beyond the cursor by lft and then name, as many as the limit allows; more is signalled exactly when some did not fit |
| Explore.FollowIsExhaustive | arbor/core/explore.py:193-215 | following cursors over an unchanged strictly ordered list ends, and the windows from any cursor concatenate to the rest of the list |
| Explore.FollowIsFull | arbor/core/explore.py:205-215 | every window but the last is exactly the limit long |
| Explore.PagingIsExhaustive | arbor/core/explore.py:193-215 | from the first page on, the windows are the whole list, each row once |
| Explore.GroupingIsKids | arbor/core/explore.py:174-179 | grouping rows listed by lft gives each parent's children in sibling order |
| Explore.ChildrenIndex | arbor/core/explore.py:174-179 | the index holds, per parent, its children in listing order |
| Explore.PushChildren | arbor/core/explore.py:520-524 | children are pushed reversed, so the first is popped first |
| Explore.SubtreeWalk | arbor/core/explore.py:514-524 | the explicit stack lists the walk that `SubtreeWalkIsWindow` describes: the root and everything at most `depth` levels below it, in preorder |
| Explore.PopStep | arbor/core/explore.py:514-527 | one pop and push keeps what is listed plus what is pending equal to the walk |
| Explore.SubtreeWalkIsWindow | arbor/core/explore.py:514-527 | a row is in the walk exactly when it lies in the root's interval and is the root or at most `depth` levels deeper; the walk is strictly increasing in lft |
| Explore.DepthPass | arbor/core/explore.py:264-271 | the single pass computes every row's true depth and the maximum |
| Explore.ParentEarlier | arbor/core/explore.py:264-271 | in lft order a parent comes before its children |
| Explore.ListChildren | arbor/core/explore.py:437-483 | a page of the children in sibling order, their total, or a missing parent |
| Explore.GetSubtree | arbor/core/explore.py:486-544 | a page of that walk, or a missing root |
| Explore.SearchNodes | arbor/core/explore.py:577-641 | a page, in preorder, of exactly the rows whose searched cells contain the lower-cased query |
| Explore.Hit | arbor/core/explore.py:605-621 | a row is hit exactly when the one column asked for is readable and contains the needle, or, with no column asked for, the label or any readable cell does |
| Explore.Matching | arbor/core/explore.py:623-623 | the filtered list holds exactly the hit rows, in listing order |
| Explore.SearchLeaksNothing | arbor/core/explore.py:589-591 | whether a row is found does not depend on any cell in a column the actor cannot read, other than the label |
| Explore.SearchFindsExactly | arbor/core/explore.py:605-623 | the rows listed are exactly those with a value, in a searched column, whose lower-case form has the needle inside |
| Explore.Breadcrumb | arbor/core/explore.py:547-574 | the path from the root down to the row |
| Explore.PagedReadsDrain | arbor/core/explore.py:437-641 | each of the three paged reads hands the pager a strictly ordered list and so drains completely |
| PageDrift.IndexIsUnique | arbor/standalone/repo_tree.py:108-130 | a forest has only one exact interval index, so any rebuild gives the same numbers |
| PageDrift.CreateShiftsNumbers | arbor/standalone/repo_tree.py:248-257 | a create gives the new row the number its parent closed with and the one after it; every stored number from there on moves by two and no other changes |
| PageDrift.CursorSurvivesIn | arbor/core/explore.py:193-215 | after a create, in any listing by lft that holds row c, the old cursor at c resumes right after c if and only if the new row is at the top level or c opens before the new row's parent closes |
| PageDrift.CursorSurvivesCreate | arbor/core/explore.py:193-215 | the same for the preorder of the whole sheet |
| PageDrift.ResumedPagesAreTheRest | arbor/core/explore.py:193-215 | under that condition the remaining pages are exactly the rows listed after c, each once |
| PageDrift.InsertToTheLeftRepeatsRow | arbor/core/explore.py:20-21 | three top-level rows and a child added under the first: in the renumbered preorder the page after the second row shows the second row again |
| ProcessRules.BuildEdges | arbor/core/process_graph.py:98-117 | the edge list of a rule set, in order |
| ProcessRules.EdgesAreDependencies | arbor/core/process_graph.py:98-117 | an edge is there exactly when a rule with its key makes its target wait for its source, START for row rules |
| ProcessGraph.Adjacency | arbor/core/process_graph.py:120-125 | successor lists in edge order, and every node named once |
| ProcessGraph.InDegrees | arbor/core/process_graph.py:134-137 | the table counts the entering edges of every node, repeated edges included |
| ProcessGraph.Kahn | arbor/core/process_graph.py:133-152 | everything is removed only from acyclic edges, and each node left over is entered from another left over |
| ProcessGraph.RankedIsAcyclic | arbor/core/process_graph.py:128-153 | edges that climb a ranking close no walk |
| ProcessGraph.EntryDrops | arbor/core/process_graph.py:144-148 | removing a node lowers a successor's count by the number of edges between them |
| CycleSearches.BackEdgeCloses | arbor/core/process_graph.py:163-167 | an edge back into the stack cuts a closed walk out of it |
| CycleSearches.AllFinishedMeansEmpty | arbor/core/process_graph.py:176-181 | a residual whose nodes all finish without a back edge is empty, so the closing return is never reached with a residual |
| CycleSearches.Search.Dfs | arbor/core/process_graph.py:157-174 | the search from a node finds a closed walk or settles every node it enters |
| CycleSearches.SearchResidual | arbor/core/process_graph.py:152-181 | a non-empty residual in which every node is entered always yields a closed walk |
| CycleSearches.FindCycle | arbor/core/process_graph.py:128-181 | nothing is returned exactly when the edges are acyclic; otherwise the result is a closed walk all of whose steps are edges |
| CycleSearches.WouldCreateCycle | arbor/core/process_graph.py:210-214 | the preview says exactly whether appending the rule makes the edges cyclic |
| CycleSearches.ReachableFromStart | arbor/core/process_graph.py:184-196 | the set is exactly the nodes with a walk from START |
| CycleSearches.StartIsNeverReached | arbor/core/process_graph.py:184-196 | in edges built from rules no walk returns to START |
| ProcessValidation.ValidateRules | arbor/core/process_graph.py:217-301 | no errors exactly when every rule is well formed, edge pairs are distinct and the edges acyclic; the warnings of acyclic edges are exactly the columns without a walk from START, sorted |
| ProcessValidation.AllRuleErrorsEmpty | arbor/core/process_graph.py:224-269 | the per-rule checks report nothing exactly when each rule is well formed |
| ProcessValidation.DuplicateErrorsEmpty | arbor/core/process_graph.py:271-284 | the duplicate check reports nothing exactly when edge pairs are distinct |
| ProcessValidation.RuleErrorsAreJustified | arbor/core/process_graph.py:224-269 | the per-rule errors are exactly the faults there are: which kind, at which rule, about which column |
| ProcessValidation.DuplicateErrorsAreRepeats | arbor/core/process_graph.py:271-284 | a pair is reported as a duplicate exactly when two edges join it |
| ProcessValidation.CheckRule | arbor/core/process_graph.py:224-269 | one rule's errors, in the order the checks are made |
| ProcessValidation.CheckDuplicates | arbor/core/process_graph.py:271-284 | one error for each edge whose pair came before |
| ProcessEngine.FireRule | arbor/core/process.py:333-345 | the loop opens each expected column the rule has no entry for, and says whether it opened any |
| ProcessEngine.CascadeFrom | arbor/core/process.py:390-432 | one column's downstream loop queues only expected columns not seen before, and changes nothing when the handler already fired everything |
| ProcessEngine.SatisfyAndCascade | arbor/core/process.py:348-432 | the cascade ends for every rule set, cyclic ones included; called from a handler it opens nothing, sees each column once and gives one ledger for every order of popping |
| ProcessEngine.CreationIsClosed | arbor/core/process.py:232-274 | after creation has fired its rules the cascade has nothing to open from any column |
| ProcessEngine.UpdateIsClosed | arbor/core/process.py:303-325 | after an update has fired its rules the cascade has nothing to open from the written column |
| ProcessEngine.RunTracker.OnNodeCreated | arbor/core/process.py:209-282 | a first creation in scope starts the run with the ledger and the report that `ProcessEffects` describes; any other delivery changes nothing and reports nothing |
| ProcessEngine.RunTracker.OnValueUpdated | arbor/core/process.py:285-330 | an update of an active run is the update step with its transitions; otherwise nothing happens |
| ProcessEngine.RunTracker.NotifyOpen | arbor/core/process.py:435-480 | each open unannounced entry of a notifying rule with owners is announced, and no entry twice over the life of the run |
| ProcessEngine.RunTracker.MaybeComplete | arbor/core/process.py:483-524 | the run completes exactly when its ledger is non-empty, fully closed and every column rule whose join is met has an entry |
| ProcessEngine.RunTracker.Sweep | arbor/core/process.py:530-588 | a candidate's overdue open entries are breached, nothing else moves, and completion is reconsidered only when something was breached |
| ProcessLaws.LedgerSafety | arbor/core/process.py:145-168 | over every history, rules redefined at will: entries stay, pairs stay unique, opening and deadline are fixed, each entry closes at most once and one way, and a completed run is closed and never changes |
| ProcessLaws.StepOk | arbor/core/process.py:174-206 | one event keeps the ledger invariant and only moves entries forward |
| ProcessLaws.RedeliveredUpdate | arbor/core/process.py:285-330 | delivering the same update again leaves the first delivery's state and reports nothing |
| ProcessLaws.SweepTwice | arbor/core/process.py:550-588 | sweeping again at the same time changes nothing |
| ProcessLaws.SweepsCompose | arbor/core/process.py:550-588 | sweeping at t1 and at a later t2 closes the same entries and completes the same runs as at t2 alone |
| ProcessLaws.AcceptedRulesNeverSelfSatisfy | arbor/core/process.py:303-325 | under an accepted rule set no update satisfies an expectation it opened |
| ProcessTrace.TraceRefinement | arbor/core/process.py:209-330 | after one creation and any updates and sweeps the ledger is the declarative one: opened at a rule's first trigger, closed by the first fill, update or late sweep, frozen at completion |
| ProcessTrace.LedgerStep | arbor/core/process.py:285-330 | one more event ages the old declarative entries and adds exactly what it triggers first |
| ProcessTrace.CreateRefines | arbor/core/process.py:209-282 | the creation step gives the declarative ledger of a one-event history |
| ProcessTrace.UpdateRefines | arbor/core/process.py:285-330 | the update step extends the declarative ledger by that update |
| ProcessTrace.SweepRefines | arbor/core/process.py:530-588 | the sweep step extends the declarative ledger by that sweep |
| ProcessTrace.BreachesAreLate | arbor/core/process.py:81-93 | a breached entry is at least its rule's window past its opening, and a zero window never breaches |
| ProcessTrace.QuiescentIsNothingLeft | arbor/core/process.py:483-524 | what completion looks at: something was expected, everything is satisfied or breached, and every column rule with all triggers filled (all-join) or some trigger filled (any other) has an entry |
| ProcessEffects.OpenedExactly | arbor/core/process.py:209-330 | in every history the ledger has an entry of a rule for a column exactly when the rule expects it and some event of the live part was an occasion for the rule |
| ProcessEffects.CreationOpensExactly | arbor/core/process.py:232-274 | after a creation a rule has its entries exactly when it listens to creations and is a row rule, an all-join with every trigger filled, or another join with some trigger filled |
| ProcessEffects.CreationSatisfiesExactly | arbor/core/process.py:348-389 | a creation satisfies exactly the entries whose column is filled, and breaches none |
| ProcessEffects.UpdateSatisfiesExactly | arbor/core/process.py:348-389 | an update satisfies exactly the open entries on its column, old and new |
| ProcessEffects.SweepBreachesExactly | arbor/core/process.py:550-588 | a sweep breaches exactly the open entries whose deadline it has reached, changes nothing else, and completes the run exactly when it breached something and nothing is left |
| ProcessEffects.NotifyFlagIsOptIn | arbor/core/process.py:448-452 | entries of a key are announced when the last rule with that key opted in, or none has it |
| ProcessEffects.CreationAnnounces | arbor/core/process.py:435-480 | after a creation an entry carries its column's owners exactly when it is open, opted in and has owners |
| ProcessEffects.UpdateAnnounces | arbor/core/process.py:435-480 | after an update the same, and an entry told before keeps whom it was told to |
| ProcessEffects.StepsCompleteExactly | arbor/core/process.py:483-524 | creation and update complete the run exactly when nothing is left |
| ProcessEffects.CreationReportTells | arbor/core/process.py:209-282 | the transitions of a creation tell exactly what happened: the start, each entry satisfied, each announcement, completion |
| ProcessEffects.UpdateReportTells | arbor/core/process.py:285-330 | the transitions of an update tell exactly the entries it satisfied and announced, and completion |
| ProcessEffects.SweepReportTells | arbor/core/process.py:550-588 | the records of a sweep tell exactly the entries it breached |
| ProcessStore.RunTable.SetExpectations | arbor/standalone/repo_process.py:273-313 | the ledger is stored verbatim with each row's flag recomputed; other runs stay |
| ProcessStore.RunTable.ListActiveRunsWithDue | arbor/standalone/repo_process.py:415-433 | the query over the flag selects exactly the active runs with an open entry that has a deadline |
| ProcessStore.FlagIsScan | arbor/core/testing.py:792-805 | the stored flag and the in-memory scan select the same ledgers |
| Authority.ResolveStructuralApprover | arbor/core/acl.py:118-137 | the scan of the interval query finds the grantee of the nearest active grant by parent links, else the sheet owner, or that the row is missing |
| Authority.ActiveGrantIsOldest | arbor/core/testing.py:304-315 | of the active grants on a row the first in the list decides; with none active there is none |
| Authority.ApproverUp | arbor/core/acl.py:118-137 | a row without an active grant of its own has its parent's approver |
| Authority.DelegationIsLocal | arbor/core/acl.py:129-135 | a new grant decides exactly for rows under its branch that meet no active grant before it; all other approvers stay |
| Authority.RevocationIsLocal | arbor/core/testing.py:495-496 | revoking a grant leaves every row outside its branch, and every row behind a nearer grant, with its approver |
| Authority.DelegateThenRevoke | arbor/core/testing.py:488-496 | delegating and revoking again restores every row's approver |
| Authority.MoveIsLocal | arbor/standalone/repo_tree.py:308-336 | a move changes no approver outside the moved subtree; inside, a grant at or below its root keeps deciding, else the new parent's approver does |
| Authority.DeleteIsLocal | arbor/standalone/repo_tree.py:338-351 | a cascade delete changes no survivor's approver |
| Authority.CreateIsLocal | arbor/standalone/repo_tree.py:248-257 | a new row takes its parent's approver and nobody else's changes |
| GovernanceServer.Server.ResolveParams | arbor/core/handlers.py:305-364 | references are resolved and bad orders, anchors and approver slots refused before authority is asked |
| GovernanceServer.Server.FindColumn | arbor/core/handlers.py:159-183 | the scan finds the first column in view with that id or field key, or none |
| GovernanceServer.Server.RunAndEmit | arbor/core/executor.py:185-200 | the call takes the effect `CallEffects.Effect` describes and one event is recorded, or a refusal changes nothing |
| GovernanceServer.Server.FileRequest | arbor/core/executor.py:203-242 | one proposed request and one event are added; the sheet is not touched |
| GovernanceServer.Server.ExecuteAction | arbor/core/executor.py:117-160 | the whole new state of a call, whose law is `RequestLaws.CallsRunOrFile` |
| GovernanceServer.Server.SuggestChanges | arbor/core/executor.py:523-565 | a batch is filed with every item resolved and routed, or refused whole |
| GovernanceServer.Server.ApproveChange | arbor/core/change_request.py:168-193 | only a proposed request can be approved; singles and batches take their own path |
| GovernanceServer.Server.ApproveOne | arbor/core/change_request.py:189-259 | re-resolve, sign, and replay as the current approver once nobody is missing; a failed replay leaves everything as before |
| GovernanceServer.Server.SignAll | arbor/core/change_request.py:273-283 | the loop over the items signs what the actor decides about and says whether it signed anything new |
| GovernanceServer.Server.ReplayAll | arbor/core/change_request.py:302-305 | the items run in order, each as its approver of that moment; a refused item undoes the whole request |
| GovernanceServer.Server.ApproveItems | arbor/core/change_request.py:262-329 | the whole new state of a batch approval |
| GovernanceServer.Server.RejectChange | arbor/core/change_request.py:332-374 | a current decider, of any item of a batch, closes the request without applying it |
| GovernanceServer.Server.WhoMayReject | arbor/core/change_request.py:344-358 | the users who decide about the request, over all items of a batch |
| GovernanceServer.Server.WithdrawChange | arbor/core/change_request.py:377-412 | the whole new state of a withdrawal, whose law is `RequestLaws.WithdrawsExactly` |
| CallEffects.HandlersTakeEffect | arbor/core/handlers.py:22-475 | what each of the ten calls does when carried out, and that it does nothing else: rows, parents, cells and versions, grants, column owners, order, labels |
| CallEffects.AddTakesEffect | arbor/core/handlers.py:22-36 | the new row has the next id, is the last child of the parent asked for, and holds exactly the given values; every other row and cell stays |
| CallEffects.WritesHold | arbor/core/handlers.py:22-36 | of several values for one column the last listed is held |
| CallEffects.DeleteTakesEffect | arbor/core/handlers.py:55-75 | exactly the subtree and its cells are gone |
| CallEffects.HandlersRefuseExactly | arbor/core/handlers.py:22-475 | each call is refused for exactly these reasons and with this kind of refusal: a missing row or column, a stale version, a cycle, a mail domain as approver |
| RequestLaws.ResolvesExactly | arbor/core/handlers.py:159-364 | a call resolves exactly when it names no mail domain as approver, its order names every column to arrange once, and its anchor leads somewhere |
| RequestLaws.RoutesExactly | arbor/core/acl.py:242-353 | a request goes to the owner of what it is about, as stored now, and is refused exactly when that is gone |
| RequestLaws.CallsRunOrFile | arbor/core/executor.py:117-242 | a resolved call by an entitled user on a sheet that does not make owners ask runs at once with its effect or is refused for its reason; any other is filed once, open, unsigned and rightly routed, or refused when what it is about is gone |
| RequestLaws.UnresolvedCallsChangeNothing | arbor/core/executor.py:117-140 | a call that does not resolve changes nothing |
| RequestLaws.SuggestsExactly | arbor/core/executor.py:523-565 | a batch is filed whole, each item resolved, routed and unsigned, exactly when every call of it can be filed |
| RequestLaws.WithdrawsExactly | arbor/core/change_request.py:377-412 | its requester withdraws an open request; anyone else, and any closed request, is refused without change |
| RequestLaws.OnlyRequestersWithdraw | arbor/core/change_request.py:390-393 | a step that leaves an open request withdrawn is its requester withdrawing it |
| RequestLaws.WithdrawnByRequester | arbor/core/change_request.py:390-393 | in every run each withdrawn request was withdrawn at one step, by its requester, while open |
| RequestLaws.RejectsExactly | arbor/core/change_request.py:332-374 | a decider of one of its calls rejects an open request while all it is about exists; anyone else changes nothing |
| RequestLaws.OnlyDecidersReject | arbor/core/change_request.py:332-374 | a step that leaves an open request rejected is such a decider rejecting it |
| RequestLaws.ClosedSingleTookEffect | arbor/core/change_request.py:222-259 | an approval that closes a single request leaves the sheet with the call's effect, run as whoever it is routed to then |
| RequestLaws.ClosedBatchTookEffect | arbor/core/change_request.py:302-329 | an approval that closes a batch leaves the sheet with the items' effects one after the other, each run as whoever it is routed to at that point |
| RequestLaws.BatchWaitsExactly | arbor/core/change_request.py:285-299 | while an item stays unsigned an approval only records the signatures it adds, and is refused without change when it adds none |
| RequestLaws.SignedItemsAreRouted | arbor/core/change_request.py:273-280 | signing a batch routes each item to whoever decides about it at that moment |
| RequestLaws.SignedSinglesAreRouted | arbor/core/change_request.py:202-208 | an approval of a single request adds that signature alone and routes the request anew |
| RequestLaws.ApprovalsRefusedAs | arbor/core/change_request.py:168-199 | missing, closed and orphaned requests, empty batches and users who do not decide are each refused in their own way |
| GovernanceLaws.EveryRunIsTold | arbor/core/change_request.py:126-130 | in every run the log holds, for each request: filed once, replayed once in stored order if and only if approved, decided at most once, nothing after |
| GovernanceLaws.RunGrows | arbor/core/change_request.py:126-130 | between any two points of a run requests are only added; requester and calls never change and a decided request never changes at all |
| GovernanceLaws.ReplayRuns | arbor/core/change_request.py:302-305 | a batch replay runs exactly the items' calls in order |
| GovernanceLaws.StepShape | arbor/core/executor.py:117-160 | every step leaves the log and requests alone, adds one direct event, files, signs or closes one request |
| GovernanceLaws.MoveNeedsBothEnds | arbor/core/change_request.py:189-226 | a single move request is carried out exactly when one of the two current branch owners signs, both have signed, and the move is possible; until then the sheet stays |
| Signatures.SignaturesAreGenuine | arbor/core/change_request.py:202-208 | every signature in a run was given at one step of it, by that user, for that call, and the user was entitled to decide about the call at that moment |
| Signatures.NewSignature | arbor/core/change_request.py:273-283 | one step adds at most the actor's own signature, where the actor may decide about the stored request |
| Signatures.ClosedIsSigned | arbor/core/change_request.py:285-305 | an approval that closes a request leaves each of its calls signed by somebody |
| GovernedWrites.HandleKeeps | arbor/core/handlers.py:22-97 | a handler changes the cell of a surviving row and column only when it is an update of that cell, and revives neither |
| GovernedWrites.ReplayKeeps | arbor/core/change_request.py:302-305 | a batch replay changes such a cell only when one of its items writes it |
| GovernedWrites.CellsChangeByConsent | arbor/core/acl.py:305-318 | in every run such a cell changes only by a direct update of a current column approver, or by an approved request one of whose calls writes that very cell and carries the recorded signature of a user who owned or edited the column at the step of signing it |
| GovernedParts.SuggestionsTouchNothing | arbor/core/executor.py:141-160 | the sheet changes only by an authorised direct call, a request's approval or a change of role holders |
| GovernedParts.PartsChangeByConsent | arbor/core/acl.py:242-353 | in every run the row tree, the grants, the column authority and the column order each change only by a direct call made for that part by an actor the policy entitles at that moment, or by an approved request holding such a call, signed at a step of the run by someone who decided about it then; who owns the sheet never changes |
| GovernedParts.ReplayParts | arbor/core/change_request.py:302-305 | a batch replay leaves a part of the sheet alone unless one of its items exists to change that part |
| Signatures.MovesAreSignedByBothEnds | arbor/core/change_request.py:189-226 | when a single move request is carried out, both branch owners of that moment stand in its approvals, and each signed it at a step of the run |
| Signatures.ApprovedBatchesAreSigned | arbor/core/change_request.py:285-305 | every item of an applied batch records as its signer a user who signed it at a step of the run and decided about it then |
| Deciders.UserDecidesIsSome | arbor/core/change_request.py:133-165 | some user decides about a call exactly when one of the slots read for it, named call by call, holds a user |
| Deciders.PrincipalsStandFor | arbor/core/acl.py:94-115 | a role stands for its holders now, a mail domain and an empty name for nobody, a user for itself |
| Deciders.RoleHoldersWriteOnly | arbor/core/acl.py:94-147 | a user may write directly exactly when stored on the column or holding a role stored on it, and may decide about such requests exactly when stored on it |
| Deciders.OnlyApproversDecideExactly | arbor/core/change_request.py:176-199 | those who may decide are the approver and the co-approvers alone exactly when the call targets no column or every editor of it is its owner |
| Deciders.EditorSignsAlone | arbor/core/change_request.py:194-222 | an editor who is neither approver nor co-approver applies a filed update by signing it |
| Deciders.AncestorRevokesExactly | arbor/core/acl.py:290-298 | whoever decides right above a granted branch may revoke exactly when the grant is theirs or the branch has no active grant to someone else |
| Deciders.PassedOnOutlivesTheGrant | arbor/core/acl.py:290-298 | the owner hands out a branch, the grantee hands on a child, the owner takes the branch back and may not take back the child |
| RequestExits.OrderRequestsNeverStick | arbor/core/handlers.py:367-396 | whatever happened to the columns, the owner's approval applies a filed order, with the places `ColumnLaws.ReorderedPlaces` gives |
| RequestExits.ColumnRequestsNeverStick | arbor/core/handlers.py:206-221 | a filed new column is applied by the owner's approval, last when its anchor vanished |
| RequestExits.FiledCallsNameApprovers | arbor/core/handlers.py:236-281 | no run ever stores a call that names a mail domain in an approver slot |
| RequestExits.RunKeepsDomainsOut | arbor/core/handlers.py:236-281 | if no column names a mail domain as owner or editor, none does after any run |
| RequestExits.UserRefusesExactly | arbor/core/change_request.py:332-374 | a user rejects an open request exactly by deciding about one of its calls while the rows, columns and branches they are about exist (a cell update: its column) |
| RequestExits.UsersDecideExactly | arbor/core/change_request.py:148-199 | some user can reject an open request if and only if all it is about exists and a slot read for one of its calls holds a user; otherwise no user can sign it either; its requester can always withdraw it |
| RequestExits.OpenRequestsExitExactly | arbor/core/change_request.py:168-374 | after every run, some user can sign or reject an open request under that condition and no other |
| RequestExits.RunKeepsUnsettled | arbor/core/change_request.py:285-299 | in every run an open batch still has an item to be signed |
| RequestExits.RolesFreezeUpdates | arbor/core/change_request.py:133-145 | a filed update of a column stored with roles alone can be signed or rejected by no user, though the column exists |
| RequestExits.DroppedColumnOrphans | arbor/core/change_request.py:148-165 | filing an update and dropping its column leaves an open request about something gone |
| RequestExits.OrphansAreUndecidable | arbor/core/change_request.py:148-165 | once something a request is about is gone, nobody at all can sign or reject it |
| RequestExits.RoutedCallsExist | arbor/core/executor.py:203-242 | what a request is about exists when the request is filed |
| RequestExits.RunStaysGone | arbor/standalone/repo_tree.py:338-351 | ids are never reused: what is gone stays gone in every run |
| RequestExits.OrphansStayOpen | arbor/core/change_request.py:148-165 | once something an open request is about is gone, every run leaves that request open or withdrawn |
| Entitlement.DirectEventsAreEntitled | arbor/core/executor.py:141-200 | in every run each log entry that belongs to no request was made by one step, a call of a user entitled to it at that moment on a sheet that does not make owners ask, and the sheet took that call's effect at that step |
| Entitlement.SigningIsExact | arbor/core/change_request.py:273-283 | signing a batch signs exactly the unsigned items the actor decides about and forgets no signature |
| Entitlement.BatchClosesExactly | arbor/core/change_request.py:285-329 | a batch is applied exactly when this approval leaves no item unsigned and every item replays |
| Entitlement.BatchRejectedExactly | arbor/core/change_request.py:344-374 | a batch is rejected exactly by someone who decides about one of its items |
| Entitlement.HandlersKeepTheRest | arbor/core/handlers.py:22-475 | each call changes only its own part of the sheet |
| Sorting.SortIs | arbor/core/testing.py:268-275 | a list ascending by key is the only sorted form of its members |
| Sorting.SortTies | arbor/core/testing.py:268-275 | rows with equal keys keep their insertion order |
| Sorting.SortKeep | arbor/core/testing.py:268-275 | sorting commutes with dropping rows |
| Columns.MemoryColumns.NextIdx | arbor/core/testing.py:421-443 | from any positions, room is made right after the anchor or at the end and the visible order stays as it was; an unknown anchor is refused without change |
| Columns.MemoryColumns.CreateColumn | arbor/core/testing.py:404-419 | the visible order is the old one with the new column after its anchor, or last |
| Columns.MemoryColumns.ReorderColumns | arbor/core/testing.py:445-471 | accepted exactly for distinct non-label columns of the sheet; then every column has the place `ColumnLaws.ReorderedPlaces` gives, numbered 1 to N; refused without change |
| Columns.MemoryColumns.DeleteColumn | arbor/core/testing.py:484-486 | the visible order loses that column and keeps the rest in order |
| Columns.SqlColumns.PositionColumn | arbor/standalone/repo_tree.py:353-386 | room is made at the same visible place as in memory, the three-key query order stays as it was, and an unknown anchor is refused without change |
| Columns.SqlColumns.CreateColumn | arbor/standalone/repo_tree.py:388-412 | the same visible effect as the in-memory insertion, whatever the creation time |
| Columns.SqlColumns.ReorderColumns | arbor/standalone/repo_tree.py:414-448 | the same acceptance and visible effect as the in-memory reordering |
| Columns.SqlColumns.DeleteColumn | arbor/standalone/repo_tree.py:468-474 | the same visible effect as the in-memory deletion |
| Columns.SqlColumns.DropQueried | arbor/standalone/repo_tree.py:197-204 | dropping a row before the three sorts or after them is the same |
| Columns.ReorderedIsPermutation | arbor/core/testing.py:445-471 | a reordering names every column exactly once |
| Columns.CheckOrder | arbor/core/testing.py:451-468 | the first offending id is reported as unknown, repeated or a label, and nothing is reported exactly for orderable lists |
| Columns.ResolveOrderParams | arbor/core/handlers.py:305-364 | accepted exactly when the entries resolve to all non-label columns, each once |
| Columns.ComputeOrderForWrite | arbor/core/handlers.py:367-386 | the loop drops unknown, label and repeated entries and keeps the rest in order |
| Columns.StaleOrderIsOrderable | arbor/core/handlers.py:367-386 | whatever list is replayed, what is left of it meets the repository's demands |
| Columns.AcceptedOrderReplaysExactly | arbor/core/handlers.py:367-386 | on unchanged columns the list handed to the repository is the accepted one if and only if no named id is the field key of an earlier column |
| Columns.CompleteOrdersApplyExactly | arbor/core/handlers.py:367-396 | with two columns to arrange, every complete order ends up applied as it stands if and only if no column's id is an earlier column's field key |
| Columns.AcceptedOrdersApplyExactly | arbor/core/handlers.py:305-396 | on unchanged columns every accepted request ends up applied as accepted if and only if no column's id is an earlier column's field key, or there are no two columns to arrange, or one of them has no name that leads to it and nothing is accepted |
| Columns.ShadowedOrderDiverges | arbor/core/handlers.py:347-353 | two columns, one field key equal to the other's id: a request that is accepted in one order and applied in the other |
| Columns.ApplyStoredOrder | arbor/core/handlers.py:389-396 | a stored order always applies, to the columns `ColumnLaws.OrderForWritePlaces` gives and with the places `ColumnLaws.ReorderedPlaces` gives |
| Columns.ApplyStoredInsert | arbor/core/handlers.py:284-302 | a stored insertion always applies, last when its anchor vanished |
| ColumnLaws.ReorderedPlaces | arbor/core/testing.py:468-471 | after a reordering every label stands before every other column and every named column before every unnamed one; labels and unnamed columns keep their order, the named stand as named |
| ColumnLaws.InsertedPlaces | arbor/core/testing.py:421-443 | a new column stands after its anchor and whatever stood before that, before all else, or last; no other pair changes |
| ColumnLaws.DroppedPlaces | arbor/core/testing.py:484-486 | a deletion loses that column and changes no other pair |
| ColumnLaws.ResolveIsFirst | arbor/core/handlers.py:159-183 | a name leads to the first column in view that has it as id or field key, and nowhere when none has |
| ColumnLaws.OrderForWritePlaces | arbor/core/handlers.py:367-386 | a stored order comes down to the columns it leads to, labels left out, in the order of their first mention |

## Left out

- All input and output: web and framework routes, database sessions, sign-in, webhooks, the language-model agent, the user interface. Clocks and ids are parameters or one counter.
- Cursor text: a cursor is the pair of lft and name; its base64 JSON form and the refusal of malformed text are not modelled.
- Many sheets in one repository: the model is one sheet. `createSheet`, cross-sheet anchors and the sheet filter of every query are outside.
- CreateNode: takes an existing parent. `create_node` itself accepts any parent id and would store a row whose parent is no row; such rows form no forest (`ForestEdits.CreateUnderNobodyBreaks`) and the rebuild never numbers them. The authority resolver refuses an unknown parent before the executor gets there.
- Read access: the readable columns and the label column of a search are parameters of `Explore.SearchNodes`, as is `lower` (case folding); values are text and a cell without a value is absent. The labels, values and child counts attached to the rows of a page are not modelled.
- `cascade=False` deletion, which orphans children, and the in-memory `move_node`, which has no cycle guard: the guarded move of the SQL repository is the one modelled.
- Sibling position of a moved or added row: neither repository reorders siblings for `after`; only the vanished-anchor refusal is modelled, in `TreeRepository`.
- Row order of the rules (`idx`), the generated key of a rule without one, and a null `now` (which records no satisfaction): rules are a list with keys, `now` is an integer.
- TraceRefinement: assumes distinct rule keys, which `validate_rules` does not check, and one rule set for the whole history; `LedgerSafety` needs neither.
- Process claims the code does not support, and so not stated: that an open entry's column is unfilled, that a satisfied entry's column is filled, that a satisfied entry was in time, that row rules on updates fire.
- Notification text, recipients' settings and delivery: an announcement is the owners stored on the entry.
- The transitions of a creation are given up to the order in which columns are popped; the ledger is not affected by it.
- Ledger rows read back by a zero-padded four-digit name: `ProcessStore` reads them in position order, which is the same below 10,000 entries.
- `updateColumn`, `suggestChange`, comments, roles as requests, impersonation and the process capabilities in the executor. `suggestChange` takes its approver from its payload, so the governed-write theorem is about runs without it.
- CellsChangeByConsent: says nothing about the initial values of a row being added, which the code writes without asking column authority, nor about cells that go with a deleted row or column.
- MovesAreSignedByBothEnds: is about single move requests; inside a batch one allowed approver signs the item.
- Capability arguments other than those listed in `Governance.Call`: labels, types, select options and read levels of columns, comments on decisions, event payloads.
- Columns addressed by field key in the executor: a `Call` names columns by id, except in orders and anchors, where both spellings resolve.
- Governance on the mutable repository object: the server's sheet is a value changed by the same edit functions the repositories are proved against, so aliasing between rows is not part of it.
- How read access and column visibility are computed, and the redaction of error messages, labels and cells.
