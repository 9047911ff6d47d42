# Depth-first AND/OR Branch-and-Bound step engine (daoopt)

This project models the step engine of daoopt's depth-first AND/OR Branch-and-Bound search, the
`BranchAndBound` class. The engine is a sequential state machine over:

- an explicit LIFO stack of pending search nodes (`m_stack`);
- the partial assignment vector (`m_assignment`);
- the AND and OR expansion counters (`m_nodesAND`, `m_nodesOR`);
- the most recently reported leaf (`m_nextLeaf`);
- the shared search space: its root node and its cache.

Each call of `expandNext` pops one node and expands it.

- An AND node first records its value in the assignment. It then ends as a dead end (label zero)
  or as a pruned leaf. Otherwise it resets the pseudo-tree node's adaptive cache tables and creates
  and pushes one OR child per pseudo-tree child. A node left without children is reported as a leaf.
- An OR node first tries the cache, if its full context is no larger than its parent's. It then
  tries pruning. Otherwise it creates one AND child per domain value, taking the heuristic and label
  of value `i` from entries `2i` and `2i+1` of its heuristic cache. The children are sorted by
  increasing heuristic and pushed in that order.

`isDone` tests the stack for emptiness. `resetSearch(p)` pops the stack empty and pushes `p`. The
constructor seeds the stack with the single AND child of a dummy root OR node.

Modules:

- `Wrappers`: `Option`.
- `CacheTable`: the cache as a map from (variable, instance counter, context) to a value and an
  optimal assignment, with `read` and the per-variable `reset`.
- `Collaborators`: the problem (number of variables, domain sizes), the pseudo tree (children,
  parent, full-context sizes, cache-reset lists) and the heuristic. They are values of function
  type, with the well-formedness the engine relies on.
- `SearchNodes`: the search-node record, the AND and OR child constructors, and the sort by
  increasing heuristic.
- `BranchAndBoundSearch`: the `BranchAndBound` class. Nodes live in an arena (`nodes`, a sequence
  indexed by position) in place of heap pointers. The stack is a sequence of arena indices, top
  last. The assignment is an `array<int>` written in place.

Every step of `ExpandNext` is specified by a two-state predicate over snapshots of the engine
(`EngineState`): `ANDStep` for an AND node and `ORStep` for an OR node. These predicates state the
whole new state: arena, stack, assignment, cache, leaf and counters. The lemmas beside them derive
the properties the code promises, for example that a step either reports a leaf or pushes
children, or that the top of the stack has the highest heuristic of the pushed block.

Three behaviours of the code are worth noting:

- A dead-end or pruned AND node returns (`source/BranchAndBound.cpp:48`, `:64`) before
  `++m_nodesAND` (`:108`), so it is not counted.
- The AND children of an OR node are sorted by increasing heuristic and pushed in that order, so
  the child with the HIGHEST heuristic ends on top of the stack and is expanded first
  (`source/BranchAndBound.cpp:222-225`).
- `resetSearch` only pops the stack (`include/BranchAndBound.h:111-113`); the popped nodes are not
  deleted.

Besides the object invariant `Valid`, the class carries the stack invariant `Pending`: every
pending node can be expanded (an OR node has a pseudo-tree parent and a heuristic cache of
`2 * domainSize` entries, which `expandNext` dereferences), and no node is pending twice. The
constructor establishes it, every step keeps it, and `resetSearch(p)` leaves it exactly when `p`
can be expanded. So a caller can step the engine until `isDone`.

## Model

| member | source | states |
|---|---|---|
| BranchAndBoundSearch.BranchAndBound.ExpandNext | source/BranchAndBound.cpp:19-242 | pops the top node; for an AND node the new state is `ANDStep`, for an OR node `ORStep`; the assignment array itself is not replaced; the engine stays consistent and the stack invariant `Pending` is kept; new nodes are expandable; an AND node without earlier children, or an OR node with a non-empty domain, either is reported as the leaf with nothing pushed, or has children pushed with no leaf reported |
| BranchAndBoundSearch.BranchAndBound.ExpandAND | source/BranchAndBound.cpp:30-108 | AND branch: `assignment[var] := val` and no other entry changes; a dead end (label `ELEM_ZERO`) becomes a leaf and `m_nextLeaf` with no push, no count and no cache change; a pruned node also becomes pruned with value `ELEM_ZERO`; otherwise `ANDChildrenStep` |
| BranchAndBoundSearch.BranchAndBound.ExpandANDChildren | source/BranchAndBound.cpp:69-108 | the reset-list tables are reset; one OR child per pseudo-tree child is appended, added to the child list in order and pushed in order; a childless node becomes a leaf and `m_nextLeaf`; `m_nodesAND` grows by exactly 1 |
| BranchAndBoundSearch.BranchAndBound.ResetCacheTables | source/BranchAndBound.cpp:71-75 | the cache afterwards is the old cache with every listed table reset, in list order |
| BranchAndBoundSearch.BranchAndBound.PushOrChildren | source/BranchAndBound.cpp:80-101 | one OR child per pseudo-tree child is appended, each with its heuristic estimate; their indices are returned in child order and pushed in that order |
| BranchAndBoundSearch.BranchAndBound.ExpandOR | source/BranchAndBound.cpp:110-240 | OR branch: the cache is consulted only when the full context is no larger than the parent's; a hit adopts the cached value and assignment and becomes a leaf and `m_nextLeaf` with its heuristic cache cleared and nothing pushed; a miss marks the node cachable; a pruned node becomes a leaf with value `ELEM_ZERO` and its heuristic cache cleared; otherwise `ORChildrenStep` |
| BranchAndBoundSearch.BranchAndBound.ExpandORHit | source/BranchAndBound.cpp:134-150 | on a cache hit the keyed node adopts the cached value and optimal assignment, becomes a leaf and `m_nextLeaf`, has its heuristic cache cleared; nothing is pushed and nothing is counted (an `ORStep`) |
| BranchAndBoundSearch.BranchAndBound.ExpandORMarked | source/BranchAndBound.cpp:151-238 | the node past the cache (marked cachable if it was consulted) is written back; if pruned it becomes a leaf and `m_nextLeaf` with value `ELEM_ZERO` and its heuristic cache cleared; otherwise `ORChildrenStep` (an `ORStep` either way) |
| BranchAndBoundSearch.BranchAndBound.ExpandORChildren | source/BranchAndBound.cpp:198-238 | `domainSize(var)` AND children are appended and added to the child list; the pushed block is a permutation of them sorted by increasing heuristic; the heuristic cache is cleared; `m_nodesOR` grows by exactly 1 |
| BranchAndBoundSearch.BranchAndBound.CreateAndChildren | source/BranchAndBound.cpp:201-220 | appends the AND children for values `d-1` down to `0`, with heuristic `heur[2i]` and label `heur[2i+1]`, and returns their indices in creation order |
| SearchNodes.SortByHeur | source/BranchAndBound.cpp:222-223 | the result is a permutation of the input indices and is sorted by non-decreasing heuristic |
| SearchNodes.InsertByHeur | source/BranchAndBound.cpp:222-223 | inserting one index into a sorted sequence keeps it sorted and adds exactly that index |
| SearchNodes.InsertKeepsSorted | source/BranchAndBound.cpp:222-223 | placing an index after every entry of no larger heuristic and before the rest yields a sorted sequence |
| BranchAndBoundSearch.BranchAndBound.PushAll | source/BranchAndBound.cpp:226-234 | the stack afterwards is the old stack followed by the given indices, first to last |
| BranchAndBoundSearch.BranchAndBound.ORChildrenTopIsHighest | source/BranchAndBound.cpp:222-234 | after the OR-children step with a non-empty domain, the node on top of the stack has a heuristic at least that of every node of the pushed block |
| SearchNodes.SortedLastIsHighest | source/BranchAndBound.cpp:225 | the last index of a sequence sorted by heuristic has the highest heuristic in it |
| BranchAndBoundSearch.BranchAndBound.ANDLeafIntro | source/BranchAndBound.cpp:44-65 | a dead-end or pruned AND node updated and reported as the leaf, with the assignment written and nothing pushed, is an `ANDStep` and keeps the engine consistent |
| BranchAndBoundSearch.BranchAndBound.ANDChildrenIntro | source/BranchAndBound.cpp:69-108 | the state built by the AND-children code is an `ANDStep`, keeps the engine consistent (every new child names a variable) and adds only expandable OR nodes |
| BranchAndBoundSearch.BranchAndBound.ORHitIntro | source/BranchAndBound.cpp:121-150 | the state built on a cache hit is an `ORStep` and keeps the engine consistent |
| BranchAndBoundSearch.BranchAndBound.ORPrunedIntro | source/BranchAndBound.cpp:151-173 | the state built when a cache miss or an uncached node is pruned is an `ORStep` and keeps the engine consistent |
| BranchAndBoundSearch.BranchAndBound.ORChildrenIntro | source/BranchAndBound.cpp:198-238 | the state built by the OR-children code is an `ORStep`, keeps the engine consistent and adds only (expandable) AND nodes |
| BranchAndBoundSearch.BranchAndBound.ORChildrenShape | source/BranchAndBound.cpp:198-238 | that state satisfies `ORChildrenStep`: the arena, a pushed block that is a permutation of the new children sorted by heuristic, and the counters are as the code leaves them |
| BranchAndBoundSearch.BranchAndBound.ORChildrenConsistent | source/BranchAndBound.cpp:198-238 | an `ORChildrenStep` keeps every stack index in the arena and every node's variable in range, and adds only AND nodes |
| BranchAndBoundSearch.BranchAndBound.ExpandORFrame | source/BranchAndBound.cpp:216-236 | writing the OR node's child list and clearing its heuristic cache after the AND children exist leaves the pushed block sorted |
| BranchAndBoundSearch.BranchAndBound.ANDStepReportsOneLeaf | source/BranchAndBound.cpp:44-106 | an AND step from a node without earlier children either reports that node as the leaf and pushes nothing, or pushes children and reports no leaf |
| BranchAndBoundSearch.BranchAndBound.ORStepReportsOneLeaf | source/BranchAndBound.cpp:131-234 | the same for an OR node with a non-empty domain |
| SearchNodes.OrChildrenAt | source/BranchAndBound.cpp:80-91 | the `j`-th OR child created belongs to the `j`-th pseudo-tree child, has the AND node as parent and carries the heuristic estimate computed for it |
| SearchNodes.AndChildrenAt | source/BranchAndBound.cpp:206-220 | the AND child created for value `i` has value `i`, heuristic `heur[2i]` and label `heur[2i+1]`, and is created as number `d-1-i` |
| SearchNodes.Range | source/BranchAndBound.cpp:90-91 | the indices given to `k` nodes appended to an arena of size `lo` are `lo, ..., lo+k-1` |
| CacheTable.ResetTablesSpec | source/BranchAndBound.cpp:72-74 | after resetting a list of tables, an entry is left exactly when it was there and its variable is not in the list, with its value unchanged |
| CacheTable.ResetIdempotent | source/BranchAndBound.cpp:74 | resetting the same table twice is the same as resetting it once |
| BranchAndBoundSearch.BranchAndBound.constructor | source/BranchAndBound.cpp:246-259 | the arena holds the dummy root OR node for the pseudo tree's root variable, whose single child at index 1 is an AND node with value 0; that child is the only node on the stack, so the stack invariant holds; the root is index 0; no leaf, counters 0, assignment all `UNKNOWN` |
| BranchAndBoundSearch.BranchAndBound.IsDone | include/BranchAndBound.h:86-94 | true exactly when the stack is empty |
| BranchAndBoundSearch.BranchAndBound.ResetSearch | include/BranchAndBound.h:96-115 | requires `p` to name an arena node (the non-null assertion); only the stack changes, and afterwards it is exactly `[p]` whatever it held, so a second reset with the same `p` leaves the same state (idempotent); `isDone` is false; the stack invariant holds exactly when `p` can be expanded |
| BranchAndBoundSearch.BranchAndBound.ANDStep | source/BranchAndBound.cpp:30-108 | defines the AND step: the assignment records the node's value; dead end, then prune, each a reported leaf that is not counted; otherwise `ANDChildrenStep`; the OR counter and root do not change |
| BranchAndBoundSearch.BranchAndBound.ANDChildrenStep | source/BranchAndBound.cpp:69-108 | defines the AND-children step: the cache with the reset list applied; one OR child per pseudo-tree child appended, added to the child list and pushed in child order; a childless node a leaf and `m_nextLeaf`; `m_nodesAND` plus one |
| BranchAndBoundSearch.BranchAndBound.CachingAttempted | source/BranchAndBound.cpp:121 | the cache is consulted exactly when the node's full context is no larger than its parent's |
| BranchAndBoundSearch.BranchAndBound.ORKeyed | source/BranchAndBound.cpp:121-123 | the OR node with its cache instance and context attached when caching is attempted, unchanged otherwise |
| BranchAndBoundSearch.BranchAndBound.ORHit | source/BranchAndBound.cpp:121-134 | the cache entry for the node's key, or none when the lookup fails or caching is not attempted |
| BranchAndBoundSearch.BranchAndBound.ORMarked | source/BranchAndBound.cpp:151-153 | after a failed lookup the keyed node is marked cachable; an uncached node is unchanged |
| BranchAndBoundSearch.BranchAndBound.ORStep | source/BranchAndBound.cpp:110-240 | defines the OR step: cache hit, then prune, each a reported leaf with the heuristic cache cleared and not counted; otherwise `ORChildrenStep`; assignment, cache, AND counter and root do not change |
| BranchAndBoundSearch.BranchAndBound.ORChildrenStep | source/BranchAndBound.cpp:198-238 | defines the OR-children step: `domainSize` AND children appended and added to the child list; the pushed block a permutation of their indices sorted by heuristic; heuristic cache cleared; `m_nodesOR` plus one |
| BranchAndBoundSearch.BranchAndBound.Pending | source/BranchAndBound.cpp:23-28 | the stack invariant: every pending node is in the arena and expandable (`ptnode->getParent()` and the heuristic cache exist), and none is pending twice |
| BranchAndBoundSearch.BranchAndBound.LeafKeepsPending | source/BranchAndBound.cpp:23-24 | a step that updates only the popped node and pushes nothing keeps the stack invariant |
| BranchAndBoundSearch.BranchAndBound.PushKeepsPending | source/BranchAndBound.cpp:85-91 | a step that updates the popped node, appends expandable nodes and pushes exactly their indices, in any order, keeps the stack invariant |
| BranchAndBoundSearch.BranchAndBound.ANDStepKeepsPending | source/BranchAndBound.cpp:30-108 | every AND step keeps the stack invariant |
| BranchAndBoundSearch.BranchAndBound.ORStepKeepsPending | source/BranchAndBound.cpp:110-240 | every OR step keeps the stack invariant |
| BranchAndBoundSearch.PopNoDuplicates | source/BranchAndBound.cpp:23-24 | popping a stack without repeated entries leaves one without repeated entries that no longer holds the popped index |
| BranchAndBoundSearch.PushNoDuplicates | source/BranchAndBound.cpp:226-227 | pushing fresh indices, in any order, onto a stack of older indices without repeats leaves no repeats |
| SearchNodes.RangeCounts | source/BranchAndBound.cpp:85 | the indices given to newly created nodes are distinct and all lie in the new part of the arena |
| SearchNodes.NewOR | source/BranchAndBound.cpp:85 | `new SearchNodeOR(parent, v)`, also at cpp:251 for the dummy root: an OR node of that variable and parent with the assumed defaults (value `ELEM_ZERO`, heuristic and label `ELEM_ONE`, no children, no flags, empty heuristic cache) |
| SearchNodes.NewAND | source/BranchAndBound.cpp:208 | `new SearchNodeAND(parent, val)`, also at cpp:254 for the dummy root's child: an AND node of the parent's variable with that value and parent and the same assumed defaults |
| SearchNodes.OrChild | source/BranchAndBound.cpp:85-88 | the OR child of an AND node for a pseudo-tree child: an OR node of that variable, with that parent, no children, no flags, and the heuristic and heuristic cache computed for it |
| SearchNodes.OrChildren | source/BranchAndBound.cpp:80-91 | the OR children in pseudo-tree child order, one per child |
| SearchNodes.AndChild | source/BranchAndBound.cpp:208-213 | the AND child for value `i`: an AND node of the OR node's variable with value `i`, that parent, heuristic `heur[2i]`, label `heur[2i+1]`, no children and no flags |
| SearchNodes.AndChildren | source/BranchAndBound.cpp:206-220 | the AND children in creation order, one per value, all AND nodes of the OR node's variable |
| CacheTable.Read | source/BranchAndBound.cpp:134 | the cache lookup: the entry stored under the key, or none, in place of the thrown miss |
| CacheTable.Reset | source/BranchAndBound.cpp:74 | resetting one table drops exactly the entries of that variable |
| CacheTable.ResetTables | source/BranchAndBound.cpp:72-74 | the resets of a reset list, applied in list order |
| Collaborators.ChildIsVariable | source/BranchAndBound.cpp:80-83 | every pseudo-tree child of a variable is itself a variable of the problem |

## Left out

- `DEBUG` output and `GETLOCK` locking: I/O and locking with no effect on the engine's state.
- The `PARALLEL_MODE` subproblem hand-off: it serves distributed execution and depends on
  floating-point `mylog10` and on remote-worker context lists.
- The `ANYTIME_BREADTH` and `ANYTIME_DEPTH` variants (`MyStack`, `m_stacks`, `m_stackDive`, the
  asserting `isDone`): these are other compile-time search shapes. Only the plain depth-first
  stack is modelled.
- `heuristicOR`, `canBePruned`, `addCacheContext`, `doExpand` and `nextNode`: their bodies are not
  part of this model. `canBePruned` is a parameter of `ExpandNext`, evaluated on the arena at the
  moment of the call. `addCacheContext` is the class constant `cacheSignature`, a function of the
  variable and the assignment. `heuristicOR` is a pure function of the child variable and the
  assignment. Any write it makes to `m_assignment` is therefore not modelled. `ExpandAND`'s
  "no other assignment entry changes" holds under that abstraction.
- The Cache, Problem and Pseudotree implementations: they are maps and function values here.
  The context sizes are given directly, not as context sets.
- Heap allocation and node deletion: nodes are arena entries that are never removed.
- Exceptions: a cache miss is a `None` result of the lookup.
- Double-precision values and `-inf`: values, heuristics and labels are unbounded integers, which
  are only compared and tested against `ELEM_ZERO`. The width of `val_t` is not modelled.
- SearchNodes.NewOR, SearchNodes.NewAND: the initial values of a new search node are not part of this model. They are taken as value
  `ELEM_ZERO`, heuristic `ELEM_ONE`, label `ELEM_ONE` and no flags set, with `ELEM_ZERO = 0` and
  `ELEM_ONE = 1`.
- The base `Search(...)` constructor (`source/BranchAndBound.cpp:247`) is not part of this model.
  Its effects are taken as: initial assignment entries `UNKNOWN = -1`, no leaf reported, both
  counters 0, and the cache handed in.
- Compile-time switches: the model is the build with `NO_PRUNING`, `NO_CACHING` and
  `NO_ASSIGNMENT` all undefined. Pruning is always tested, reset lists are always applied, the
  lookup is always attempted, and the cached optimal assignment is always adopted. A
  `NO_PRUNING` build is the pruner `(_, _) => false`. The `NO_CACHING` and `NO_ASSIGNMENT` builds
  are not modelled.
- `ResetSearch` requires `p` to be a node of the arena. It does not require `p` to be
  expandable, because the code does not check that. Its contract says instead that the stack
  invariant holds afterwards exactly when `p` is expandable.
- SearchNodes.SortByHeur: `std::sort` does not fix the order of equal heuristics; the insertion
  sort used here is one such order, and the contracts only state what every order satisfies
  (a permutation, sorted).
- The relation between the assignment and the path from the root to the current node is not
  stated as an invariant.
