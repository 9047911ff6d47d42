/**
 * The depth-first AND/OR Branch-and-Bound step engine: an explicit LIFO stack of pending search
 * nodes, the partial assignment, two expansion counters and the most recently reported leaf.
 */
module BranchAndBoundSearch {
  import opened Wrappers
  import opened CacheTable
  import opened Collaborators
  import opened SearchNodes

  /** Value of an unassigned variable. */
  const UNKNOWN: int := -1

  /** `canBePruned`, asked about a node of the arena as it stands when the test is made. */
  type Pruner = (seq<SearchNode>, nat) -> bool

  function Top(s: seq<nat>): nat
    requires s != []
  {
    s[|s| - 1]
  }

  function Pop(s: seq<nat>): seq<nat>
    requires s != []
  {
    s[..|s| - 1]
  }

  /** No index is held twice. */
  ghost predicate NoDuplicates(s: seq<nat>)
  {
    forall x :: multiset(s)[x] <= 1
  }

  /** Popping a stack without duplicates leaves one without duplicates that no longer holds the top. */
  lemma PopNoDuplicates(s: seq<nat>)
    requires s != [] && NoDuplicates(s)
    ensures NoDuplicates(Pop(s)) && Top(s) !in multiset(Pop(s))
  {
    assert s == Pop(s) + [Top(s)];
    assert multiset(s) == multiset(Pop(s)) + multiset{Top(s)};
    forall x
      ensures multiset(Pop(s))[x] <= 1
    {
      assert multiset(s)[x] == multiset(Pop(s))[x] + multiset{Top(s)}[x];
    }
    assert multiset(s)[Top(s)] == multiset(Pop(s))[Top(s)] + 1;
  }

  /** Pushing a block of fresh indices N .. N+k-1, in any order, onto a stack of indices below N
      keeps it free of duplicates. */
  lemma PushNoDuplicates(a: seq<nat>, b: seq<nat>, N: nat, k: nat)
    requires NoDuplicates(a) && forall i :: 0 <= i < |a| ==> a[i] < N
    requires multiset(b) == multiset(Range(N, k))
    ensures NoDuplicates(a + b)
    ensures forall x :: x in multiset(b) ==> N <= x < N + k
  {
    RangeCounts(N, k);
    assert multiset(a + b) == multiset(a) + multiset(b);
    forall x
      ensures multiset(a + b)[x] <= 1
    {
      if x in multiset(b) {
        assert N <= x;
        assert x !in a;
      }
    }
  }

  /** A snapshot of everything one expansion step may read or change. */
  datatype EngineState = EngineState(
    stack: seq<nat>,
    nodes: seq<SearchNode>,
    assignment: seq<int>,
    cache: Cache,
    nextLeaf: Option<nat>,
    nodesAND: nat,
    nodesOR: nat,
    root: nat)

  class BranchAndBound {
    const prob: Problem
    const pt: Pseudotree
    const heur: Heuristic
    /** `addCacheContext`: the cache instance and context vector of an OR node for a variable,
        given the current assignment. */
    const cacheSignature: (int, seq<int>) -> CacheSig

    var nodes: seq<SearchNode>     // the node arena; indices stand for node pointers
    var stack: seq<nat>            // m_stack, top at the end
    var assignment: array<int>     // m_assignment
    var cache: Cache               // m_space->cache
    var root: nat                  // m_space->root
    var nextLeaf: Option<nat>      // m_nextLeaf, None for NULL
    var nodesAND: nat              // m_nodesAND
    var nodesOR: nat               // m_nodesOR

    /** The object invariant: well-formed collaborators, and a consistent engine state. */
    ghost predicate Valid()
      reads this, assignment
    {
      && WellFormed(prob, pt, heur)
      && assignment.Length == prob.nVars
      && Consistent(State())
    }

    /** Every index held by the engine names an arena node, and every node names a variable. */
    ghost predicate Consistent(t: EngineState)
    {
      && |t.assignment| == prob.nVars
      && t.root < |t.nodes|
      && (forall i :: 0 <= i < |t.stack| ==> t.stack[i] < |t.nodes|)
      && (t.nextLeaf.Some? ==> t.nextLeaf.value < |t.nodes|)
      && (forall i :: 0 <= i < |t.nodes| ==> 0 <= t.nodes[i].variable < prob.nVars)
    }

    ghost function State(): EngineState
      reads this, assignment
    {
      EngineState(stack, nodes, assignment[..], cache, nextLeaf, nodesAND, nodesOR, root)
    }

    /** What expanding a node needs of it: an OR node has a pseudo-tree parent (its context size
        is compared with the parent's) and a heuristic cache of 2 * domainSize entries. */
    ghost predicate Expandable(n: SearchNode)
    {
      n.kind == NodeAND ||
      (pt.parent(n.variable).Some? && |n.heurCache| == 2 * prob.domainSize(n.variable))
    }

    /** `s` has a node to pop, whose variable indexes the assignment and which can be expanded. */
    ghost predicate Ready(s: EngineState)
    {
      && s.stack != []
      && Top(s.stack) < |s.nodes|
      && 0 <= s.nodes[Top(s.stack)].variable < |s.assignment|
      && Expandable(s.nodes[Top(s.stack)])
    }

    /** The stack invariant: every pending node names an arena node that can be expanded, and no
        node is pending twice. */
    ghost predicate Pending(t: EngineState)
    {
      && NoDuplicates(t.stack)
      && forall i :: 0 <= i < |t.stack| ==> t.stack[i] < |t.nodes| && Expandable(t.nodes[t.stack[i]])
    }

    /** The popped node, updated to `updated`, is reported as the leaf and nothing is pushed. */
    ghost predicate LeafReported(s: EngineState, t: EngineState, updated: SearchNode)
      requires s.stack != [] && Top(s.stack) < |s.nodes|
    {
      && t.nodes == s.nodes[Top(s.stack) := updated]
      && t.stack == Pop(s.stack)
      && t.nextLeaf == Some(Top(s.stack))
    }

    /** The effect of popping and expanding the AND node on top of `s`'s stack. */
    ghost predicate ANDStep(s: EngineState, t: EngineState, canBePruned: Pruner)
      requires Ready(s)
    {
      var n := Top(s.stack);
      var node := s.nodes[n];
      // the assignment records the node's value and nothing else
      && t.assignment == s.assignment[node.variable := node.val]
      && t.nodesOR == s.nodesOR
      && t.root == s.root
      && if node.edgeLabel == ELEM_ZERO then
           // dead end: a leaf, reported, nothing pushed, not counted
           && LeafReported(s, t, node.(leaf := true))
           && t.nodesAND == s.nodesAND
           && t.cache == s.cache
         else if canBePruned(s.nodes, n) then
           // pruned: a leaf with value zero, reported, nothing pushed, not counted
           && LeafReported(s, t, node.(leaf := true, pruned := true, value := ELEM_ZERO))
           && t.nodesAND == s.nodesAND
           && t.cache == s.cache
         else
           ANDChildrenStep(s, t)
    }

    /** An AND node that is neither a dead end nor pruned: the listed cache tables are reset, one
        OR child per pseudo-tree child is appended, added to the child list and pushed in order;
        a node left without children is a leaf and is reported. Counted once. */
    ghost predicate ANDChildrenStep(s: EngineState, t: EngineState)
      requires Ready(s)
    {
      var n := Top(s.stack);
      var node := s.nodes[n];
      var kids := pt.children(node.variable);
      var added := Range(|s.nodes|, |kids|);
      var childless := node.children + added == [];
      && t.cache == ResetTables(s.cache, pt.cacheResetList(node.variable))
      && t.nodes == s.nodes[n := node.(children := node.children + added,
                                       leaf := if childless then true else node.leaf)]
                    + OrChildren(n, kids, t.assignment, heur)
      && t.stack == Pop(s.stack) + added
      && t.nextLeaf == (if childless then Some(n) else s.nextLeaf)
      && t.nodesAND == s.nodesAND + 1
    }

    /** Whether the cache is consulted for an OR node of variable `v`: its full context is no
        larger than its pseudo-tree parent's. */
    ghost predicate CachingAttempted(v: int)
      requires pt.parent(v).Some?
    {
      pt.fullContextSize(v) <= pt.fullContextSize(pt.parent(v).value)
    }

    /** The OR node on top of `s`'s stack once its cache context is attached (if caching is attempted). */
    ghost function ORKeyed(s: EngineState): SearchNode
      requires Ready(s) && s.nodes[Top(s.stack)].kind == NodeOR
    {
      var node := s.nodes[Top(s.stack)];
      var sig := cacheSignature(node.variable, s.assignment);
      if CachingAttempted(node.variable) then node.(cacheInst := sig.inst, cacheContext := sig.context)
      else node
    }

    /** The cache entry found for that OR node, or None when there is none or caching is not attempted. */
    ghost function ORHit(s: EngineState): Option<CacheEntry>
      requires Ready(s) && s.nodes[Top(s.stack)].kind == NodeOR
    {
      var node := s.nodes[Top(s.stack)];
      var sig := cacheSignature(node.variable, s.assignment);
      if CachingAttempted(node.variable) then Read(s.cache, CacheKey(node.variable, sig.inst, sig.context))
      else None
    }

    /** The OR node after a cache miss: marked cachable if the cache was consulted. */
    ghost function ORMarked(s: EngineState): SearchNode
      requires Ready(s) && s.nodes[Top(s.stack)].kind == NodeOR
    {
      if CachingAttempted(s.nodes[Top(s.stack)].variable) then ORKeyed(s).(cachable := true)
      else s.nodes[Top(s.stack)]
    }

    /** The effect of popping and expanding the OR node on top of `s`'s stack. */
    ghost predicate ORStep(s: EngineState, t: EngineState, canBePruned: Pruner)
      requires Ready(s) && s.nodes[Top(s.stack)].kind == NodeOR
    {
      var n := Top(s.stack);
      && t.assignment == s.assignment
      && t.cache == s.cache
      && t.nodesAND == s.nodesAND
      && t.root == s.root
      && if ORHit(s).Some? then
           // cache hit: adopt the cached value and assignment, a leaf, reported, nothing pushed
           && LeafReported(s, t, ORKeyed(s).(value := ORHit(s).value.value,
                                             optAssig := ORHit(s).value.assignment,
                                             leaf := true, heurCache := []))
           && t.nodesOR == s.nodesOR
         else if canBePruned(s.nodes[n := ORMarked(s)], n) then
           // pruned: a leaf with value zero and no heuristic cache, reported, nothing pushed
           && LeafReported(s, t, ORMarked(s).(leaf := true, pruned := true, value := ELEM_ZERO,
                                              heurCache := []))
           && t.nodesOR == s.nodesOR
         else
           ORChildrenStep(s, t)
    }

    /** An OR node that is neither a cache hit nor pruned: one AND child per domain value is
        appended and added to the child list; they are pushed as a permutation sorted by increasing
        heuristic; the heuristic cache is cleared. Counted once. */
    ghost predicate ORChildrenStep(s: EngineState, t: EngineState)
      requires Ready(s) && s.nodes[Top(s.stack)].kind == NodeOR
    {
      var n := Top(s.stack);
      var node := s.nodes[n];
      var marked := ORMarked(s);
      var rest := Pop(s.stack);
      var d := prob.domainSize(node.variable);
      var added := Range(|s.nodes|, d);
      && t.nodes == s.nodes[n := marked.(children := marked.children + added, heurCache := [])]
                    + AndChildren(n, node.variable, node.heurCache, 0, d)
      && |t.stack| == |rest| + d
      && t.stack[..|rest|] == rest
      && multiset(t.stack[|rest|..]) == multiset(added)
      && SortedByHeur(t.stack[|rest|..], t.nodes)
      && t.nextLeaf == s.nextLeaf
      && t.nodesOR == s.nodesOR + 1
    }

    /** Leaf-reporting exactness: a step either reports the popped node as the leaf and pushes
        nothing, or pushes at least one child and reports no leaf. */
    ghost predicate ReportsOneLeaf(s: EngineState, t: EngineState)
      requires s.stack != []
    {
      || (t.stack == Pop(s.stack) && t.nextLeaf == Some(Top(s.stack)))
      || (|t.stack| > |Pop(s.stack)| && t.stack[..|Pop(s.stack)|] == Pop(s.stack)
          && t.nextLeaf == s.nextLeaf)
    }

    /** `isDone`: no node is pending. */
    function IsDone(): (done: bool)
      reads this
      ensures done <==> |stack| == 0
    {
      stack == []
    }

    /** The constructor: a dummy root OR node for the pseudo tree's root variable and its single
        AND child (value 0), which is the only node on the stack. */
    constructor (prob: Problem, pt: Pseudotree, heur: Heuristic,
                 cacheSignature: (int, seq<int>) -> CacheSig, cache: Cache)
      requires WellFormed(prob, pt, heur)
      ensures Valid() && Pending(State()) && fresh(assignment)
      ensures this.prob == prob && this.pt == pt && this.heur == heur
      ensures this.cacheSignature == cacheSignature && this.cache == cache
      ensures nodes == [NewOR(None, pt.root).(children := [1]), NewAND(Some(0), pt.root, 0)]
      ensures root == 0 && stack == [1]
      ensures assignment[..] == seq(prob.nVars, _ => UNKNOWN)
      ensures nextLeaf == None && nodesAND == 0 && nodesOR == 0
    {
      this.prob := prob;
      this.pt := pt;
      this.heur := heur;
      this.cacheSignature := cacheSignature;
      this.cache := cache;
      assignment := new int[prob.nVars](_ => UNKNOWN);
      nextLeaf := None;
      nodesAND, nodesOR := 0, 0;
      // the dummy root OR node goes to slot 0, its AND child to slot 1
      var node := NewOR(None, pt.root);
      root := 0;
      var next := NewAND(Some(0), pt.root, 0);
      node := node.(children := node.children + [1]);
      assert node.children == [1];
      nodes := [node, next];
      stack := [1];
      assert multiset([1]) == multiset{1};
    }

    /** `resetSearch(p)`: empty the stack, then make `p` its only node. */
    method ResetSearch(p: nat)
      requires Valid() && p < |nodes|
      modifies this`stack
      ensures Valid() && stack == [p] && !IsDone()
      ensures Pending(State()) <==> Expandable(nodes[p])
    {
      while stack != []
        invariant Valid()
        decreases |stack|
      {
        stack := stack[..|stack| - 1];
      }
      stack := stack + [p];
      assert multiset(stack) == multiset{p};
    }

    /** `expandNext`: pop the top node and expand it as an AND or an OR node. */
    method ExpandNext(canBePruned: Pruner)
      requires Valid() && Pending(State()) && !IsDone()
      modifies this`nodes, this`stack, this`cache, this`nextLeaf, this`nodesAND, this`nodesOR, assignment
      ensures Valid() && Pending(State()) && assignment == old(assignment)
      ensures old(nodes[Top(stack)].kind) == NodeAND ==> ANDStep(old(State()), State(), canBePruned)
      ensures old(nodes[Top(stack)].kind) == NodeOR ==> ORStep(old(State()), State(), canBePruned)
      ensures forall i :: old(|nodes|) <= i < |nodes| ==> Expandable(nodes[i])
      ensures old(nodes[Top(stack)].kind) == NodeAND && old(nodes[Top(stack)].children) == []
              ==> ReportsOneLeaf(old(State()), State())
      ensures old(nodes[Top(stack)].kind) == NodeOR && prob.domainSize(old(nodes[Top(stack)].variable)) > 0
              ==> ReportsOneLeaf(old(State()), State())
    {
      ghost var s := State();
      assert Ready(s) by {
        assert s.stack[|s.stack| - 1] == Top(s.stack);
      }
      var n := stack[|stack| - 1];
      stack := stack[..|stack| - 1];
      var node := nodes[n];
      if node.kind == NodeAND {
        ExpandAND(s, n, node, canBePruned);
        ANDStepKeepsPending(s, State(), canBePruned);
        if node.children == [] {
          ANDStepReportsOneLeaf(s, State(), canBePruned);
        }
      } else {
        ExpandOR(s, n, node, canBePruned);
        ORStepKeepsPending(s, State(), canBePruned);
        if prob.domainSize(node.variable) > 0 {
          ORStepReportsOneLeaf(s, State(), canBePruned);
        }
      }
    }

    /** The AND branch of `expandNext`, entered with `n` already popped off `s`'s stack. */
    method ExpandAND(ghost s: EngineState, n: nat, node: SearchNode, canBePruned: Pruner)
      requires Valid() && Ready(s) && Consistent(s) && n == Top(s.stack) && node == s.nodes[n]
      requires node.kind == NodeAND
      requires State() == s.(stack := Pop(s.stack))
      modifies this`cache, this`nodes, this`stack, this`nextLeaf, this`nodesAND, assignment
      ensures Valid() && ANDStep(s, State(), canBePruned) && assignment == old(assignment)
      ensures forall i :: |s.nodes| <= i < |nodes| ==> Expandable(nodes[i])
    {
      assignment[node.variable] := node.val;
      if node.edgeLabel == ELEM_ZERO {
        nodes := nodes[n := node.(leaf := true)];
        nextLeaf := Some(n);
        ANDLeafIntro(s, State(), canBePruned, node.(leaf := true));
        return;
      }
      if canBePruned(nodes, n) {
        nodes := nodes[n := node.(leaf := true, pruned := true, value := ELEM_ZERO)];
        nextLeaf := Some(n);
        ANDLeafIntro(s, State(), canBePruned, node.(leaf := true, pruned := true, value := ELEM_ZERO));
        return;
      }
      ExpandANDChildren(s, n, node, canBePruned);
    }

    /** Cache reset and OR child generation for an AND node that is neither a dead end nor pruned. */
    method ExpandANDChildren(ghost s: EngineState, n: nat, node: SearchNode, ghost canBePruned: Pruner)
      requires WellFormed(prob, pt, heur) && assignment.Length == prob.nVars
      requires Ready(s) && Consistent(s) && n == Top(s.stack) && node == s.nodes[n] && node.kind == NodeAND
      requires node.edgeLabel != ELEM_ZERO && !canBePruned(s.nodes, n)
      requires State() == s.(stack := Pop(s.stack), assignment := s.assignment[node.variable := node.val])
      modifies this`cache, this`nodes, this`stack, this`nextLeaf, this`nodesAND
      ensures Valid() && ANDStep(s, State(), canBePruned)
      ensures forall i :: |s.nodes| <= i < |nodes| ==> Expandable(nodes[i])
    {
      var v := node.variable;
      ResetCacheTables(pt.cacheResetList(v));
      var kids := pt.children(v);
      var assig := assignment[..];
      var added := PushOrChildren(n, kids, assig);
      var self := node.(children := node.children + added);
      if |self.children| == 0 {
        nextLeaf := Some(n);
        self := self.(leaf := true);
      }
      ghost var arena := nodes;
      nodes := nodes[n := self];
      nodesAND := nodesAND + 1;
      ANDChildrenIntro(s, State(), canBePruned, arena);
    }

    /** `m_space->cache->reset(id)` for every id of a reset list, in order. */
    method ResetCacheTables(ids: seq<int>)
      modifies this`cache
      ensures cache == ResetTables(old(cache), ids)
    {
      for i := 0 to |ids|
        invariant cache == ResetTables(old(cache), ids[..i])
      {
        assert ids[..i + 1][..i] == ids[..i];
        cache := Reset(cache, ids[i]);
      }
      assert ids[..|ids|] == ids;
    }

    /** Creates one OR child of `n` per pseudo-tree child, with its heuristic computed, and pushes
        it; returns the indices to add to `n`'s child list. */
    method PushOrChildren(n: nat, kids: seq<int>, assig: seq<int>) returns (added: seq<nat>)
      modifies this`nodes, this`stack
      ensures nodes == old(nodes) + OrChildren(n, kids, assig, heur)
      ensures added == Range(old(|nodes|), |kids|)
      ensures stack == old(stack) + added
    {
      var N := |nodes|;
      added := [];
      for j := 0 to |kids|
        invariant nodes == old(nodes) + OrChildren(n, kids[..j], assig, heur)
        invariant added == Range(N, j)
        invariant stack == old(stack) + added
      {
        assert kids[..j + 1][..j] == kids[..j];
        nodes := nodes + [OrChild(n, kids[j], assig, heur)];
        added := added + [N + j];
        stack := stack + [N + j];
      }
      assert kids[..|kids|] == kids;
    }

    /** The OR branch of `expandNext`, entered with `n` already popped off `s`'s stack. */
    method ExpandOR(ghost s: EngineState, n: nat, node: SearchNode, canBePruned: Pruner)
      requires Valid() && Ready(s) && Consistent(s) && n == Top(s.stack) && node == s.nodes[n]
      requires node.kind == NodeOR
      requires State() == s.(stack := Pop(s.stack))
      modifies this`nodes, this`stack, this`nextLeaf, this`nodesOR
      ensures Valid() && ORStep(s, State(), canBePruned)
      ensures forall i :: |s.nodes| <= i < |nodes| ==> Expandable(nodes[i])
    {
      var v := node.variable;
      var self := node;
      if pt.fullContextSize(v) <= pt.fullContextSize(pt.parent(v).value) {
        var sig := cacheSignature(v, assignment[..]);
        self := self.(cacheInst := sig.inst, cacheContext := sig.context);
        var entry := Read(cache, CacheKey(v, self.cacheInst, self.cacheContext));
        if entry.Some? {
          ExpandORHit(s, n, self, entry.value, canBePruned);
          return;
        }
        self := self.(cachable := true);
      }
      ExpandORMarked(s, n, self, canBePruned);
    }

    /** A cache hit: the keyed OR node adopts the cached value and assignment and is reported as the leaf. */
    method ExpandORHit(ghost s: EngineState, n: nat, keyed: SearchNode, entry: CacheEntry,
                       ghost canBePruned: Pruner)
      requires WellFormed(prob, pt, heur) && assignment.Length == prob.nVars
      requires Ready(s) && Consistent(s) && n == Top(s.stack) && s.nodes[n].kind == NodeOR
      requires ORHit(s) == Some(entry) && keyed == ORKeyed(s)
      requires State() == s.(stack := Pop(s.stack))
      modifies this`nodes, this`nextLeaf
      ensures Valid() && ORStep(s, State(), canBePruned) && |nodes| == |s.nodes|
    {
      nodes := nodes[n := keyed.(value := entry.value, optAssig := entry.assignment,
                                 leaf := true, heurCache := [])];
      nextLeaf := Some(n);
      ORHitIntro(s, State(), canBePruned);
    }

    /** An OR node past the cache (marked cachable if it was consulted): pruned, or expanded. */
    method ExpandORMarked(ghost s: EngineState, n: nat, marked: SearchNode, canBePruned: Pruner)
      requires WellFormed(prob, pt, heur) && assignment.Length == prob.nVars
      requires Ready(s) && Consistent(s) && n == Top(s.stack) && s.nodes[n].kind == NodeOR
      requires ORHit(s).None? && marked == ORMarked(s)
      requires State() == s.(stack := Pop(s.stack))
      modifies this`nodes, this`stack, this`nextLeaf, this`nodesOR
      ensures Valid() && ORStep(s, State(), canBePruned)
      ensures forall i :: |s.nodes| <= i < |nodes| ==> Expandable(nodes[i])
    {
      nodes := nodes[n := marked];
      if canBePruned(nodes, n) {
        nodes := nodes[n := marked.(leaf := true, pruned := true, value := ELEM_ZERO, heurCache := [])];
        nextLeaf := Some(n);
        ORPrunedIntro(s, State(), canBePruned);
        return;
      }
      ExpandORChildren(s, n, marked, canBePruned);
    }

    /** AND child generation, sorting and pushing for an OR node that is neither a cache hit nor pruned. */
    method ExpandORChildren(ghost s: EngineState, n: nat, marked: SearchNode, ghost canBePruned: Pruner)
      requires WellFormed(prob, pt, heur) && assignment.Length == prob.nVars
      requires Ready(s) && Consistent(s) && n == Top(s.stack) && s.nodes[n].kind == NodeOR
      requires ORHit(s).None? && marked == ORMarked(s) && !canBePruned(s.nodes[n := marked], n)
      requires State() == s.(stack := Pop(s.stack), nodes := s.nodes[n := marked])
      modifies this`nodes, this`stack, this`nodesOR
      ensures Valid() && ORStep(s, State(), canBePruned)
      ensures forall i :: |s.nodes| <= i < |nodes| ==> Expandable(nodes[i])
    {
      var v := marked.variable;
      var h := marked.heurCache;
      var d := prob.domainSize(v);
      var newNodes := CreateAndChildren(n, v, h, d);
      var sorted := SortByHeur(newNodes, nodes);
      PushAll(sorted);
      ghost var arena := nodes;
      nodes := nodes[n := marked.(children := marked.children + newNodes, heurCache := [])];
      nodesOR := nodesOR + 1;
      ORChildrenIntro(s, State(), canBePruned, sorted, arena);
    }

    /** Creates the AND children of OR node `n` for values d-1 down to 0, each with its heuristic
        and label from `h`; returns their indices in creation order, for `n`'s child list. */
    method CreateAndChildren(n: nat, v: int, h: seq<int>, d: nat) returns (newNodes: seq<nat>)
      requires 2 * d <= |h|
      modifies this`nodes
      ensures nodes == old(nodes) + AndChildren(n, v, h, 0, d)
      ensures newNodes == Range(old(|nodes|), d)
    {
      var N := |nodes|;
      newNodes := [];
      var i: int := d - 1;
      while i >= 0
        invariant -1 <= i < d
        invariant nodes == old(nodes) + AndChildren(n, v, h, i + 1, d)
        invariant newNodes == Range(N, d - 1 - i)
        decreases i
      {
        nodes := nodes + [AndChild(n, v, h, i)];
        newNodes := newNodes + [N + d - 1 - i];
        i := i - 1;
      }
    }

    /** Pushes `ids` onto the stack, first to last. */
    method PushAll(ids: seq<nat>)
      modifies this`stack
      ensures stack == old(stack) + ids
    {
      for k := 0 to |ids|
        invariant stack == old(stack) + ids[..k]
      {
        assert ids[..k + 1] == ids[..k] + [ids[k]];
        stack := stack + [ids[k]];
      }
      assert ids[..|ids|] == ids;
    }

    /** A dead-end or pruned AND node: the step is a reported leaf and the state stays consistent. */
    lemma ANDLeafIntro(s: EngineState, t: EngineState, canBePruned: Pruner, updated: SearchNode)
      requires Ready(s) && Consistent(s) && s.nodes[Top(s.stack)].kind == NodeAND
      requires var node := s.nodes[Top(s.stack)];
        && (if node.edgeLabel == ELEM_ZERO then updated == node.(leaf := true)
            else canBePruned(s.nodes, Top(s.stack))
                 && updated == node.(leaf := true, pruned := true, value := ELEM_ZERO))
        && t == s.(stack := Pop(s.stack), nodes := s.nodes[Top(s.stack) := updated],
                   assignment := s.assignment[node.variable := node.val], nextLeaf := Some(Top(s.stack)))
      ensures Consistent(t) && ANDStep(s, t, canBePruned)
    {
    }

    /** OR child generation establishes the children step and keeps the state consistent. */
    lemma ANDChildrenIntro(s: EngineState, t: EngineState, canBePruned: Pruner, arena: seq<SearchNode>)
      requires WellFormed(prob, pt, heur)
      requires Ready(s) && Consistent(s) && s.nodes[Top(s.stack)].kind == NodeAND
      requires var n := Top(s.stack);
        var node := s.nodes[n];
        var kids := pt.children(node.variable);
        var added := Range(|s.nodes|, |kids|);
        var childless := node.children + added == [];
        && node.edgeLabel != ELEM_ZERO && !canBePruned(s.nodes, n)
        && t.assignment == s.assignment[node.variable := node.val]
        && arena == s.nodes + OrChildren(n, kids, t.assignment, heur)
        && t.nodes == arena[n := node.(children := node.children + added,
                                       leaf := if childless then true else node.leaf)]
        && t.cache == ResetTables(s.cache, pt.cacheResetList(node.variable))
        && t.stack == Pop(s.stack) + added
        && t.nextLeaf == (if childless then Some(n) else s.nextLeaf)
        && t.nodesAND == s.nodesAND + 1 && t.nodesOR == s.nodesOR && t.root == s.root
      ensures Consistent(t) && ANDStep(s, t, canBePruned)
      ensures forall i :: |s.nodes| <= i < |t.nodes| ==> Expandable(t.nodes[i])
    {
      var n := Top(s.stack);
      var v := s.nodes[n].variable;
      var kids := pt.children(v);
      var created := OrChildren(n, kids, t.assignment, heur);
      OrChildrenAt(n, kids, t.assignment, heur);
      forall i | 0 <= i < |kids|
        ensures 0 <= created[i].variable < prob.nVars && Expandable(created[i])
      {
        assert created[i] == OrChild(n, kids[i], t.assignment, heur);
        assert kids[i] in pt.children(v);
        ChildIsVariable(prob, pt, heur, v, kids[i]);
      }
      AppendAfterUpdate(s.nodes, n, t.nodes[n], created);
      assert ANDChildrenStep(s, t);
    }

    /** A cache hit: the step is a reported leaf and the state stays consistent. */
    lemma ORHitIntro(s: EngineState, t: EngineState, canBePruned: Pruner)
      requires Ready(s) && Consistent(s) && s.nodes[Top(s.stack)].kind == NodeOR && ORHit(s).Some?
      requires t == s.(stack := Pop(s.stack), nextLeaf := Some(Top(s.stack)),
                       nodes := s.nodes[Top(s.stack) := ORKeyed(s).(value := ORHit(s).value.value,
                                                                   optAssig := ORHit(s).value.assignment,
                                                                   leaf := true, heurCache := [])])
      ensures Consistent(t) && ORStep(s, t, canBePruned)
    {
    }

    /** A pruned OR node: the step is a reported leaf and the state stays consistent. */
    lemma ORPrunedIntro(s: EngineState, t: EngineState, canBePruned: Pruner)
      requires Ready(s) && Consistent(s) && s.nodes[Top(s.stack)].kind == NodeOR && ORHit(s).None?
      requires canBePruned(s.nodes[Top(s.stack) := ORMarked(s)], Top(s.stack))
      requires t == s.(stack := Pop(s.stack), nextLeaf := Some(Top(s.stack)),
                       nodes := s.nodes[Top(s.stack) := ORMarked(s).(leaf := true, pruned := true,
                                                                     value := ELEM_ZERO, heurCache := [])])
      ensures Consistent(t) && ORStep(s, t, canBePruned)
    {
    }

    /** AND child generation establishes the children step and keeps the state consistent. */
    lemma ORChildrenIntro(s: EngineState, t: EngineState, canBePruned: Pruner, sorted: seq<nat>,
                          arena: seq<SearchNode>)
      requires Ready(s) && Consistent(s) && s.nodes[Top(s.stack)].kind == NodeOR && ORHit(s).None?
      requires var n := Top(s.stack);
        var marked := ORMarked(s);
        var d := prob.domainSize(marked.variable);
        var added := Range(|s.nodes|, d);
        && !canBePruned(s.nodes[n := marked], n)
        && arena == s.nodes[n := marked] + AndChildren(n, marked.variable, marked.heurCache, 0, d)
        && t.nodes == arena[n := marked.(children := marked.children + added, heurCache := [])]
        && multiset(sorted) == multiset(added) && SortedByHeur(sorted, arena)
        && t.stack == Pop(s.stack) + sorted
        && t.assignment == s.assignment && t.cache == s.cache && t.root == s.root
        && t.nextLeaf == s.nextLeaf && t.nodesAND == s.nodesAND && t.nodesOR == s.nodesOR + 1
      ensures Consistent(t) && ORStep(s, t, canBePruned)
      ensures forall i :: |s.nodes| <= i < |t.nodes| ==> Expandable(t.nodes[i])
    {
      ORChildrenShape(s, t, canBePruned, sorted, arena);
      ORChildrenConsistent(s, t);
    }

    /** The OR-children step keeps the engine state consistent and appends only AND nodes. */
    lemma ORChildrenConsistent(s: EngineState, t: EngineState)
      requires Ready(s) && Consistent(s) && s.nodes[Top(s.stack)].kind == NodeOR
      requires ORChildrenStep(s, t)
      requires t.assignment == s.assignment && t.root == s.root
      ensures Consistent(t)
      ensures forall i :: |s.nodes| <= i < |t.nodes| ==> Expandable(t.nodes[i])
    {
      var n := Top(s.stack);
      var rest := Pop(s.stack);
      forall i | 0 <= i < |t.stack|
        ensures t.stack[i] < |t.nodes|
      {
        if i < |rest| {
          assert t.stack[i] == t.stack[..|rest|][i];
        } else {
          assert t.stack[i] == t.stack[|rest|..][i - |rest|];
        }
      }
    }

    /** The shape of the OR-children step: the arena and the pushed block. */
    lemma ORChildrenShape(s: EngineState, t: EngineState, canBePruned: Pruner, sorted: seq<nat>,
                          arena: seq<SearchNode>)
      requires Ready(s) && Consistent(s) && s.nodes[Top(s.stack)].kind == NodeOR && ORHit(s).None?
      requires var n := Top(s.stack);
        var marked := ORMarked(s);
        var d := prob.domainSize(marked.variable);
        var added := Range(|s.nodes|, d);
        && !canBePruned(s.nodes[n := marked], n)
        && arena == s.nodes[n := marked] + AndChildren(n, marked.variable, marked.heurCache, 0, d)
        && t.nodes == arena[n := marked.(children := marked.children + added, heurCache := [])]
        && multiset(sorted) == multiset(added) && SortedByHeur(sorted, arena)
        && t.stack == Pop(s.stack) + sorted
        && t.assignment == s.assignment && t.cache == s.cache && t.root == s.root
        && t.nextLeaf == s.nextLeaf && t.nodesAND == s.nodesAND && t.nodesOR == s.nodesOR + 1
      ensures ORChildrenStep(s, t)
      ensures forall k :: 0 <= k < |sorted| ==> sorted[k] < |t.nodes|
    {
      var n := Top(s.stack);
      var marked := ORMarked(s);
      var d := prob.domainSize(marked.variable);
      var added := Range(|s.nodes|, d);
      var created := AndChildren(n, marked.variable, marked.heurCache, 0, d);
      assert |sorted| == |multiset(sorted)| == |multiset(added)| == d;
      forall k | 0 <= k < |sorted|
        ensures sorted[k] < |t.nodes|
      {
        assert sorted[k] in multiset(added);
      }
      ExpandORFrame(s, n, marked, t.nodes[n], sorted, arena, t.nodes, created, |s.nodes|, d);
      assert t.stack[|Pop(s.stack)|..] == sorted;
    }

    /** The arena after the OR branch: the popped node updated in place, the AND children appended,
        and the pushed block still sorted in it. */
    lemma ExpandORFrame(s: EngineState, n: nat, marked: SearchNode, self: SearchNode, sorted: seq<nat>,
                        arena: seq<SearchNode>, after: seq<SearchNode>, created: seq<SearchNode>,
                        N: nat, d: nat)
      requires n < |s.nodes| == N && |created| == d
      requires arena == s.nodes[n := marked] + created && after == arena[n := self]
      requires multiset(sorted) == multiset(Range(N, d)) && SortedByHeur(sorted, arena)
      ensures after == s.nodes[n := self] + created
      ensures SortedByHeur(sorted, after)
    {
      forall k | 0 <= k < |sorted|
        ensures after[sorted[k]].heur == arena[sorted[k]].heur
      {
        assert sorted[k] in multiset(Range(N, d));
        assert sorted[k] != n;
      }
      SortedFrame(sorted, arena, after);
    }

    /** A step that reports the popped node as the leaf keeps the stack invariant. */
    lemma LeafKeepsPending(s: EngineState, t: EngineState, updated: SearchNode)
      requires Ready(s) && Pending(s)
      requires t.stack == Pop(s.stack) && t.nodes == s.nodes[Top(s.stack) := updated]
      ensures Pending(t)
    {
      var n := Top(s.stack);
      var rest := Pop(s.stack);
      PopNoDuplicates(s.stack);
      forall i | 0 <= i < |rest|
        ensures rest[i] < |t.nodes| && Expandable(t.nodes[rest[i]])
      {
        assert rest[i] == s.stack[i];
        assert rest[i] in multiset(rest);
      }
    }

    /** A step that updates the popped node, appends `created` and pushes a block holding exactly
        the new indices keeps the stack invariant, provided the new nodes can be expanded. */
    lemma PushKeepsPending(s: EngineState, t: EngineState, updated: SearchNode, block: seq<nat>,
                           created: seq<SearchNode>)
      requires Ready(s) && Pending(s)
      requires t.nodes == s.nodes[Top(s.stack) := updated] + created
      requires t.stack == Pop(s.stack) + block
      requires multiset(block) == multiset(Range(|s.nodes|, |created|))
      requires forall i :: |s.nodes| <= i < |t.nodes| ==> Expandable(t.nodes[i])
      ensures Pending(t)
    {
      var rest := Pop(s.stack);
      var arena := s.nodes[Top(s.stack) := updated];
      var m := s.(stack := rest, nodes := arena);
      LeafKeepsPending(s, m, updated);
      PushNoDuplicates(rest, block, |s.nodes|, |created|);
      forall i | 0 <= i < |t.stack|
        ensures t.stack[i] < |t.nodes| && Expandable(t.nodes[t.stack[i]])
      {
        if i < |rest| {
          assert t.stack[i] == m.stack[i];
          assert m.stack[i] < |arena| && Expandable(arena[m.stack[i]]);
          assert t.nodes[rest[i]] == arena[rest[i]];
        } else {
          assert t.stack[i] == block[i - |rest|];
          assert t.stack[i] in multiset(block);
        }
      }
    }

    /** Every AND step keeps the stack invariant. */
    lemma ANDStepKeepsPending(s: EngineState, t: EngineState, canBePruned: Pruner)
      requires Ready(s) && Pending(s) && s.nodes[Top(s.stack)].kind == NodeAND
      requires ANDStep(s, t, canBePruned)
      requires forall i :: |s.nodes| <= i < |t.nodes| ==> Expandable(t.nodes[i])
      ensures Pending(t)
    {
      var n := Top(s.stack);
      var node := s.nodes[n];
      if node.edgeLabel == ELEM_ZERO {
        LeafKeepsPending(s, t, node.(leaf := true));
      } else if canBePruned(s.nodes, n) {
        LeafKeepsPending(s, t, node.(leaf := true, pruned := true, value := ELEM_ZERO));
      } else {
        var kids := pt.children(node.variable);
        var added := Range(|s.nodes|, |kids|);
        var childless := node.children + added == [];
        PushKeepsPending(s, t, node.(children := node.children + added,
                                     leaf := if childless then true else node.leaf),
                         added, OrChildren(n, kids, t.assignment, heur));
      }
    }

    /** Every OR step keeps the stack invariant. */
    lemma ORStepKeepsPending(s: EngineState, t: EngineState, canBePruned: Pruner)
      requires Ready(s) && Pending(s) && s.nodes[Top(s.stack)].kind == NodeOR
      requires ORStep(s, t, canBePruned)
      requires forall i :: |s.nodes| <= i < |t.nodes| ==> Expandable(t.nodes[i])
      ensures Pending(t)
    {
      var n := Top(s.stack);
      var node := s.nodes[n];
      var rest := Pop(s.stack);
      if ORHit(s).Some? {
        LeafKeepsPending(s, t, ORKeyed(s).(value := ORHit(s).value.value,
                                           optAssig := ORHit(s).value.assignment,
                                           leaf := true, heurCache := []));
      } else if canBePruned(s.nodes[n := ORMarked(s)], n) {
        LeafKeepsPending(s, t, ORMarked(s).(leaf := true, pruned := true, value := ELEM_ZERO,
                                            heurCache := []));
      } else {
        var marked := ORMarked(s);
        var d := prob.domainSize(node.variable);
        var added := Range(|s.nodes|, d);
        assert t.stack == rest + t.stack[|rest|..];
        PushKeepsPending(s, t, marked.(children := marked.children + added, heurCache := []),
                         t.stack[|rest|..], AndChildren(n, node.variable, node.heurCache, 0, d));
      }
    }

    /** Leaf-reporting exactness of the AND branch, for a node without earlier children. */
    lemma ANDStepReportsOneLeaf(s: EngineState, t: EngineState, canBePruned: Pruner)
      requires Ready(s) && s.nodes[Top(s.stack)].kind == NodeAND && s.nodes[Top(s.stack)].children == []
      requires ANDStep(s, t, canBePruned)
      ensures ReportsOneLeaf(s, t)
    {
    }

    /** Leaf-reporting exactness of the OR branch, for a node without earlier children and with a
        non-empty domain. */
    lemma ORStepReportsOneLeaf(s: EngineState, t: EngineState, canBePruned: Pruner)
      requires Ready(s) && s.nodes[Top(s.stack)].kind == NodeOR
      requires prob.domainSize(s.nodes[Top(s.stack)].variable) > 0
      requires ORStep(s, t, canBePruned)
      ensures ReportsOneLeaf(s, t)
    {
    }

    /** After AND children are pushed, the node on top has the highest heuristic of the block. */
    lemma ORChildrenTopIsHighest(s: EngineState, t: EngineState)
      requires Ready(s) && s.nodes[Top(s.stack)].kind == NodeOR
      requires prob.domainSize(s.nodes[Top(s.stack)].variable) > 0
      requires ORChildrenStep(s, t)
      ensures t.stack != [] && Top(t.stack) < |t.nodes|
      ensures forall j :: |s.stack| - 1 <= j < |t.stack| ==>
        t.stack[j] < |t.nodes| && t.nodes[t.stack[j]].heur <= t.nodes[Top(t.stack)].heur
    {
      var block := t.stack[|s.stack| - 1..];
      SortedLastIsHighest(block, t.nodes);
      assert Top(t.stack) == block[|block| - 1];
      forall j | |s.stack| - 1 <= j < |t.stack|
        ensures t.stack[j] < |t.nodes| && t.nodes[t.stack[j]].heur <= t.nodes[Top(t.stack)].heur
      {
        assert t.stack[j] == block[j - (|s.stack| - 1)];
      }
    }
  }

  /** Updating a node of an arena commutes with appending new nodes after it. */
  lemma AppendAfterUpdate(a: seq<SearchNode>, n: nat, self: SearchNode, created: seq<SearchNode>)
    requires n < |a|
    ensures (a + created)[n := self] == a[n := self] + created
  {
  }
}
