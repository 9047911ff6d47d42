/**
 * Nodes of the AND/OR search tree, stored in an arena and referred to by index, and the pure
 * pieces of node expansion: building the children of a node and ordering them by heuristic.
 */
module SearchNodes {
  import opened Wrappers
  import opened Collaborators

  /** The semiring's zero and one (the non-logarithmic build: values multiply, zero annihilates). */
  const ELEM_ZERO: int := 0
  const ELEM_ONE: int := 1

  datatype NodeType = NodeOR | NodeAND

  /** One search node. An AND node carries the variable of its parent OR node. `heurCache` is the
      precomputed heuristic/label array of an OR node; the empty sequence stands for a cleared cache. */
  datatype SearchNode = SearchNode(
    kind: NodeType,
    variable: int,
    val: int,
    parent: Option<nat>,
    children: seq<nat>,
    value: int,
    heur: int,
    edgeLabel: int,
    leaf: bool,
    pruned: bool,
    cachable: bool,
    heurCache: seq<int>,
    cacheInst: int,
    cacheContext: seq<int>,
    optAssig: seq<int>)

  /** A fresh OR node for variable `v`. */
  function NewOR(parent: Option<nat>, v: int): (r: SearchNode)
    ensures r.kind == NodeOR && r.variable == v && r.parent == parent
    ensures r.value == ELEM_ZERO && r.heur == ELEM_ONE && r.edgeLabel == ELEM_ONE
    ensures r.children == [] && r.heurCache == [] && !r.leaf && !r.pruned && !r.cachable
  {
    SearchNode(NodeOR, v, 0, parent, [], ELEM_ZERO, ELEM_ONE, ELEM_ONE,
               false, false, false, [], 0, [], [])
  }

  /** A fresh AND node assigning `val` to `v`, the variable of its parent OR node. */
  function NewAND(parent: Option<nat>, v: int, val: int): (r: SearchNode)
    ensures r.kind == NodeAND && r.variable == v && r.val == val && r.parent == parent
    ensures r.value == ELEM_ZERO && r.heur == ELEM_ONE && r.edgeLabel == ELEM_ONE
    ensures r.children == [] && r.heurCache == [] && !r.leaf && !r.pruned && !r.cachable
  {
    SearchNode(NodeAND, v, val, parent, [], ELEM_ZERO, ELEM_ONE, ELEM_ONE,
               false, false, false, [], 0, [], [])
  }

  /** Indices lo, lo + 1, ..., lo + k - 1: where k nodes appended to an arena of size lo land. */
  function Range(lo: nat, k: nat): (r: seq<nat>)
    ensures |r| == k
    ensures forall j :: 0 <= j < k ==> r[j] == lo + j
  {
    if k == 0 then [] else Range(lo, k - 1) + [lo + k - 1]
  }

  /** No index occurs twice in a range, and every one lies in [lo, lo + k). */
  lemma {:induction false} RangeCounts(lo: nat, k: nat)
    ensures forall x :: multiset(Range(lo, k))[x] <= 1
    ensures forall x :: x in multiset(Range(lo, k)) ==> lo <= x < lo + k
  {
    if k > 0 {
      RangeCounts(lo, k - 1);
      var r := Range(lo, k - 1);
      assert Range(lo, k) == r + [lo + k - 1];
      assert lo + k - 1 !in multiset(r);
    }
  }

  /** The OR child for pseudo-tree child variable `c`, with its heuristic computed. */
  function OrChild(parent: nat, c: int, assignment: seq<int>, heur: Heuristic): (r: SearchNode)
    ensures r.kind == NodeOR && r.variable == c && r.parent == Some(parent) && r.children == []
    ensures r.heur == heur.heuristicOR(c, assignment).heur
    ensures r.heurCache == heur.heuristicOR(c, assignment).table
    ensures !r.leaf && !r.pruned && !r.cachable
  {
    var est := heur.heuristicOR(c, assignment);
    NewOR(Some(parent), c).(heur := est.heur, heurCache := est.table)
  }

  /** The OR children of an AND node, one per pseudo-tree child, in child order. */
  function OrChildren(parent: nat, kids: seq<int>, assignment: seq<int>, heur: Heuristic): (r: seq<SearchNode>)
    ensures |r| == |kids|
  {
    if kids == [] then []
    else OrChildren(parent, kids[..|kids| - 1], assignment, heur)
         + [OrChild(parent, kids[|kids| - 1], assignment, heur)]
  }

  /** The j-th OR child belongs to the j-th pseudo-tree child. */
  lemma {:induction false} OrChildrenAt(parent: nat, kids: seq<int>, assignment: seq<int>, heur: Heuristic)
    ensures forall j :: 0 <= j < |kids| ==>
      OrChildren(parent, kids, assignment, heur)[j] == OrChild(parent, kids[j], assignment, heur)
  {
    if kids != [] {
      var init := kids[..|kids| - 1];
      OrChildrenAt(parent, init, assignment, heur);
      forall j | 0 <= j < |kids|
        ensures OrChildren(parent, kids, assignment, heur)[j] == OrChild(parent, kids[j], assignment, heur)
      {
        if j < |init| {
          assert kids[j] == init[j];
        }
      }
    }
  }

  /** The AND child for value `i`: heuristic from slot 2i and label from slot 2i+1 of `h`. */
  function AndChild(parent: nat, v: int, h: seq<int>, i: nat): (r: SearchNode)
    requires 2 * i + 1 < |h|
    ensures r.kind == NodeAND && r.variable == v && r.val == i && r.parent == Some(parent)
    ensures r.heur == h[2 * i] && r.edgeLabel == h[2 * i + 1]
    ensures r.children == [] && !r.leaf && !r.pruned && !r.cachable
  {
    NewAND(Some(parent), v, i).(heur := h[2 * i], edgeLabel := h[2 * i + 1])
  }

  /** The AND children for values d-1 down to lo, in the order they are created. */
  function AndChildren(parent: nat, v: int, h: seq<int>, lo: nat, d: nat): (r: seq<SearchNode>)
    requires lo <= d && 2 * d <= |h|
    ensures |r| == d - lo
    ensures forall j :: 0 <= j < |r| ==> r[j].kind == NodeAND && r[j].variable == v
    decreases d - lo
  {
    if lo == d then [] else AndChildren(parent, v, h, lo + 1, d) + [AndChild(parent, v, h, lo)]
  }

  /** Exactly one AND child per value i in [lo, d), found at position d-1-i. */
  lemma {:induction false} AndChildrenAt(parent: nat, v: int, h: seq<int>, lo: nat, d: nat)
    requires lo <= d && 2 * d <= |h|
    ensures forall i :: lo <= i < d ==>
      AndChildren(parent, v, h, lo, d)[d - 1 - i] == AndChild(parent, v, h, i)
    decreases d - lo
  {
    if lo < d {
      AndChildrenAt(parent, v, h, lo + 1, d);
    }
  }

  /** `ids` name arena nodes and run by non-decreasing heuristic value. */
  predicate SortedByHeur(ids: seq<nat>, arena: seq<SearchNode>)
  {
    && (forall k :: 0 <= k < |ids| ==> ids[k] < |arena|)
    && (forall a, b :: 0 <= a < b < |ids| ==> arena[ids[a]].heur <= arena[ids[b]].heur)
  }

  /** Putting `x` between the nodes no heavier than it and the nodes heavier than it keeps a
      block sorted. */
  lemma InsertKeepsSorted(r: seq<nat>, x: nat, j: nat, arena: seq<SearchNode>)
    requires SortedByHeur(r, arena) && x < |arena| && j <= |r|
    requires forall k :: 0 <= k < j ==> arena[r[k]].heur <= arena[x].heur
    requires forall k :: j <= k < |r| ==> arena[x].heur < arena[r[k]].heur
    ensures SortedByHeur(r[..j] + [x] + r[j..], arena)
  {
    var r' := r[..j] + [x] + r[j..];
    forall k | 0 <= k < |r'|
      ensures r'[k] == (if k < j then r[k] else if k == j then x else r[k - 1])
    {
    }
    forall a, b | 0 <= a < b < |r'|
      ensures arena[r'[a]].heur <= arena[r'[b]].heur
    {
      if b < j {
        assert r'[a] == r[a] && r'[b] == r[b];
      } else if b == j {
        assert r'[a] == r[a];
      } else if a == j {
        assert r'[b] == r[b - 1];
      } else if a < j {
        assert r'[a] == r[a] && r'[b] == r[b - 1];
      } else {
        assert r'[a] == r[a - 1] && r'[b] == r[b - 1];
      }
    }
  }

  /** Inserts `x` into the sorted block `r` after every node whose heuristic is not larger. */
  method InsertByHeur(r: seq<nat>, x: nat, arena: seq<SearchNode>) returns (r': seq<nat>)
    requires SortedByHeur(r, arena) && x < |arena|
    ensures multiset(r') == multiset(r) + multiset{x}
    ensures SortedByHeur(r', arena)
  {
    var j := 0;
    while j < |r| && arena[r[j]].heur <= arena[x].heur
      invariant 0 <= j <= |r|
      invariant forall k :: 0 <= k < j ==> arena[r[k]].heur <= arena[x].heur
    {
      j := j + 1;
    }
    forall k | j <= k < |r|
      ensures arena[x].heur < arena[r[k]].heur
    {
      assert arena[r[j]].heur <= arena[r[k]].heur;
    }
    InsertKeepsSorted(r, x, j, arena);
    r' := r[..j] + [x] + r[j..];
    assert r == r[..j] + r[j..];
    assert multiset(r') == multiset(r[..j]) + multiset{x} + multiset(r[j..]);
  }

  /** `sort(..., SearchNode::heurLess)`: a permutation of `ids` by increasing heuristic. */
  method SortByHeur(ids: seq<nat>, arena: seq<SearchNode>) returns (r: seq<nat>)
    requires forall k :: 0 <= k < |ids| ==> ids[k] < |arena|
    ensures multiset(r) == multiset(ids)
    ensures SortedByHeur(r, arena)
  {
    r := [];
    var i := 0;
    while i < |ids|
      invariant 0 <= i <= |ids|
      invariant multiset(r) == multiset(ids[..i])
      invariant SortedByHeur(r, arena)
    {
      r := InsertByHeur(r, ids[i], arena);
      assert ids[..i + 1] == ids[..i] + [ids[i]];
      i := i + 1;
    }
    assert ids[..i] == ids;
  }

  /** Sortedness only looks at the heuristic values of the listed nodes. */
  lemma SortedFrame(ids: seq<nat>, a1: seq<SearchNode>, a2: seq<SearchNode>)
    requires SortedByHeur(ids, a1) && |a1| <= |a2|
    requires forall k :: 0 <= k < |ids| ==> a2[ids[k]].heur == a1[ids[k]].heur
    ensures SortedByHeur(ids, a2)
  {
  }

  /** The last (top-of-stack) element of a sorted block has the highest heuristic of the block. */
  lemma SortedLastIsHighest(ids: seq<nat>, arena: seq<SearchNode>)
    requires SortedByHeur(ids, arena) && ids != []
    ensures forall k :: 0 <= k < |ids| ==> arena[ids[k]].heur <= arena[ids[|ids| - 1]].heur
  {
  }
}
