/**
 * The read-only collaborators of the search engine, each reduced to the queries the engine makes.
 * Their implementations are not part of this model.
 */
module Collaborators {
  import opened Wrappers

  /** The graphical model: its number of variables and the domain size of each. */
  datatype Problem = Problem(nVars: nat, domainSize: int -> nat)

  /** The pseudo tree, queried per variable. */
  datatype Pseudotree = Pseudotree(
    root: int,                          // variable of the pseudo tree's (dummy) root
    children: int -> seq<int>,          // variables of the child nodes, in order
    parent: int -> Option<int>,         // variable of the parent node; None at the root
    fullContextSize: int -> nat,        // size of the node's full context
    cacheResetList: int -> seq<int>)    // cache tables to reset when the node is expanded

  /** What `heuristicOR` computes for a new OR node: its heuristic value and the interleaved
      (heuristic, label) array, one pair per domain value. */
  datatype HeurEstimate = HeurEstimate(heur: int, table: seq<int>)

  /** The heuristic, as a function of the OR node's variable and the current assignment. */
  datatype Heuristic = Heuristic(heuristicOR: (int, seq<int>) -> HeurEstimate)

  /** What the engine relies on: the root is a variable, child variables are variables whose
      parent is the node they hang under, and the heuristic fills 2 * domainSize entries. */
  ghost predicate WellFormed(prob: Problem, pt: Pseudotree, heur: Heuristic)
  {
    && 0 <= pt.root < prob.nVars
    && (forall v, i :: 0 <= v < prob.nVars && 0 <= i < |pt.children(v)| ==>
          0 <= pt.children(v)[i] < prob.nVars && pt.parent(pt.children(v)[i]) == Some(v))
    && (forall v, a :: |heur.heuristicOR(v, a).table| == 2 * prob.domainSize(v))
  }

  /** A pseudo-tree child of a variable is a variable whose parent is that variable. */
  lemma ChildIsVariable(prob: Problem, pt: Pseudotree, heur: Heuristic, v: int, c: int)
    requires WellFormed(prob, pt, heur) && 0 <= v < prob.nVars && c in pt.children(v)
    ensures 0 <= c < prob.nVars && pt.parent(c) == Some(v)
  {
    var i :| 0 <= i < |pt.children(v)| && pt.children(v)[i] == c;
  }
}
