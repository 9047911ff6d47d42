/**
 * The adaptive cache table consulted by OR-node expansion. Its storage, hashing and eviction are
 * not part of this model: it is a map from (variable, instance, context values) to a solved
 * subproblem value and its optimal sub-assignment.
 */
module CacheTable {
  import opened Wrappers

  datatype CacheKey = CacheKey(variable: int, inst: int, context: seq<int>)

  datatype CacheEntry = CacheEntry(value: int, assignment: seq<int>)

  type Cache = map<CacheKey, CacheEntry>

  /** The instance id and context vector that `addCacheContext` attaches to an OR node. */
  datatype CacheSig = CacheSig(inst: int, context: seq<int>)

  /** `read`: the stored entry, or None where the table signals "not found". */
  function Read(c: Cache, k: CacheKey): Option<CacheEntry>
  {
    if k in c then Some(c[k]) else None
  }

  /** `reset(id)`: forget every entry of the table that belongs to variable `id`. */
  function Reset(c: Cache, id: int): Cache
  {
    map k | k in c && k.variable != id :: c[k]
  }

  /** Resetting the tables named by `ids`, first to last. */
  function ResetTables(c: Cache, ids: seq<int>): Cache
  {
    if ids == [] then c else Reset(ResetTables(c, ids[..|ids| - 1]), ids[|ids| - 1])
  }

  /** After resetting the tables in `ids`, exactly the entries of the other tables survive, unchanged. */
  lemma {:induction false} ResetTablesSpec(c: Cache, ids: seq<int>)
    ensures forall k :: k in ResetTables(c, ids) <==> k in c && k.variable !in ids
    ensures forall k :: k in ResetTables(c, ids) ==> ResetTables(c, ids)[k] == c[k]
  {
    if ids != [] {
      var init := ids[..|ids| - 1];
      ResetTablesSpec(c, init);
      assert ids == init + [ids[|ids| - 1]];
    }
  }

  /** `reset` is idempotent. */
  lemma ResetIdempotent(c: Cache, id: int)
    ensures Reset(Reset(c, id), id) == Reset(c, id)
  {
  }
}
