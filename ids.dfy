/**
 * Every store hands out ids as "current length + 1" and only ever appends, so the
 * entity at 0-based position k has id k + 1. This module names that invariant and
 * what follows from it.
 */
module Ids {

  /** The ids are exactly 1, 2, ..., n in order. */
  ghost predicate Dense(ids: seq<int>)
  {
    forall k :: 0 <= k < |ids| ==> ids[k] == k + 1
  }

  /** The empty store is dense, and appending the id "length + 1" keeps it dense. */
  lemma DenseAppend(ids: seq<int>)
    requires Dense(ids)
    ensures Dense([]) && Dense(ids + [|ids| + 1])
  {
  }

  /** Dense ids are unique: two positions with the same id are the same position. */
  lemma DenseUnique(ids: seq<int>, i: int, j: int)
    requires Dense(ids) && 0 <= i < |ids| && 0 <= j < |ids| && ids[i] == ids[j]
    ensures i == j
  {
  }

  /** An id is present exactly when it lies in 1..n, and then it sits at position id - 1. */
  lemma DenseMember(ids: seq<int>, id: int)
    requires Dense(ids)
    ensures id in ids <==> 1 <= id <= |ids|
    ensures id in ids ==> ids[id - 1] == id
  {
    if 1 <= id <= |ids| {
      assert ids[id - 1] == id;
    }
  }
}
