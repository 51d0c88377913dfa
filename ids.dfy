/**
 * Task identifiers: the next id of a scope is the largest id in use plus one
 * (`iter().map(|t| t.id).max().unwrap_or(0) + 1`), and tasks are located by the
 * first position holding a given id (`iter().find` / `iter().position`).
 */
module Ids {
  import opened Wrappers

  /** The largest id of the scope, or 0 for an empty scope (`max().unwrap_or(0)`). */
  function MaxId(ids: seq<nat>): (m: nat)
    ensures forall i :: 0 <= i < |ids| ==> ids[i] <= m
    ensures |ids| == 0 ==> m == 0
    ensures |ids| > 0 ==> exists i :: 0 <= i < |ids| && ids[i] == m
  {
    if |ids| == 0 then 0
    else
      var rest := MaxId(ids[1..]);
      if ids[0] >= rest then ids[0] else rest
  }

  /** The id given to a task added to the scope: fresh, and exactly one above the largest. */
  function NextId(ids: seq<nat>): (r: nat)
    ensures r >= 1
    ensures forall i :: 0 <= i < |ids| ==> ids[i] < r
    ensures |ids| == 0 ==> r == 1
    ensures |ids| > 0 ==> exists i :: 0 <= i < |ids| && ids[i] == r - 1
  {
    MaxId(ids) + 1
  }

  /** No id occurs twice. */
  predicate Distinct(ids: seq<nat>) {
    forall i, j :: 0 <= i < j < |ids| ==> ids[i] != ids[j]
  }

  /** Adding a task with the next id keeps distinct ids distinct. */
  lemma NextIdKeepsDistinct(ids: seq<nat>)
    requires Distinct(ids)
    ensures Distinct(ids + [NextId(ids)])
  {
    var r := NextId(ids);
    forall i, j | 0 <= i < j < |ids + [r]|
      ensures (ids + [r])[i] != (ids + [r])[j]
    {
      if j == |ids| {
        assert (ids + [r])[i] == ids[i] < r;
      } else {
        assert (ids + [r])[i] == ids[i] && (ids + [r])[j] == ids[j];
      }
    }
  }

  /** The ids `1, 2, …, n`: what `n` adds to an empty scope issue. */
  function Sequential(n: nat): (ids: seq<nat>)
    ensures |ids| == n && forall i :: 0 <= i < n ==> ids[i] == i + 1
  {
    if n == 0 then [] else Sequential(n - 1) + [n]
  }

  /** Adding to a scope whose ids are `1..n` issues `n + 1`, so successive adds issue `1, 2, 3, …`. */
  lemma {:induction false} SequentialIdsContinue(n: nat)
    ensures NextId(Sequential(n)) == n + 1
    ensures Sequential(n) + [NextId(Sequential(n))] == Sequential(n + 1)
  {
    var ids := Sequential(n);
    var r := NextId(ids);
    if n > 0 {
      var i :| 0 <= i < |ids| && ids[i] == r - 1;
      assert ids[n - 1] == n;
    }
  }

  /**
   * Ids are not kept out after a deletion: once the holder of the largest id is
   * removed, the next add issues that id again.
   */
  lemma DeletedMaxIdIsReused()
    ensures NextId([1, 2]) == 3
    ensures NextId([1]) == 2
  {
    assert MaxId([1, 2]) == 2 by {
      assert [1, 2][1..] == [2];
    }
  }

  /** The first position holding `id`, or `None` if no position holds it. */
  function FirstIndexOf(ids: seq<nat>, id: nat): (r: Option<nat>)
    ensures r.Some? ==> r.value < |ids| && ids[r.value] == id
    ensures r.Some? ==> forall j :: 0 <= j < r.value ==> ids[j] != id
    ensures r.None? <==> forall j :: 0 <= j < |ids| ==> ids[j] != id
  {
    if |ids| == 0 then None
    else if ids[0] == id then Some(0)
    else match FirstIndexOf(ids[1..], id)
      case None => None
      case Some(k) => Some(k + 1)
  }
}
