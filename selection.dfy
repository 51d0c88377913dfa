/**
 * The selection of the list widget: an optional index into the displayed list,
 * moved circularly by `next`/`previous` and clamped after a deletion.
 */
module Selection {
  import opened Wrappers

  /**
   * `next`: nothing happens on an empty list; otherwise no selection becomes the
   * first row and a selection moves one row down, from the last row to the first.
   */
  function Advance(sel: Option<nat>, len: nat): (r: Option<nat>)
    ensures len == 0 ==> r == sel
    ensures len > 0 ==> r.Some? && r.value < len
    ensures len > 0 && sel.None? ==> r == Some(0)
    ensures sel.Some? && sel.value + 1 < len ==> r == Some(sel.value + 1)
    ensures sel.Some? && sel.value + 1 == len ==> r == Some(0)
    ensures len > 0 && sel.Some? ==> r == Some((sel.value + 1) % len)
  {
    if len == 0 then sel
    else match sel
      case None => Some(0)
      case Some(i) =>
        ModFacts(i + 1, len);
        Some((i + 1) % len)
  }

  /**
   * `previous`: nothing happens on an empty list; otherwise no selection becomes
   * the first row and a selection moves one row up, from the first row to the last.
   */
  function Retreat(sel: Option<nat>, len: nat): (r: Option<nat>)
    ensures len == 0 ==> r == sel
    ensures len > 0 ==> r.Some? && r.value < len
    ensures len > 0 && sel.None? ==> r == Some(0)
    ensures sel.Some? && 0 < sel.value < len ==> r == Some(sel.value - 1)
    ensures sel.Some? && sel.value == 0 && len > 0 ==> r == Some(len - 1)
    ensures len > 0 && sel.Some? ==> r == Some((sel.value + len - 1) % len)
  {
    if len == 0 then sel
    else match sel
      case None => Some(0)
      case Some(i) =>
        RetreatStep(i, len);
        Some((i + len - 1) % len)
  }

  /** `(i + len - 1) mod len` is below `len`, and is `i - 1` for a row other than the first. */
  lemma RetreatStep(i: nat, len: nat)
    requires len > 0
    ensures (i + len - 1) % len < len
    ensures 0 < i < len ==> (i + len - 1) % len == i - 1
  {
    ModFacts(i + len - 1, len);
    if 0 < i < len {
      DivModUnique(i + len - 1, len, 1, i - 1);
    }
  }

  /** Moving down and then up, or up and then down, returns to the row one started on. */
  lemma AdvanceRetreatInverse(i: nat, len: nat)
    requires i < len
    ensures Retreat(Advance(Some(i), len), len) == Some(i)
    ensures Advance(Retreat(Some(i), len), len) == Some(i)
  {
  }

  /** `k` successive `next` steps. */
  function AdvanceTimes(sel: Option<nat>, len: nat, k: nat): Option<nat> {
    if k == 0 then sel else Advance(AdvanceTimes(sel, len, k - 1), len)
  }

  lemma ModSuccessor(a: nat, n: nat)
    requires n > 0
    ensures (a % n + 1) % n == (a + 1) % n
  {
    var q, r := a / n, a % n;
    if r + 1 < n {
      DivModUnique(a + 1, n, q, r + 1);
      DivModUnique(r + 1, n, 0, r + 1);
    } else {
      DivModUnique(a + 1, n, q + 1, 0);
      DivModUnique(r + 1, n, 1, 0);
    }
  }

  // ---------------------------------------------------------------------------
  // Facts about `%` on naturals

  lemma ModFacts(a: nat, n: nat)
    requires n > 0
    ensures a % n < n
    ensures a < n ==> a % n == a
    ensures a == n ==> a % n == 0
  {
  }

  /** Quotient and remainder are unique. */
  lemma DivModUnique(a: int, n: int, q: int, r: int)
    requires n > 0 && 0 <= r < n && a == q * n + r
    ensures a % n == r && a / n == q
  {
    var q', r' := a / n, a % n;
    assert a == q' * n + r';
    assert (q - q') * n == r' - r;
    if q > q' { MulAtLeast(q - q', n); }
    if q < q' { MulAtLeast(q' - q, n); }
  }

  lemma MulAtLeast(x: int, n: int)
    requires x >= 1 && n > 0
    ensures x * n >= n
  {
    assert x * n == (x - 1) * n + n;
  }

  /** After `k` steps down from row `i` the selection is row `(i + k) mod len`. */
  lemma {:induction false} AdvanceTimesFrom(i: nat, len: nat, k: nat)
    requires i < len
    ensures AdvanceTimes(Some(i), len, k) == Some((i + k) % len)
  {
    if k > 0 {
      AdvanceTimesFrom(i, len, k - 1);
      ModSuccessor(i + k - 1, len);
    }
  }

  /** `len` steps down go once round the list and come back to the starting row. */
  lemma AdvanceFullCircle(i: nat, len: nat)
    requires i < len
    ensures AdvanceTimes(Some(i), len, len) == Some(i)
  {
    AdvanceTimesFrom(i, len, len);
    DivModUnique(i + len, len, 1, i);
  }

  /**
   * The selection after the selected row at `i` was deleted and the list now has
   * `newLen` rows: none if the list is empty, else `min(i, newLen - 1)`, so the
   * same position unless it no longer exists, then the new last row.
   */
  function ClampAfterDelete(i: nat, newLen: nat): (r: Option<nat>)
    ensures r.None? <==> newLen == 0
    ensures r.Some? ==> r.value < newLen
    ensures i < newLen ==> r == Some(i)
    ensures 0 < newLen <= i ==> r == Some(newLen - 1)
  {
    if newLen > 0 then Some(if i < newLen - 1 then i else newLen - 1) else None
  }
}
