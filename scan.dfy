/** Ascending scans over an id range `[lo, hi)`: the first id at or after a
    start that has a property (what DPDK's `rte_eth_find_next_owned_by` and
    `rte_get_next_lcore` compute), and the ascending list of all ids that have
    it. Port and lcore iteration are both stated against these. */
module Scan {

  /** The least `j` in `[lo, hi)` with `p(j)`, or `hi` when there is none. */
  function FirstFrom(p: nat -> bool, lo: nat, hi: nat): (r: nat)
    decreases hi - lo
    ensures r == hi || (lo <= r < hi && p(r))
    ensures lo <= hi ==> lo <= r
  {
    if lo >= hi then hi
    else if p(lo) then lo
    else FirstFrom(p, lo + 1, hi)
  }

  /** No id between the start and `FirstFrom` has the property. */
  lemma {:induction false} FirstFromLeast(p: nat -> bool, lo: nat, hi: nat)
    ensures forall j :: lo <= j < FirstFrom(p, lo, hi) && j < hi ==> !p(j)
    decreases hi - lo
  {
    if lo < hi && !p(lo) {
      FirstFromLeast(p, lo + 1, hi);
    }
  }

  /** The ids in `[lo, hi)` that satisfy `p`, in ascending order. */
  function Filtered(p: nat -> bool, lo: nat, hi: nat): (s: seq<nat>)
    decreases hi - lo
    ensures forall i :: 0 <= i < |s| ==> lo <= s[i] < hi && p(s[i])
    ensures forall j {:trigger j in s} :: lo <= j < hi && p(j) ==> j in s
    ensures forall i, k :: 0 <= i < k < |s| ==> s[i] < s[k]
    ensures lo <= hi ==> |s| <= hi - lo
  {
    if lo >= hi then []
    else if p(lo) then [lo] + Filtered(p, lo + 1, hi)
    else Filtered(p, lo + 1, hi)
  }

  /** Skipping to the first match does not change the list of matches, and
      that match heads it. */
  lemma {:induction false} FilteredFromFirst(p: nat -> bool, lo: nat, hi: nat)
    requires lo <= hi
    ensures FirstFrom(p, lo, hi) == hi ==> Filtered(p, lo, hi) == []
    ensures FirstFrom(p, lo, hi) < hi ==>
      Filtered(p, lo, hi) == [FirstFrom(p, lo, hi)] + Filtered(p, FirstFrom(p, lo, hi) + 1, hi)
    decreases hi - lo
  {
    if lo < hi && !p(lo) {
      var f := FirstFrom(p, lo + 1, hi);
      assert FirstFrom(p, lo, hi) == f;
      assert Filtered(p, lo, hi) == Filtered(p, lo + 1, hi);
      FilteredFromFirst(p, lo + 1, hi);
    }
  }
}
