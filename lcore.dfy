/** Logical cores (`lcore.rs`): the `Id` newtype, its `Display`, the main-lcore
    test and `iter_enabled`, which walks `rte_get_next_lcore` from DPDK's
    "before the first" seed `-1`. `main()`, `current()` and
    `rte_get_next_lcore` are native calls and appear as parameters. */
module Lcore {
  import opened Base
  import opened Digits
  import opened Scan

  /** `RTE_MAX_LCORE`. */
  const MAX_LCORE: U32 := 128
  /** `LCORE_ID_ANY`. */
  const LCORE_ID_ANY: U32 := U32_MAX
  /** `LAST_ID` in `iter_enabled`: `u32::MAX`, which DPDK reads as `-1`. */
  const LAST_ID: U32 := U32_MAX
  const ANY_LCORE_TEXT: string := "any lcore"

  datatype Id = Id(id: U32)

  /** `Id::new`. */
  function New(id: U32): (r: Id)
    ensures r.id == id
  {
    Id(id)
  }

  /** `Id::get`. */
  function Get(i: Id): (id: U32)
    ensures Id(id) == i
  {
    i.id
  }

  /** `Id::new(x).get() == x`, and every `Id` is `Id::new` of its value. */
  lemma NewGetRoundTrip(x: U32, i: Id)
    ensures Get(New(x)) == x && New(Get(i)) == i
  {
  }

  /** `is_main`: the derived `PartialEq` against `main()`. */
  function IsMain(i: Id, main: Id): (r: bool)
    ensures r <==> Get(i) == Get(main)
  {
    i == main
  }

  /** `Display for Id`: `"any lcore"` for `LCORE_ID_ANY`, else the decimal id,
      which parses back to the id. */
  function Display(i: Id): (s: string)
    ensures s == ANY_LCORE_TEXT <==> Get(i) == LCORE_ID_ANY
    ensures Get(i) != LCORE_ID_ANY ==> ParseUnsigned(s, 10, U32_MAX) == Some(Get(i))
    ensures Get(i) != LCORE_ID_ANY ==> s == DecimalString(Get(i))
  {
    if i.id == LCORE_ID_ANY then ANY_LCORE_TEXT
    else
      DecimalRoundTrip(i.id, U32_MAX);
      assert ToDigit(ANY_LCORE_TEXT[0], 10).None?;
      DecimalString(i.id)
  }

  /** The ids `successors` produces after `last`, with `next` standing for
      `get_next(skip_main, false)`, taking at most `fuel` of them. */
  function Successors(next: U32 -> U32, last: U32, fuel: nat): (r: seq<U32>)
    ensures |r| <= fuel
    decreases fuel
  {
    if fuel == 0 then []
    else
      var id := next(last);
      if id < MAX_LCORE then [id] + Successors(next, id, fuel - 1) else []
  }

  /** Each id of the walk is `next` of the one before, all are below
      `RTE_MAX_LCORE`, and the walk stops at the first id that is not. */
  lemma {:induction false} SuccessorsWalk(next: U32 -> U32, last: U32, fuel: nat)
    ensures var r := Successors(next, last, fuel);
      (forall k :: 0 <= k < |r| ==> r[k] < MAX_LCORE)
      && (|r| > 0 ==> r[0] == next(last))
      && (forall k {:trigger next(r[k])} :: 0 <= k < |r| - 1 ==> r[k + 1] == next(r[k]))
      && (|r| < fuel ==> (if |r| == 0 then next(last) else next(r[|r| - 1])) >= MAX_LCORE)
    decreases fuel
  {
    var r := Successors(next, last, fuel);
    if fuel > 0 && next(last) < MAX_LCORE {
      var rest := Successors(next, next(last), fuel - 1);
      SuccessorsWalk(next, next(last), fuel - 1);
      assert r == [next(last)] + rest;
      forall k | 0 <= k < |r| - 1
        ensures r[k + 1] == next(r[k])
      {
        if k > 0 {
          assert r[k] == rest[k - 1] && r[k + 1] == rest[k];
        }
      }
    }
  }

  /** `iter_enabled(..).take(n)`: the walk from the seed, without the seed. */
  function IterEnabled(next: U32 -> U32, n: nat): (r: seq<U32>)
    ensures |r| <= n
    ensures forall k :: 0 <= k < |r| ==> r[k] < MAX_LCORE && r[k] != LAST_ID
    ensures |r| > 0 ==> r[0] == next(LAST_ID)
    ensures forall k {:trigger next(r[k])} :: 0 <= k < |r| - 1 ==> r[k + 1] == next(r[k])
    ensures |r| < n ==> (if |r| == 0 then next(LAST_ID) else next(r[|r| - 1])) >= MAX_LCORE
  {
    SuccessorsWalk(next, LAST_ID, n);
    Successors(next, LAST_ID, n)
  }

  /** DPDK's `rte_get_next_lcore(i, skip_main, 0)` for `eligible(j)` meaning
      "lcore j is enabled, and is not the main lcore if `skip_main`": the
      unsigned `i + 1` (so `-1` starts at 0), then the first eligible lcore
      from there, or the first id at or past `RTE_MAX_LCORE`. */
  function NextLcore(eligible: nat -> bool, i: U32): (r: U32)
    ensures (i + 1) % 0x1_0000_0000 < MAX_LCORE ==> r <= MAX_LCORE
  {
    var start := (i + 1) % 0x1_0000_0000;
    if start >= MAX_LCORE then start else FirstFrom(eligible, start, MAX_LCORE)
  }

  /** From the seed or from an lcore id, DPDK's search starts at the next id. */
  lemma NextLcoreFrom(eligible: nat -> bool, last: U32)
    requires last == LAST_ID || last < MAX_LCORE
    ensures NextLcore(eligible, last) == FirstFrom(eligible, if last == LAST_ID then 0 else last + 1, MAX_LCORE)
  {
  }

  /** One step of the walk: a `next` below `RTE_MAX_LCORE` is yielded and
      the walk goes on from it; any other ends the walk. */
  lemma SuccessorsStep(next: U32 -> U32, last: U32, fuel: nat)
    requires fuel > 0
    ensures next(last) < MAX_LCORE ==> Successors(next, last, fuel) == [next(last)] + Successors(next, next(last), fuel - 1)
    ensures next(last) >= MAX_LCORE ==> Successors(next, last, fuel) == []
  {
  }

  /** Driven by DPDK's search, the walk after `last` yields exactly the
      eligible lcores from `start`, the id after it, in ascending order.
      `next` is DPDK's search on the ids the walk can reach: the seed and
      the ids below `RTE_MAX_LCORE`. */
  lemma {:induction false} SuccessorsAreEligible(next: U32 -> U32, eligible: nat -> bool, last: U32, start: nat, fuel: nat)
    requires next(LAST_ID) == FirstFrom(eligible, 0, MAX_LCORE)
    requires forall i: U32 :: i < MAX_LCORE ==> next(i) == FirstFrom(eligible, i + 1, MAX_LCORE)
    requires last == LAST_ID || last < MAX_LCORE
    requires start == if last == LAST_ID then 0 else last + 1
    requires fuel >= MAX_LCORE - start
    ensures Successors(next, last, fuel) == Filtered(eligible, start, MAX_LCORE)
    decreases fuel
  {
    var f := FirstFrom(eligible, start, MAX_LCORE);
    assert next(last) == f;
    if f < MAX_LCORE {
      var fuelLeft := fuel - 1;
      var after := f + 1;
      var rest := Successors(next, f as U32, fuelLeft);
      var tail := Filtered(eligible, after, MAX_LCORE);
      assert Successors(next, last, fuel) == [f as U32] + rest by {
        SuccessorsStep(next, last, fuel);
      }
      assert Filtered(eligible, start, MAX_LCORE) == [f] + tail by {
        FilteredFromFirst(eligible, start, MAX_LCORE);
      }
      assert rest == tail by {
        SuccessorsAreEligible(next, eligible, f as U32, after, fuelLeft);
      }
    } else {
      assert Filtered(eligible, start, MAX_LCORE) == [] by {
        FilteredFromFirst(eligible, start, MAX_LCORE);
      }
      if fuel > 0 {
        SuccessorsStep(next, last, fuel);
      }
    }
  }

  /** `RTE_LCORE_FOREACH` semantics: with DPDK's search, `iter_enabled`
      yields every eligible lcore once, in ascending order. */
  lemma IterEnabledIsForeach(next: U32 -> U32, eligible: nat -> bool, n: nat)
    requires forall i: U32 :: next(i) == NextLcore(eligible, i)
    requires n >= MAX_LCORE
    ensures IterEnabled(next, n) == Filtered(eligible, 0, MAX_LCORE)
  {
    NextLcoreFrom(eligible, LAST_ID);
    forall i: U32 | i < MAX_LCORE
      ensures next(i) == FirstFrom(eligible, i + 1, MAX_LCORE)
    {
      NextLcoreFrom(eligible, i);
    }
    SuccessorsAreEligible(next, eligible, LAST_ID, 0, n);
  }
}
