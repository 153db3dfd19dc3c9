/** The test helpers' `mock_lcore`: the current thread's id is printed with
    `{:?}`, read back by `parse` and installed as the mock lcore id. The
    same `parse` appears in the `rte` crate's `test_utils` and in the
    `rte-test-utils` crate. The thread id and `_rte_set_mock_lcore` are native:
    the id is a parameter and the installed value is the result. */
module ThreadIds {
  import opened Base
  import opened Digits
  import opened Strings

  const THREAD_ID_PREFIX: string := "ThreadId("
  const THREAD_ID_SUFFIX: string := ")"
  /** The panic of `.unwrap()` on `parse`'s `None`. */
  const PARSE_FAILED: string := "called `Option::unwrap()` on a `None` value"

  /** `parse`: strip `ThreadId(`, strip `)`, parse the rest as a `u32`; any
      step that fails makes the result `None`. */
  function ParseThreadId(s: string): (r: Option<U32>)
    ensures StripPrefix(s, THREAD_ID_PREFIX).None? ==> r.None?
    ensures StripPrefix(s, THREAD_ID_PREFIX).Some? && StripSuffix(StripPrefix(s, THREAD_ID_PREFIX).value, THREAD_ID_SUFFIX).None? ==> r.None?
  {
    match StripPrefix(s, THREAD_ID_PREFIX)
    case None => None
    case Some(inner) =>
      match StripSuffix(inner, THREAD_ID_SUFFIX)
      case None => None
      case Some(digits) =>
        match ParseUnsigned(digits, 10, U32_MAX)
        case None => None
        case Some(n) => Some(n as U32)
  }

  /** Text of the form `ThreadId(d)` parses exactly as `d` does as a `u32`. */
  lemma ParseWrapped(d: string)
    ensures ParseThreadId(THREAD_ID_PREFIX + d + THREAD_ID_SUFFIX) == ParseUnsigned(d, 10, U32_MAX)
  {
    var s := THREAD_ID_PREFIX + d + THREAD_ID_SUFFIX;
    assert s == THREAD_ID_PREFIX + (d + THREAD_ID_SUFFIX);
    StripRoundTrip(THREAD_ID_PREFIX, d + THREAD_ID_SUFFIX);
    StripRoundTrip(THREAD_ID_SUFFIX, d);
  }

  /** Text that parses is of the form `ThreadId(d)` with `d` a `u32` in
      decimal (an optional `+`, then digits). */
  lemma ParsedIsWrapped(s: string)
    requires ParseThreadId(s).Some?
    ensures exists d :: (s == THREAD_ID_PREFIX + d + THREAD_ID_SUFFIX
      && ParseUnsigned(d, 10, U32_MAX) == ParseThreadId(s))
  {
    var inner := StripPrefix(s, THREAD_ID_PREFIX).value;
    var d := StripSuffix(inner, THREAD_ID_SUFFIX).value;
    assert s == THREAD_ID_PREFIX + d + THREAD_ID_SUFFIX;
  }

  /** `{:?}` of a `ThreadId`: `ThreadId(n)` with `n` in decimal. */
  function DebugThreadId(id: U64): (s: string)
    requires id > 0
    ensures |s| > |THREAD_ID_PREFIX| + |THREAD_ID_SUFFIX|
  {
    THREAD_ID_PREFIX + DecimalString(id) + THREAD_ID_SUFFIX
  }

  /** `mock_lcore` on a thread with id `id` (a non-zero `u64`): the lcore id
      it installs, or the panic of `unwrap` when the id does not fit a `u32`. */
  function MockLcore(id: U64): (r: Outcome<U32>)
    requires id > 0
    ensures r.Returned? <==> id <= U32_MAX
    ensures r.Returned? ==> r.value == id
    ensures r.Panicked? ==> r.message == PARSE_FAILED
  {
    ParseWrapped(DecimalString(id));
    DecimalValue(id);
    match ParseThreadId(DebugThreadId(id))
    case None => Panicked(PARSE_FAILED)
    case Some(lcore) => Returned(lcore)
  }

  /** What `ThreadId(..)` must hold for `parse` to succeed: neither an
      empty middle, nor a character that is not a decimal digit (past an
      optional leading `+`), nor a value past `u32::MAX` is accepted. */
  lemma MiddleRejected(d: string, n: nat)
    ensures ParseThreadId(THREAD_ID_PREFIX + THREAD_ID_SUFFIX).None?
    ensures (exists i :: 0 < i < |d| && ToDigit(d[i], 10).None?) ==>
      ParseThreadId(THREAD_ID_PREFIX + d + THREAD_ID_SUFFIX).None?
    ensures n > U32_MAX ==> ParseThreadId(THREAD_ID_PREFIX + DecimalString(n) + THREAD_ID_SUFFIX).None?
  {
    ParseWrapped("");
    assert THREAD_ID_PREFIX + "" + THREAD_ID_SUFFIX == THREAD_ID_PREFIX + THREAD_ID_SUFFIX;
    ParseWrapped(d);
    if exists i :: 0 < i < |d| && ToDigit(d[i], 10).None? {
      var i :| 0 < i < |d| && ToDigit(d[i], 10).None?;
      var digits := if |d| > 0 && d[0] == '+' then d[1..] else d;
      assert !AllDigits(digits, 10) by {
        if d[0] == '+' { assert digits[i - 1] == d[i]; } else { assert digits[i] == d[i]; }
      }
    }
    ParseWrapped(DecimalString(n));
    DecimalValue(n);
  }
}
