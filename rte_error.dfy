/** `rte-error`: translating what a DPDK call returns (an `int` status or a
    pointer) into `Result<_, Error>`, and the text an `Error` prints as, which
    the panics of `expect` and `unwrap` carry. */
module RteError {
  import opened Base
  import opened Digits
  import opened Strings

  /** `Error(pub i32)`: an error code as DPDK reports it. */
  datatype Error = Error(code: I32)

  /** `rte_error()`: wraps the calling thread's `rte_errno`, which the model
      receives as a parameter. */
  function RteErrorOf(errno: I32): (e: Error)
    ensures e.code == errno
  {
    Error(errno)
  }

  /** `rte_ok` on a `c_int`: non-negative values are successes returned as they
      are; a negative value `v` is the error `-v`. For `i32::MIN` the negation
      wraps (release builds; a debug build panics on the overflow). */
  function RteOkInt(v: I32): (r: Result<I32, Error>)
    ensures r.Ok? <==> v >= 0
    ensures r.Ok? ==> r.value == v
    ensures r.Err? && v != I32_MIN ==> r.error.code == -v && r.error.code > 0
  {
    if v >= 0 then Ok(v) else Err(Error(WrappingNeg(v)))
  }

  /** Distinct return values give distinct results: the translation loses nothing. */
  lemma RteOkIntInjective(v: I32, w: I32)
    requires RteOkInt(v) == RteOkInt(w)
    ensures v == w
  {
    if v < 0 && w < 0 {
      assert WrappingNeg(v) == WrappingNeg(w);
      if v == I32_MIN || w == I32_MIN {
        assert v == w;
      }
    }
  }

  /** The two cases the crate's own tests check: `1` and `-1`. */
  lemma RteOkIntExamples()
    ensures RteOkInt(1) == Ok(1)
    ensures RteOkInt(-1) == Err(Error(1))
  {
  }

  /** `rte_ok` on a `*mut T`: a non-null pointer is wrapped as it is, a null one
      becomes the thread's `rte_errno`. */
  function RteOkPtr(p: Ptr, errno: I32): (r: Result<NonNull, Error>)
    ensures r.Ok? <==> p != NULL
    ensures r.Ok? ==> r.value == p
    ensures r.Err? ==> r.error == RteErrorOf(errno)
  {
    if p != NULL then Ok(p) else Err(RteErrorOf(errno))
  }

  const DEBUG_OPEN: string := "RteError { code: "
  const DEBUG_MID: string := ", description: "
  const DEBUG_CLOSE: string := " }"
  /** The message `Result::unwrap` puts before the error. */
  const UNWRAP_ERR: string := "called `Result::unwrap()` on an `Err` value"

  /** `{:?}` (and `{}`) of an `Error`: a `debug_struct` with the code and the
      `{:?}` of `rte_strerror(code)`. `rte_strerror` is native; `strerror`
      stands for its text after `to_string_lossy`. */
  function ErrorDebug(e: Error, strerror: I32 -> string): (s: string)
    ensures exists code :: (SignedValue(code) == Some(e.code as int)
                            && s == DEBUG_OPEN + code + DEBUG_MID + StrDebug(strerror(e.code)) + DEBUG_CLOSE)
  {
    var code := SignedDecimal(e.code);
    assert SignedValue(code) == Some(e.code as int);
    DEBUG_OPEN + code + DEBUG_MID + StrDebug(strerror(e.code)) + DEBUG_CLOSE
  }

  /** The panic of `Result::expect(msg)` on `Err(e)`: the message, `: `, and
      `{:?}` of the error. */
  function ExpectPanic(msg: string, e: Error, strerror: I32 -> string): (m: string)
    ensures StripPrefix(m, msg + ": ") == Some(ErrorDebug(e, strerror))
  {
    StripRoundTrip(msg + ": ", ErrorDebug(e, strerror));
    msg + ": " + ErrorDebug(e, strerror)
  }

  /** The panic of `Result::unwrap` on `Err(e)`, which is `expect` with the
      standard message. */
  function UnwrapPanic(e: Error, strerror: I32 -> string): (m: string)
    ensures StripPrefix(m, UNWRAP_ERR + ": ") == Some(ErrorDebug(e, strerror))
  {
    ExpectPanic(UNWRAP_ERR, e, strerror)
  }
}
