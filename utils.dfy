/** `rte::utils`: building a C string from Rust text, and the `raw!` wrappers
    around a non-null pointer to a DPDK object (`from_raw`, `as_raw` and
    `From<*mut T>`). Text is modelled by its UTF-8 bytes. */
module Utils {
  import opened Base
  import opened CStrings

  /** The panic of `.unwrap()` on `from_raw`'s `None`. */
  const NULL_POINTER: string := "called `Option::unwrap()` on a `None` value"

  /** `AsCString::as_c_str`: the bytes are copied into a vector and a 0 is
      pushed; `from_vec_unchecked` takes them as they are, so a 0 inside the
      text is kept and no error is raised. */
  method AsCStr(s: seq<U8>) returns (c: seq<U8>)
    ensures c == s + [0]
  {
    var v := s;
    v := v + [0];
    c := v;
  }

  /** A `raw!` wrapper: `#[repr(transparent)]` around `NonNull<T>`. */
  datatype Raw = Raw(ptr: NonNull)

  /** `AsRaw::as_raw`. */
  function AsRaw(w: Raw): (p: Ptr)
    ensures p != NULL
  {
    w.ptr
  }

  /** `FromRaw::from_raw` (`NonNull::new(raw).map(..)`): nothing for the null
      pointer, a wrapper of the pointer otherwise. */
  function FromRaw(p: Ptr): (r: Option<Raw>)
    ensures r.None? <==> p == NULL
    ensures r.Some? ==> AsRaw(r.value) == p
  {
    if p == NULL then None else Some(Raw(p))
  }

  /** `from_raw` and `as_raw` are inverse on non-null pointers. */
  lemma RawRoundTrip(w: Raw, p: Ptr)
    ensures FromRaw(AsRaw(w)) == Some(w)
    ensures p != NULL ==> AsRaw(FromRaw(p).value) == p
  {
  }

  /** `From<*mut T>`: `from_raw(p).unwrap()`, which panics on null. */
  function FromPtr(p: Ptr): (r: Outcome<Raw>)
    ensures r.Panicked? <==> p == NULL
    ensures r.Panicked? ==> r.message == NULL_POINTER
    ensures r.Returned? ==> FromRaw(p) == Some(r.value)
  {
    match FromRaw(p)
    case None => Panicked(NULL_POINTER)
    case Some(w) => Returned(w)
  }
}
