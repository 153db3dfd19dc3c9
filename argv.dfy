/** The `argv` crate: command-line arguments copied into C strings, the
    null-terminated list of pointers to them, and `argc`. Text is modelled by
    its UTF-8 bytes. Where each C string's buffer lives is the allocator's
    choice and is a parameter. */
module Argv {
  import opened Base
  import opened Digits
  import opened CStrings

  const UNWRAP_ERR: string := "called `Result::unwrap()` on an `Err` value: "

  /** `NulError(position, bytes)`: the first 0 byte of a would-be C string. */
  datatype NulError = NulError(position: nat, bytes: seq<U8>)

  /** `CString::new`: the bytes, if they hold no 0 byte. */
  function CStringNew(bytes: seq<U8>): (r: Result<seq<U8>, NulError>)
    ensures r.Ok? <==> NulFree(bytes)
    ensures r.Ok? ==> r.value == bytes
    ensures r.Err? ==> (r.error.bytes == bytes && r.error.position < |bytes| && bytes[r.error.position] == 0
      && NulFree(bytes[..r.error.position]))
  {
    var k := FirstNul(bytes);
    if k < |bytes| then Err(NulError(k, bytes)) else Ok(bytes)
  }

  /** `map(CString::new).collect::<Result<Vec<_>, _>>()`: all the strings,
      or the error of the first one that holds a 0 byte. */
  function CollectCStrings(args: seq<seq<U8>>): (r: Result<seq<seq<U8>>, NulError>)
    ensures r.Ok? <==> forall i :: 0 <= i < |args| ==> NulFree(args[i])
    ensures r.Ok? ==> r.value == args
    ensures r.Err? ==> exists i :: (0 <= i < |args| && CStringNew(args[i]) == Err(r.error)
      && forall j :: 0 <= j < i ==> NulFree(args[j]))
    decreases |args|
  {
    if |args| == 0 then Ok([])
    else
      match CStringNew(args[0])
      case Err(e) => Err(e)
      case Ok(first) =>
        match CollectCStrings(args[1..])
        case Err(e) =>
          assert forall i :: 1 <= i < |args| ==> args[i] == args[1..][i - 1];
          Err(e)
        case Ok(rest) =>
          assert forall i :: 1 <= i < |args| ==> args[i] == args[1..][i - 1];
          Ok([first] + rest)
  }

  /** `{:?}` of a `Vec<u8>`: `[b0, b1, ..]` in decimal. */
  function DebugBytes(bytes: seq<U8>): (s: string)
    ensures |s| >= 2 && s[0] == '[' && s[|s| - 1] == ']'
  {
    "[" + DebugElements(bytes) + "]"
  }

  function DebugElements(bytes: seq<U8>): string
    decreases |bytes|
  {
    if |bytes| == 0 then ""
    else if |bytes| == 1 then DecimalString(bytes[0])
    else DecimalString(bytes[0]) + ", " + DebugElements(bytes[1..])
  }

  /** The message of `.unwrap()` on a `NulError`: its derived `Debug`. */
  function NulErrorMessage(e: NulError): string
  {
    UNWRAP_ERR + "NulError(" + DecimalString(e.position) + ", " + DebugBytes(e.bytes) + ")"
  }

  /** `Args`: the C strings, in order, and where each one's bytes (with
      their terminating 0) are. */
  datatype Args = Args(strings: seq<seq<U8>>, addrs: seq<NonNull>)

  predicate Distinct(addrs: seq<NonNull>)
  {
    forall i, j :: 0 <= i < j < |addrs| ==> addrs[i] != addrs[j]
  }

  /** `Args::new`: every argument becomes a C string, in order; an argument
      holding a 0 byte makes `unwrap` panic with the first such error. */
  function ArgsNew(input: seq<seq<U8>>, addrs: seq<NonNull>): (r: Outcome<Args>)
    requires |addrs| == |input| && Distinct(addrs)
    ensures r.Panicked? <==> exists i, j :: 0 <= i < |input| && 0 <= j < |input[i]| && input[i][j] == 0
    ensures r.Panicked? ==> r.message == NulErrorMessage(CollectCStrings(input).error)
    ensures r.Returned? ==> r.value.strings == input && r.value.addrs == addrs
  {
    match CollectCStrings(input)
    case Err(e) => Panicked(NulErrorMessage(e))
    case Ok(strings) => Returned(Args(strings, addrs))
  }

  /** The C strings of `args` as they sit in memory. */
  function Memory(args: Args): (mem: map<Ptr, seq<U8>>)
    requires |args.addrs| == |args.strings| && Distinct(args.addrs)
    ensures forall i :: 0 <= i < |args.addrs| ==> args.addrs[i] in mem && mem[args.addrs[i]] == args.strings[i] + [0]
    ensures NULL !in mem
  {
    map i | 0 <= i < |args.addrs| :: args.addrs[i] := args.strings[i] + [0]
  }

  /** `ArgPtrs`: the arguments and the pointer list handed to C. */
  datatype ArgPtrs = ArgPtrs(args: Args, ptrs: seq<Ptr>)

  /** `ArgPtrs::new`: collect `as_ptr()` of every argument, in order, then
      push one null pointer. */
  method NewArgPtrs(args: Args) returns (p: ArgPtrs)
    requires |args.addrs| == |args.strings|
    ensures p.args == args
    ensures |p.ptrs| == |args.strings| + 1
    ensures forall i :: 0 <= i < |args.strings| ==> p.ptrs[i] == args.addrs[i]
    ensures p.ptrs[|args.strings|] == NULL
  {
    var ptrs: seq<Ptr> := [];
    var i := 0;
    while i < |args.addrs|
      invariant 0 <= i <= |args.addrs|
      invariant ptrs == args.addrs[..i]
    {
      ptrs := ptrs + [args.addrs[i]];
      i := i + 1;
    }
    ptrs := ptrs + [NULL];
    p := ArgPtrs(args, ptrs);
  }

  /** `Argv::argc`: the number of arguments, `as i32`. */
  function Argc(p: ArgPtrs): (n: I32)
    ensures |p.args.strings| <= I32_MAX ==> n == |p.args.strings|
  {
    AsI32(|p.args.strings|)
  }

  /** What a C reader of `argv` collects from entry `k` on: read pointers
      until the null one, taking the C string at each; nothing if it runs off
      the list, meets an address that holds no C string, or a buffer with no
      terminating 0. */
  function ReadArgv(ptrs: seq<Ptr>, mem: map<Ptr, seq<U8>>, k: nat): (r: Option<seq<seq<U8>>>)
    ensures r.Some? ==> |r.value| < |ptrs| - k + 1
    decreases |ptrs| - k
  {
    if k >= |ptrs| then None
    else if ptrs[k] == NULL then Some([])
    else if ptrs[k] !in mem then None
    else
      match (ReadCStr(mem[ptrs[k]]), ReadArgv(ptrs, mem, k + 1))
      case (Some(s), Some(rest)) => Some([s] + rest)
      case _ => None
  }

  /** Walking a pointer list from any entry gives back the remaining
      strings, unchanged and in order, when each pointer before the null
      one leads to its string's terminated bytes. */
  lemma {:induction false} ReadArgvFrom(ptrs: seq<Ptr>, strings: seq<seq<U8>>, mem: map<Ptr, seq<U8>>, k: nat)
    requires |ptrs| == |strings| + 1 && ptrs[|strings|] == NULL && k <= |strings|
    requires forall i :: 0 <= i < |strings| ==>
      ptrs[i] != NULL && ptrs[i] in mem && mem[ptrs[i]] == strings[i] + [0] && NulFree(strings[i])
    ensures ReadArgv(ptrs, mem, k) == Some(strings[k..])
    decreases |strings| - k
  {
    if k < |strings| {
      assert ptrs[k] != NULL && ptrs[k] in mem && mem[ptrs[k]] == strings[k] + [0];
      ReadTerminated(strings[k]);
      ReadArgvFrom(ptrs, strings, mem, k + 1);
      assert strings[k..] == [strings[k]] + strings[k + 1..];
    }
  }

  /** The crate's test: `argc` is the number of arguments, and `argv`, read
      up to its null, gives back exactly the arguments passed to `Args::new`. */
  lemma ArgvRoundTrip(input: seq<seq<U8>>, addrs: seq<NonNull>, p: ArgPtrs)
    requires |addrs| == |input| && Distinct(addrs) && |input| <= I32_MAX
    requires ArgsNew(input, addrs).Returned? && p.args == ArgsNew(input, addrs).value
    requires |p.ptrs| == |input| + 1 && p.ptrs[|input|] == NULL
    requires forall i :: 0 <= i < |input| ==> p.ptrs[i] == addrs[i]
    ensures Argc(p) == |input|
    ensures ReadArgv(p.ptrs, Memory(p.args), 0) == Some(input)
  {
    assert forall i :: 0 <= i < |input| ==> NulFree(input[i]);
    ReadArgvFrom(p.ptrs, input, Memory(p.args), 0);
  }
}
