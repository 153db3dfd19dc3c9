/** Creating, cloning and dropping `MBuf`s through an allocator
    (`mbuf/mod.rs`), the test helper `alloc_mbufs`, and the older revision's
    `Clone` and `test_utils::pool_create_from_bufs` (`mbuf.rs`), whose pool
    calls are the `&MemoryPool` allocator's. */
module MBufLifecycle {
  import opened Base
  import opened RteError
  import opened MBufs
  import opened Allocators
  import opened ArrayVecs

  const ALLOC_FAILED: string := "Could not allocate mbuf"
  const CLONE_FAILED: string := "Failed to allocate mbuf clone"
  const POOL_INIT_FAILED: string := "fail to initialize mbuf pool"
  /** The panic `ArrayVec`'s `FromIterator` raises past `CAP` elements. */
  const CAPACITY_EXCEEDED: string := "ArrayVec: capacity exceeded in extend/from_iter"

  /** `m` is a well-formed mbuf whose data is exactly `data`. */
  ghost predicate Holds(m: MBuf, data: seq<U8>)
    reads m, m.buf
  {
    m.Valid() && m.AsSlice() == data
  }

  /** `new_with_provider`: `provider.alloc().expect(..)`. `strerror` stands
      for DPDK's `rte_strerror`, which the panic message quotes. */
  method NewWithProvider(a: Allocator, nativeOk: bool, errno: I32, strerror: I32 -> string)
    returns (r: Outcome<MBuf>)
    requires a.Valid()
    modifies a
    ensures a.Valid()
    ensures r.Panicked? <==> a.kind.MemoryPool? && !nativeOk
    ensures r.Panicked? ==>
      r.message == ExpectPanic(ALLOC_FAILED, RteErrorOf(errno), strerror) && a.live == old(a.live)
    ensures r.Returned? ==> var m := r.value;
      fresh(m) && fresh(m.buf) && a.live == old(a.live) + {m} && a.Owns(m) && m.Valid()
      && m.AsSlice() == [] && m.Capacity() == a.FreshCapacity()
  {
    var res := a.Alloc(nativeOk, errno);
    if res.Err? {
      return Panicked(ExpectPanic(ALLOC_FAILED, res.error, strerror));
    }
    return Returned(res.value);
  }

  /** `new_with_provider_and_data`: a new mbuf holding exactly `data`. The
      allocation panics first; then `extend_from_slice` panics when `data` is
      longer than a fresh mbuf's room, and unwinding drops (frees) the new
      mbuf. */
  method NewWithProviderAndData(a: Allocator, data: seq<U8>, nativeOk: bool, errno: I32,
                                strerror: I32 -> string)
    returns (r: Outcome<MBuf>)
    requires a.Valid()
    modifies a
    ensures a.Valid()
    ensures r.Panicked? <==> (a.kind.MemoryPool? && !nativeOk) || |data| > a.FreshCapacity()
    ensures r.Panicked? ==> a.live == old(a.live)
    ensures a.kind.MemoryPool? && !nativeOk ==>
      r == Panicked(ExpectPanic(ALLOC_FAILED, RteErrorOf(errno), strerror))
    ensures !(a.kind.MemoryPool? && !nativeOk) && |data| > a.FreshCapacity() ==>
      r == Panicked(SliceEndPanic(|data|, a.FreshCapacity()))
    ensures r.Returned? ==> var m := r.value;
      fresh(m) && fresh(m.buf) && a.live == old(a.live) + {m} && a.Owns(m) && m.Valid()
      && m.AsSlice() == data && m.pktLen == |data|
  {
    r := NewWithProvider(a, nativeOk, errno, strerror);
    if r.Returned? {
      var m := r.value;
      var ext := m.ExtendFromSlice(data);
      if ext.Panicked? {
        Drop(a, m);
        return Panicked(ext.message);
      }
    }
  }

  /** `Clone for MBuf<A>` (and the older `Clone for MBuf`, which is the pool
      clone): `A::clone(ptr).expect(..)`. */
  method CloneMBuf(a: Allocator, m: MBuf, nativeOk: bool, errno: I32, strerror: I32 -> string)
    returns (r: Outcome<MBuf>)
    requires a.Valid() && m in a.live && m.Valid()
    modifies a
    ensures a.Valid()
    ensures r.Panicked? <==> a.kind.MemoryPool? && !nativeOk
    ensures r.Panicked? ==>
      r.message == ExpectPanic(CLONE_FAILED, RteErrorOf(errno), strerror) && a.live == old(a.live)
    ensures r.Returned? ==> var c := r.value;
      fresh(c) && fresh(c.buf) && c != m && a.live == old(a.live) + {c} && c.Valid()
      && c.AsSlice() == m.AsSlice() && c.pool == m.pool
  {
    var res := a.Clone(m, nativeOk, errno);
    if res.Err? {
      return Panicked(ExpectPanic(CLONE_FAILED, res.error, strerror));
    }
    return Returned(res.value);
  }

  /** `Drop`: the handle goes back through `A::free`, once; it is no longer live. */
  method Drop(a: Allocator, m: MBuf)
    requires a.Valid() && m in a.live
    modifies a
    ensures a.Valid()
    ensures a.live == old(a.live) - {m}
  {
    a.Free(m);
  }

  /** The index of the first buffer longer than `limit`, or `|bufs|` when they
      all fit. */
  function FirstOverlong(bufs: seq<seq<U8>>, limit: nat): (k: nat)
    ensures k <= |bufs|
    ensures forall j :: 0 <= j < k ==> |bufs[j]| <= limit
    ensures k < |bufs| ==> |bufs[k]| > limit
  {
    if bufs == [] then 0
    else if |bufs[0]| > limit then 0
    else 1 + FirstOverlong(bufs[1..], limit)
  }

  /** The `strerror` given for `GlobalAllocator`, whose allocations never fail. */
  function NoStrerror(code: I32): string
  {
    ""
  }

  /** The `map(MBuf::new_with_data)` of `alloc_mbufs`, as `ArrayVec`'s
      `extend` drives it: each element is built first, and only then does
      extending a full vector of capacity `cap` panic. */
  method CollectHeapMbufs(a: Allocator, bufs: seq<seq<U8>>, cap: nat) returns (r: Outcome<seq<MBuf>>)
    requires a.Valid() && a.kind.Global?
    modifies a
    ensures a.Valid()
    ensures r.Panicked? <==> |bufs| > cap || FirstOverlong(bufs, a.FreshCapacity()) < |bufs|
    ensures var k := FirstOverlong(bufs, a.FreshCapacity());
      k < |bufs| && k <= cap ==> r == Panicked(SliceEndPanic(|bufs[k]|, a.FreshCapacity()))
    ensures var k := FirstOverlong(bufs, a.FreshCapacity());
      cap < k && cap < |bufs| ==> r == Panicked(CAPACITY_EXCEEDED)
    ensures r.Returned? ==> var ms := r.value;
      |ms| == |bufs|
      && (forall i :: 0 <= i < |bufs| ==> fresh(ms[i]) && ms[i] in a.live && Holds(ms[i], bufs[i]))
      && (forall i, j :: 0 <= i < j < |bufs| ==> ms[i] != ms[j])
  {
    ghost var first := FirstOverlong(bufs, a.FreshCapacity());
    var ms: seq<MBuf> := [];
    var i := 0;
    while i < |bufs|
      invariant 0 <= i <= |bufs| && |ms| == i && i <= cap
      invariant i <= first
      invariant a.Valid()
      invariant forall j :: 0 <= j < i ==>
        fresh(ms[j]) && ms[j] in a.live && Holds(ms[j], bufs[j])
      invariant forall j, k :: 0 <= j < k < i ==> ms[j] != ms[k]
    {
      var res := NewWithProviderAndData(a, bufs[i], true, 0, NoStrerror);
      if res.Panicked? {
        assert first == i;
        return Panicked(res.message);
      }
      if i == cap {
        return Panicked(CAPACITY_EXCEEDED);
      }
      ms := ms + [res.value];
      i := i + 1;
    }
    return Returned(ms);
  }

  /** `alloc_mbufs`: one heap mbuf per input, in order, collected into an
      `ArrayVec` of capacity `cap`. The first input longer than a heap mbuf's
      room panics when it is reached within the first `cap + 1`; otherwise
      more than `cap` inputs panic with the capacity message. */
  method AllocMbufs(a: Allocator, bufs: seq<seq<U8>>, cap: nat) returns (r: Outcome<ArrayVec<MBuf>>)
    requires a.Valid() && a.kind.Global?
    modifies a
    ensures a.Valid()
    ensures r.Panicked? <==> |bufs| > cap || FirstOverlong(bufs, a.FreshCapacity()) < |bufs|
    ensures var k := FirstOverlong(bufs, a.FreshCapacity());
      k < |bufs| && k <= cap ==> r == Panicked(SliceEndPanic(|bufs[k]|, a.FreshCapacity()))
    ensures var k := FirstOverlong(bufs, a.FreshCapacity());
      cap < k && cap < |bufs| ==> r == Panicked(CAPACITY_EXCEEDED)
    ensures r.Returned? ==> var v := r.value;
      fresh(v) && v.cap == cap && v.Valid() && |v.items| == |bufs|
      && (forall i :: 0 <= i < |bufs| ==>
            fresh(v.items[i]) && v.items[i] in a.live && Holds(v.items[i], bufs[i]))
      && (forall i, j :: 0 <= i < j < |bufs| ==> v.items[i] != v.items[j])
  {
    var res := CollectHeapMbufs(a, bufs, cap);
    if res.Panicked? {
      return Panicked(res.message);
    }
    var v := new ArrayVec<MBuf>(cap);
    v.items := res.value;
    return Returned(v);
  }

  /** `MemoryPool::new(.., RTE_MBUF_DEFAULT_BUF_SIZE as u16, ..)` in
      `pool_create_from_bufs`. */
  const TEST_POOL_DATA_ROOM: U16 := 2176

  datatype GeneratedMbufs = GeneratedMbufs(mbufs: seq<MBuf>, pool: Allocator)

  /** One pool allocation, `alloc().unwrap()`, followed by
      `extend_from_slice(data)`; unwinding from a panic of the copy drops
      (frees) the new mbuf. */
  method AllocWithData(a: Allocator, data: seq<U8>, nativeOk: bool, errno: I32, strerror: I32 -> string)
    returns (r: Outcome<MBuf>)
    requires a.Valid() && a.kind.MemoryPool?
    modifies a
    ensures a.Valid()
    ensures r.Panicked? <==> !nativeOk || |data| > a.FreshCapacity()
    ensures r.Panicked? ==> a.live == old(a.live)
    ensures !nativeOk ==> r == Panicked(UnwrapPanic(RteErrorOf(errno), strerror))
    ensures nativeOk && |data| > a.FreshCapacity() ==>
      r == Panicked(SliceEndPanic(|data|, a.FreshCapacity()))
    ensures r.Returned? ==> fresh(r.value) && a.live == old(a.live) + {r.value} && Holds(r.value, data)
  {
    var res := a.Alloc(nativeOk, errno);
    if res.Err? {
      return Panicked(UnwrapPanic(res.error, strerror));
    }
    var m := res.value;
    var ext := m.ExtendFromSlice(data);
    if ext.Panicked? {
      Drop(a, m);
      return Panicked(ext.message);
    }
    return Returned(m);
  }

  /** The index of the first input whose allocation fails or whose data is
      longer than `limit`, or `|bufs|` when there is none. */
  function FirstPoolFailure(bufs: seq<seq<U8>>, allocOk: seq<bool>, limit: nat): (k: nat)
    requires |allocOk| == |bufs|
    ensures k <= |bufs|
    ensures forall j :: 0 <= j < k ==> allocOk[j] && |bufs[j]| <= limit
    ensures k < |bufs| ==> !allocOk[k] || |bufs[k]| > limit
  {
    if bufs == [] then 0
    else if !allocOk[0] || |bufs[0]| > limit then 0
    else 1 + FirstPoolFailure(bufs[1..], allocOk[1..], limit)
  }

  /** The `map(..).collect()` of `pool_create_from_bufs`: `AllocWithData` for
      each input in order, stopping at the first panic. */
  method AllocAllWithData(a: Allocator, bufs: seq<seq<U8>>, allocOk: seq<bool>, errno: I32,
                          strerror: I32 -> string)
    returns (r: Outcome<seq<MBuf>>)
    requires |allocOk| == |bufs| && a.Valid() && a.kind.MemoryPool?
    modifies a
    ensures a.Valid()
    ensures r.Panicked? <==> FirstPoolFailure(bufs, allocOk, a.FreshCapacity()) < |bufs|
    ensures var k := FirstPoolFailure(bufs, allocOk, a.FreshCapacity());
      k < |bufs| ==>
        r == Panicked(if !allocOk[k] then UnwrapPanic(RteErrorOf(errno), strerror)
                      else SliceEndPanic(|bufs[k]|, a.FreshCapacity()))
    ensures r.Returned? ==> var ms := r.value;
      |ms| == |bufs|
      && (forall i :: 0 <= i < |bufs| ==> ms[i] in a.live && Holds(ms[i], bufs[i]))
      && (forall i, j :: 0 <= i < j < |bufs| ==> ms[i] != ms[j])
  {
    ghost var first := FirstPoolFailure(bufs, allocOk, a.FreshCapacity());
    var ms: seq<MBuf> := [];
    var i := 0;
    while i < |bufs|
      invariant 0 <= i <= |bufs| && |ms| == i
      invariant a.Valid()
      invariant i <= first
      invariant forall j :: 0 <= j < i ==> ms[j] in a.live && Holds(ms[j], bufs[j])
      invariant forall j, k :: 0 <= j < k < i ==> ms[j] != ms[k]
    {
      var res := AllocWithData(a, bufs[i], allocOk[i], errno, strerror);
      if res.Panicked? {
        assert first == i;
        return Panicked(res.message);
      }
      ms := ms + [res.value];
      i := i + 1;
    }
    return Returned(ms);
  }

  /** `pool_create_from_bufs`: creates a pool (`poolPtr` is what DPDK returned
      for it; null makes the `expect` panic), then allocates one mbuf per input
      with `alloc().unwrap()` (`allocOk[i]` says whether the i-th allocation
      succeeded) and extends it with that input. The first input whose
      allocation fails or whose data does not fit a pool mbuf decides the
      panic. */
  method PoolCreateFromBufs(bufs: seq<seq<U8>>, poolPtr: Ptr, allocOk: seq<bool>, errno: I32,
                            strerror: I32 -> string)
    returns (r: Outcome<GeneratedMbufs>)
    requires |allocOk| == |bufs|
    ensures var room := TEST_POOL_DATA_ROOM - PKTMBUF_HEADROOM;
      r.Panicked? <==> poolPtr == NULL || FirstPoolFailure(bufs, allocOk, room) < |bufs|
    ensures poolPtr == NULL ==> r == Panicked(ExpectPanic(POOL_INIT_FAILED, RteErrorOf(errno), strerror))
    ensures var room := TEST_POOL_DATA_ROOM - PKTMBUF_HEADROOM;
      var k := FirstPoolFailure(bufs, allocOk, room);
      poolPtr != NULL && k < |bufs| ==>
        r == Panicked(if !allocOk[k] then UnwrapPanic(RteErrorOf(errno), strerror)
                      else SliceEndPanic(|bufs[k]|, room))
    ensures r.Returned? ==> var g := r.value;
      fresh(g.pool) && g.pool.kind == MemoryPool(poolPtr, TEST_POOL_DATA_ROOM) && g.pool.Valid()
      && |g.mbufs| == |bufs|
      && (forall i :: 0 <= i < |bufs| ==>
            g.mbufs[i] in g.pool.live && Holds(g.mbufs[i], bufs[i]))
      && (forall i, j :: 0 <= i < j < |bufs| ==> g.mbufs[i] != g.mbufs[j])
  {
    if poolPtr == NULL {
      return Panicked(ExpectPanic(POOL_INIT_FAILED, RteErrorOf(errno), strerror));
    }
    var a := new Allocator(MemoryPool(poolPtr, TEST_POOL_DATA_ROOM));
    assert a.FreshCapacity() == TEST_POOL_DATA_ROOM - PKTMBUF_HEADROOM;
    var res := AllocAllWithData(a, bufs, allocOk, errno, strerror);
    if res.Panicked? {
      return Panicked(res.message);
    }
    return Returned(GeneratedMbufs(res.value, a));
  }
}
