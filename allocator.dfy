/** The `Allocator` capability behind `MBuf<A>`: `alloc`, `clone` and `free`.
    Two implementations exist: `&MemoryPool`, whose three operations are
    single calls into DPDK's mempool library (modelled by what those calls
    promise), and the heap-based `GlobalAllocator<BUF_SIZE>`, modelled in full.
    A ghost set of live handles records which mbufs an allocator has handed
    out and not yet taken back. */
module Allocators {
  import opened Base
  import opened RteError
  import opened MBufs

  /** `RTE_MBUF_DEFAULT_BUF_SIZE`, the default `BUF_SIZE` of `GlobalAllocator`. */
  const DEFAULT_BUF_SIZE: nat := 2176
  /** `RTE_PKTMBUF_HEADROOM`: where DPDK's mempool allocation starts the data. */
  const PKTMBUF_HEADROOM: U16 := 128

  datatype AllocatorKind =
    | MemoryPool(pool: NonNull, dataRoom: U16)
    | Global(bufSize: nat)

  /** The `data_off` DPDK gives a freshly reset pool mbuf. */
  function PoolHeadroom(dataRoom: U16): (h: U16)
    ensures h <= dataRoom && h <= PKTMBUF_HEADROOM
    ensures dataRoom >= PKTMBUF_HEADROOM ==> h == PKTMBUF_HEADROOM
  {
    if dataRoom < PKTMBUF_HEADROOM then dataRoom else PKTMBUF_HEADROOM
  }

  /** `ptr::copy_nonoverlapping`: `n` bytes at offset `at` of `src` into the
      same offset of `dst`; the rest of `dst` is untouched. */
  method CopyNonoverlapping(src: array<U8>, dst: array<U8>, at: nat, n: nat)
    requires src != dst && at + n <= src.Length && at + n <= dst.Length
    modifies dst
    ensures dst[at..at + n] == src[at..at + n]
    ensures forall j :: 0 <= j < dst.Length && !(at <= j < at + n) ==> dst[j] == old(dst[j])
  {
    var i := 0;
    while i < n
      invariant 0 <= i <= n
      invariant forall j :: at <= j < at + i ==> dst[j] == src[j]
      invariant forall j :: 0 <= j < dst.Length && !(at <= j < at + i) ==> dst[j] == old(dst[j])
    {
      dst[at + i] := src[at + i];
      i := i + 1;
    }
  }

  class Allocator {
    const kind: AllocatorKind
    ghost var live: set<MBuf>

    constructor (kind: AllocatorKind)
      ensures this.kind == kind && live == {}
      ensures Valid()
    {
      this.kind := kind;
      live := {};
    }

    /** The fixed geometry of every mbuf this allocator hands out. */
    predicate Owns(m: MBuf)
    {
      match kind
      case MemoryPool(pool, dataRoom) =>
        m.pool == pool && m.bufLen == dataRoom && m.bufLen <= m.buf.Length
        && m.dataOff == PoolHeadroom(dataRoom)
      case Global(bufSize) =>
        m.pool == NULL && m.dataOff == 0 && m.buf.Length == bufSize && m.bufLen == AsU16(bufSize)
    }

    /** Every live handle has this allocator's geometry, and no two live
        handles share a backing buffer. */
    ghost predicate Valid()
      reads this
    {
      (forall m :: m in live ==> Owns(m))
      && (forall m, n :: m in live && n in live && m != n ==> m.buf != n.buf)
    }

    /** The room a freshly allocated mbuf offers. */
    function FreshCapacity(): (c: nat)
      ensures kind.Global? ==> c == AsU16(kind.bufSize)
      ensures kind.MemoryPool? ==> c + PoolHeadroom(kind.dataRoom) == kind.dataRoom
    {
      match kind
      case MemoryPool(_, dataRoom) => dataRoom - PoolHeadroom(dataRoom)
      case Global(bufSize) => AsU16(bufSize)
    }

    /** `alloc`. `GlobalAllocator` cannot fail: it takes a `BUF_SIZE` buffer
        from the heap and a zeroed `rte_mbuf`, sets `buf_addr` and
        `buf_len = BUF_SIZE as u16`, masks `ol_flags` with
        `EXT_ATTACHED_MBUF` (zero, since the struct is zeroed) and marks the
        port invalid. The pool version is `_rte_pktmbuf_alloc(pool).rte_ok()`:
        `nativeOk` says whether DPDK returned a non-null mbuf, and `errno` is
        `rte_errno` when it did not. */
    method Alloc(nativeOk: bool, errno: I32) returns (r: Result<MBuf, Error>)
      requires Valid()
      modifies this
      ensures Valid()
      ensures r.Err? <==> kind.MemoryPool? && !nativeOk
      ensures r.Err? ==> r.error == RteErrorOf(errno) && live == old(live)
      ensures r.Ok? ==> var m := r.value;
        fresh(m) && fresh(m.buf) && live == old(live) + {m} && Owns(m) && m.Valid()
        && m.dataLen == 0 && m.pktLen == 0 && m.olFlags == 0 && m.l2Len == 0 && m.l3Len == 0
        && m.port == PORT_INVALID && m.Capacity() == FreshCapacity()
      ensures r.Ok? && kind.Global? ==> r.value.dataOff == 0
      ensures r.Ok? && kind.MemoryPool? ==> r.value.dataOff == PoolHeadroom(kind.dataRoom)
    {
      match kind
      case Global(bufSize) =>
        var data := new U8[bufSize];
        var m := new MBuf(data, AsU16(bufSize), 0, NULL, PORT_INVALID);
        live := live + {m};
        return Ok(m);
      case MemoryPool(pool, dataRoom) =>
        if !nativeOk {
          return Err(RteErrorOf(errno));
        }
        var data := new U8[dataRoom];
        var m := new MBuf(data, dataRoom, PoolHeadroom(dataRoom), pool, PORT_INVALID);
        live := live + {m};
        return Ok(m);
    }

    /** `clone`, for a handle this allocator handed out. `GlobalAllocator`
        allocates a new mbuf (the `?` on that `alloc` never fires), copies
        `data_len` bytes from the start of the source buffer and copies
        `data_len`/`pkt_len`; the offload metadata keeps its zeroed values.
        The pool version is `rte_pktmbuf_copy(m, m.pool, 0, data_len)`: a deep
        copy of the data into a new mbuf from the source's own pool, which
        fails when the pool is exhausted (`nativeOk` false). */
    method Clone(m: MBuf, nativeOk: bool, errno: I32) returns (r: Result<MBuf, Error>)
      requires Valid() && m in live && m.Valid()
      modifies this
      ensures Valid()
      ensures r.Err? <==> kind.MemoryPool? && !nativeOk
      ensures r.Err? ==> r.error == RteErrorOf(errno) && live == old(live)
      ensures r.Ok? ==> var c := r.value;
        fresh(c) && fresh(c.buf) && c != m && c.buf != m.buf
        && live == old(live) + {c} && Owns(c) && c.Valid()
        && c.AsSlice() == m.AsSlice() && c.dataLen == m.dataLen && c.pktLen == m.pktLen
        && c.pool == m.pool
      ensures r.Ok? && kind.Global? ==> var c := r.value;
        c.buf[..m.dataLen] == m.buf[..m.dataLen]
        && c.olFlags == 0 && c.l2Len == 0 && c.l3Len == 0 && c.port == PORT_INVALID
    {
      if kind.Global? {
        var c := CloneHeap(m);
        return Ok(c);
      }
      if !nativeOk {
        return Err(RteErrorOf(errno));
      }
      var c := CopyFromPool(m);
      return Ok(c);
    }

    /** `GlobalAllocator::clone`. */
    method CloneHeap(m: MBuf) returns (c: MBuf)
      requires Valid() && kind.Global? && m in live && m.Valid()
      modifies this
      ensures Valid()
      ensures fresh(c) && fresh(c.buf) && live == old(live) + {c} && Owns(c) && c.Valid()
      ensures c.buf[..m.dataLen] == m.buf[..m.dataLen] && c.AsSlice() == m.AsSlice()
      ensures c.dataLen == m.dataLen && c.pktLen == m.pktLen && c.pool == m.pool
      ensures c.olFlags == 0 && c.l2Len == 0 && c.l3Len == 0 && c.port == PORT_INVALID
    {
      var res := Alloc(true, 0);
      c := res.value;
      var n: nat := m.dataLen;
      CopyNonoverlapping(m.buf, c.buf, 0, n);
      c.SetLen(n);
      c.pktLen := m.pktLen;
    }

    /** `rte_pktmbuf_copy(m, m.pool, 0, data_len)` when the pool has room. */
    method CopyFromPool(m: MBuf) returns (c: MBuf)
      requires Valid() && kind.MemoryPool? && m in live && m.Valid()
      modifies this
      ensures Valid()
      ensures fresh(c) && fresh(c.buf) && live == old(live) + {c} && Owns(c) && c.Valid()
      ensures c.AsSlice() == m.AsSlice()
      ensures c.dataLen == m.dataLen && c.pktLen == m.pktLen && c.pool == m.pool
    {
      var data := new U8[kind.dataRoom];
      c := new MBuf(data, kind.dataRoom, PoolHeadroom(kind.dataRoom), kind.pool, m.port);
      CopyNonoverlapping(m.buf, c.buf, m.dataOff, m.dataLen);
      c.SetLen(m.dataLen);
      c.pktLen := m.pktLen;
      live := live + {c};
    }

    /** `free` (`dealloc` of buffer and struct, or `_rte_pktmbuf_free`): the
        handle must be live, and is not live afterwards, so it cannot be freed
        a second time. */
    method Free(m: MBuf)
      requires Valid() && m in live
      modifies this
      ensures Valid()
      ensures live == old(live) - {m} && m !in live
    {
      live := live - {m};
    }
  }
}
