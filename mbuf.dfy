/** The `rte_mbuf` packet buffer as the Rust `MBuf` wrapper sees it: one data
    segment inside a fixed-size backing array, plus the offload metadata the
    wrapper can write. The same buffer and metadata methods exist in
    `mbuf/mod.rs` and in the older, non-generic `mbuf.rs`; both are modelled by
    the class below. */
module MBufs {
  import opened Base
  import opened Digits

  /** `RTE_MBUF_L2_LEN_BITS` and `RTE_MBUF_L3_LEN_BITS` from `rte_mbuf_core.h`. */
  const L2_LEN_BITS: nat := 7
  const L3_LEN_BITS: nat := 9
  /** `1 << RTE_MBUF_L2_LEN_BITS` and `1 << RTE_MBUF_L3_LEN_BITS`. */
  const L2_LEN_LIMIT: nat := 128
  const L3_LEN_LIMIT: nat := 512

  /** `RTE_MBUF_PORT_INVALID` as `u16`. */
  const PORT_INVALID: U16 := 0xFFFF

  /** The message of the failed `assert!` in `set_l2_len` / `set_l3_len`. */
  const L2_ASSERT: string := "assertion failed: len < 1 << RTE_MBUF_L2_LEN_BITS"
  const L3_ASSERT: string := "assertion failed: len < 1 << RTE_MBUF_L3_LEN_BITS"

  /** The panic of a slice `[..end]` taken of a slice of length `len < end`. */
  function SliceEndPanic(end: nat, len: nat): string
  {
    "range end index " + DecimalString(end) + " out of range for slice of length " + DecimalString(len)
  }

  /** `ol_flags |= flags`: the new flag word. */
  function EnableFlags(olFlags: bv64, flags: bv64): (r: bv64)
    ensures r & olFlags == olFlags
    ensures r & flags == flags
  {
    olFlags | flags
  }

  /** The new word sets no bit besides the old flags and `flags`: any word
      holding both holds it. */
  lemma EnableFlagsLeast(olFlags: bv64, flags: bv64, w: bv64)
    requires w & olFlags == olFlags && w & flags == flags
    ensures EnableFlags(olFlags, flags) & w == EnableFlags(olFlags, flags)
  {
  }

  /** Enabling the same flags twice is enabling them once. */
  lemma EnableFlagsIdempotent(olFlags: bv64, flags: bv64)
    ensures EnableFlags(EnableFlags(olFlags, flags), flags) == EnableFlags(olFlags, flags)
  {
  }

  /** Enabling flags never clears one: more flags before means more flags after. */
  lemma EnableFlagsMonotone(a: bv64, b: bv64, flags: bv64)
    requires a & b == a
    ensures EnableFlags(a, flags) & EnableFlags(b, flags) == EnableFlags(a, flags)
  {
  }

  /** The length `spare_capacity_mut` gives its slice, as the code computes it:
      `spare_cap.offset_from(spare_cap + buf_len) as usize`. The offset is
      `-buf_len`, so the `usize` is `2^64 - buf_len`, whatever `data_off` and
      `data_len` are. */
  function SpareLenAsWritten(bufLen: U16, dataOff: U16, dataLen: U16): (n: U64)
    ensures bufLen > 0 ==> n == U64_MAX + 1 - bufLen
  {
    var spareCap := dataOff + dataLen;
    var bufEnd := spareCap + bufLen;
    (spareCap - bufEnd) % (U64_MAX + 1)
  }

  /** With the length as written, `[..other.len()]` lets through a slice of one
      byte into an mbuf whose default-size buffer is already full, so the copy
      writes past the end of the buffer. */
  lemma SpareLenAsWrittenAdmitsOverflow()
    ensures var bufLen, dataOff, dataLen, extra := 2176, 0, 2176, 1;
      extra <= SpareLenAsWritten(bufLen, dataOff, dataLen) && dataLen + extra > bufLen - dataOff
  {
  }

  /** The length the spare-capacity slice evidently should have: from the end
      of the data to the end of the buffer. */
  function SpareLen(bufLen: U16, dataOff: U16, dataLen: U16): (n: nat)
    requires dataOff + dataLen <= bufLen
    ensures dataOff + dataLen + n == bufLen
  {
    bufLen - dataOff - dataLen
  }

  /** With that length, the slice bound in `extend_from_slice` is exactly the
      capacity condition. */
  lemma SpareLenGuard(bufLen: U16, dataOff: U16, dataLen: U16, extra: nat)
    requires dataOff + dataLen <= bufLen
    ensures extra <= SpareLen(bufLen, dataOff, dataLen) <==> dataLen + extra <= bufLen - dataOff
  {
  }

  /** An `rte_mbuf` reached through `MBuf`'s `NonNull` pointer. The backing
      array stands for `buf_addr`; `buf_len`, `data_off` and `pool` are never
      written by the wrapper after allocation, the rest is. */
  class MBuf {
    const buf: array<U8>
    const bufLen: U16
    const dataOff: U16
    /** The `pool` pointer (null for heap-allocated mbufs). */
    const pool: Ptr
    var dataLen: U16
    var pktLen: U32
    var olFlags: bv64
    var l2Len: nat
    var l3Len: nat
    var port: U16

    /** An mbuf as an allocator hands it out: no data, no metadata. */
    constructor (buf: array<U8>, bufLen: U16, dataOff: U16, pool: Ptr, port: U16)
      requires bufLen <= buf.Length && dataOff <= bufLen
      ensures this.buf == buf && this.bufLen == bufLen && this.dataOff == dataOff
      ensures this.pool == pool && this.port == port
      ensures dataLen == 0 && pktLen == 0 && olFlags == 0 && l2Len == 0 && l3Len == 0
      ensures Valid()
    {
      this.buf := buf;
      this.bufLen := bufLen;
      this.dataOff := dataOff;
      this.pool := pool;
      this.port := port;
      dataLen := 0;
      pktLen := 0;
      olFlags := 0;
      l2Len := 0;
      l3Len := 0;
    }

    /** The layout every well-formed mbuf has: the data lies inside the buffer,
        the one segment is the whole packet and the bitfields hold values of
        their width. */
    predicate Valid()
      reads this
    {
      bufLen <= buf.Length && dataOff + dataLen <= bufLen && pktLen == dataLen
      && l2Len < L2_LEN_LIMIT && l3Len < L3_LEN_LIMIT
    }

    /** `capacity`: room from the data offset to the end of the buffer. */
    function Capacity(): (c: nat)
      requires dataOff <= bufLen
      ensures dataOff + c == bufLen
    {
      bufLen - dataOff
    }

    /** `Deref`/`as_slice`: the `data_len` bytes at `buf_addr + data_off`. */
    function AsSlice(): (s: seq<U8>)
      reads this, buf
      requires Valid()
      ensures |s| == dataLen <= Capacity()
      ensures forall i :: 0 <= i < |s| ==> s[i] == buf[dataOff + i]
    {
      buf[dataOff..dataOff + dataLen]
    }

    /** `spare_capacity_mut`, with the length it evidently should have. */
    function SpareCapacity(): (s: seq<U8>)
      reads this, buf
      requires Valid()
      ensures |s| == SpareLen(bufLen, dataOff, dataLen)
      ensures dataLen + |s| == Capacity()
    {
      buf[dataOff + dataLen..bufLen]
    }

    /** `set_len`: both lengths become `len` (truncated to `u16` and `u32`,
        exact because `len` is within the capacity). */
    method SetLen(len: nat)
      requires Valid() && len <= Capacity()
      modifies this`dataLen, this`pktLen
      ensures Valid()
      ensures dataLen == len && pktLen == len
    {
      dataLen := AsU16(len);
      pktLen := AsU32(len);
    }

    /** `extend_from_slice`: `spare_capacity_mut()[..other.len()]` panics when
        `other` is longer than the spare room, and nothing is written; otherwise
        `other` is copied right after the data and the length grows by
        `|other|`. The buffer outside the copied range is untouched. */
    method ExtendFromSlice(other: seq<U8>) returns (r: Outcome<()>)
      requires Valid()
      modifies this`dataLen, this`pktLen, buf
      ensures Valid()
      ensures r.Panicked? <==> old(dataLen) + |other| > Capacity()
      ensures r.Panicked? ==>
        r.message == SliceEndPanic(|other|, SpareLen(bufLen, dataOff, old(dataLen)))
        && dataLen == old(dataLen) && pktLen == old(pktLen) && unchanged(buf)
      ensures r.Returned? ==> AsSlice() == old(AsSlice()) + other
      ensures r.Returned? ==> dataLen == old(dataLen) + |other| && pktLen == dataLen
      ensures forall i :: 0 <= i < buf.Length && !(dataOff + old(dataLen) <= i < dataOff + dataLen) ==>
        buf[i] == old(buf[i])
    {
      var spare := SpareLen(bufLen, dataOff, dataLen);
      if |other| > spare {
        return Panicked(SliceEndPanic(|other|, spare));
      }
      var start := dataOff + dataLen;
      var i := 0;
      while i < |other|
        modifies buf
        invariant 0 <= i <= |other|
        invariant forall j :: 0 <= j < i ==> buf[start + j] == other[j]
        invariant forall j :: 0 <= j < buf.Length && !(start <= j < start + i) ==> buf[j] == old(buf[j])
      {
        buf[start + i] := other[i];
        i := i + 1;
      }
      SetLen(dataLen + |other|);
      assert AsSlice() == old(AsSlice()) + other by {
        forall j | 0 <= j < dataLen
          ensures AsSlice()[j] == (old(AsSlice()) + other)[j]
        {
          if j >= old(dataLen) {
            assert buf[start + (j - old(dataLen))] == other[j - old(dataLen)];
          }
        }
      }
      return Returned(());
    }

    /** `set_l2_len`: panics unless `len < 2^L2_LEN_BITS`, otherwise writes the
        `l2_len` bitfield and nothing else. */
    method SetL2Len(len: U64) returns (r: Outcome<()>)
      requires Valid()
      modifies this`l2Len
      ensures Valid()
      ensures r.Panicked? <==> len >= L2_LEN_LIMIT
      ensures r.Panicked? ==> r.message == L2_ASSERT && l2Len == old(l2Len)
      ensures r.Returned? ==> l2Len == len
    {
      if len >= L2_LEN_LIMIT {
        return Panicked(L2_ASSERT);
      }
      l2Len := len;
      return Returned(());
    }

    /** `set_l3_len`: as `set_l2_len`, for the 9-bit `l3_len` bitfield. */
    method SetL3Len(len: U64) returns (r: Outcome<()>)
      requires Valid()
      modifies this`l3Len
      ensures Valid()
      ensures r.Panicked? <==> len >= L3_LEN_LIMIT
      ensures r.Panicked? ==> r.message == L3_ASSERT && l3Len == old(l3Len)
      ensures r.Returned? ==> l3Len == len
    {
      if len >= L3_LEN_LIMIT {
        return Panicked(L3_ASSERT);
      }
      l3Len := len;
      return Returned(());
    }

    /** `enable_ol_flags`: ORs `flags` into `ol_flags`. */
    method EnableOlFlags(flags: bv64)
      modifies this`olFlags
      ensures olFlags == EnableFlags(old(olFlags), flags)
    {
      olFlags := olFlags | flags;
    }
  }

  /** `MetadataPart`: a handle on an mbuf that may only run the metadata
      setters of `MetadataExt`, so the data buffer, `data_off` and `data_len`
      stay as they are. */
  class MetadataPart {
    const ptr: MBuf

    constructor (ptr: MBuf)
      ensures this.ptr == ptr
    {
      this.ptr := ptr;
    }

    /** `MetadataExt::set_l2_len`. */
    method SetL2Len(len: U64) returns (r: Outcome<()>)
      requires ptr.Valid()
      modifies ptr`l2Len
      ensures ptr.Valid()
      ensures r.Panicked? <==> len >= L2_LEN_LIMIT
      ensures r.Returned? ==> ptr.l2Len == len
      ensures r.Panicked? ==> ptr.l2Len == old(ptr.l2Len)
      ensures ptr.dataLen == old(ptr.dataLen) && ptr.AsSlice() == old(ptr.AsSlice())
    {
      r := ptr.SetL2Len(len);
    }

    /** `MetadataExt::set_l3_len`. */
    method SetL3Len(len: U64) returns (r: Outcome<()>)
      requires ptr.Valid()
      modifies ptr`l3Len
      ensures ptr.Valid()
      ensures r.Panicked? <==> len >= L3_LEN_LIMIT
      ensures r.Returned? ==> ptr.l3Len == len
      ensures r.Panicked? ==> ptr.l3Len == old(ptr.l3Len)
      ensures ptr.dataLen == old(ptr.dataLen) && ptr.AsSlice() == old(ptr.AsSlice())
    {
      r := ptr.SetL3Len(len);
    }

    /** `MetadataExt::enable_ol_flags`. */
    method EnableOlFlags(flags: bv64)
      requires ptr.Valid()
      modifies ptr`olFlags
      ensures ptr.Valid()
      ensures ptr.olFlags == EnableFlags(old(ptr.olFlags), flags)
      ensures ptr.dataLen == old(ptr.dataLen) && ptr.AsSlice() == old(ptr.AsSlice())
    {
      ptr.EnableOlFlags(flags);
    }
  }
}
