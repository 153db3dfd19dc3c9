/** `SocketId`: a NUMA socket id. DPDK writes "any socket" as `-1`, which read
    as `u32` is `u32::MAX`; the wrapper keeps that value out of `SocketId` and
    uses `None` for it instead. */
module Memory {
  import opened Base

  /** `NonMaxU32`. */
  type NonMaxU32 = x: U32 | x != U32_MAX

  datatype SocketId = SocketId(id: NonMaxU32)

  /** `SocketId::new`. */
  function NewSocketId(id: U32): (r: Option<SocketId>)
    ensures r.None? <==> id == U32_MAX
    ensures r.Some? ==> GetSocketId(r.value) == id
  {
    if id == U32_MAX then None else Some(SocketId(id))
  }

  /** `SocketId::get`. */
  function GetSocketId(s: SocketId): (id: U32)
    ensures id != U32_MAX
  {
    s.id
  }

  /** `new` inverts `get`: every socket id is what `new` makes of its own value. */
  lemma NewGetRoundTrip(s: SocketId)
    ensures NewSocketId(GetSocketId(s)) == Some(s)
  {
  }

  /** The derived `PartialEq`: two socket ids are equal exactly when their values are. */
  lemma SocketIdEquality(s: SocketId, t: SocketId)
    ensures s == t <==> GetSocketId(s) == GetSocketId(t)
  {
  }
}
