/** Extended device statistics (`ethdev/xstats.rs`): the two-call protocol
    that first asks DPDK how many xstats a port has, then fetches their names
    into a buffer of that size, and the fetch of their values zipped with
    those names into a map. The native calls are parameters: their return
    values and the buffer contents they leave behind. */
module XStats {
  import opened Base
  import opened RteError

  const NAMES_ASSERT: string := "assertion failed: names_written as u32 <= stats_count"
  const VALUES_ASSERT: string := "assertion failed: values_written as usize <= defs.len()"

  /** The names of all xstats of a port, in DPDK's order. The field is
      private, so `get_xstats_def` is the only way to obtain one. */
  datatype XStatsDefs = XStatsDefs(names: seq<string>)

  /** `get_xstats_count`: the first call's return value through `rte_ok`. */
  function GetXstatsCount(ret: I32): (r: Result<U32, Error>)
    ensures r.Ok? <==> ret >= 0
    ensures r.Ok? ==> r.value == ret
    ensures r.Err? ==> Err(r.error) == RteOkInt(ret)
  {
    match RteOkInt(ret)
    case Ok(n) => Ok(n as U32)
    case Err(e) => Err(e)
  }

  /** `get_xstats_def`. `countRet` is what the sizing call returned; the
      second call is given a buffer of that many entries, returns `namesRet`,
      and leaves the names in `buffer`. */
  function GetXstatsDef(countRet: I32, namesRet: I32, buffer: seq<string>): (r: Outcome<Result<XStatsDefs, Error>>)
    requires countRet >= 0 ==> |buffer| == countRet
    ensures countRet < 0 ==> r == Returned(Err(RteOkInt(countRet).error))
    ensures countRet >= 0 && namesRet < 0 ==> r == Returned(Err(RteOkInt(namesRet).error))
    ensures r.Panicked? <==> 0 <= countRet < namesRet
    ensures r.Panicked? ==> r.message == NAMES_ASSERT
    ensures r.Returned? && r.value.Ok? ==>
      0 <= namesRet <= countRet && r.value.value.names == buffer[..namesRet]
      && |r.value.value.names| <= U32_MAX
  {
    match GetXstatsCount(countRet)
    case Err(e) => Returned(Err(e))
    case Ok(statsCount) =>
      match RteOkInt(namesRet)
      case Err(e) => Returned(Err(e))
      case Ok(namesWritten) =>
        if !(namesWritten as U32 <= statsCount) then Panicked(NAMES_ASSERT)
        else Returned(Ok(XStatsDefs(buffer[..namesWritten])))
  }

  /** `zip` of two sequences collected into a `HashMap`: pairs are inserted
      in order, so for a repeated name the last value wins, and the shorter
      sequence decides how many pairs there are. */
  function ZipToMap<K(!new), V>(keys: seq<K>, values: seq<V>): (m: map<K, V>)
    ensures forall key :: key in m <==> exists i :: 0 <= i < |keys| && i < |values| && keys[i] == key
    decreases |keys|
  {
    var n := if |keys| < |values| then |keys| else |values|;
    if n == 0 then map[]
    else ZipToMap(keys[..n - 1], values[..n - 1])[keys[n - 1] := values[n - 1]]
  }

  /** The value a name maps to is the one paired with its last occurrence. */
  lemma {:induction false} ZipToMapLastWins<K(!new), V>(keys: seq<K>, values: seq<V>, i: nat)
    requires i < |keys| && i < |values|
    requires forall l :: i < l < |keys| && l < |values| ==> keys[l] != keys[i]
    ensures keys[i] in ZipToMap(keys, values) && ZipToMap(keys, values)[keys[i]] == values[i]
    decreases |keys|
  {
    var n := if |keys| < |values| then |keys| else |values|;
    if i < n - 1 {
      var ks, vs := keys[..n - 1], values[..n - 1];
      assert keys[n - 1] != keys[i];
      assert forall l :: i < l < |ks| && l < |vs| ==> ks[l] != ks[i] by {
        forall l | i < l < |ks| && l < |vs|
          ensures ks[l] != ks[i]
        {
          assert ks[l] == keys[l];
        }
      }
      ZipToMapLastWins(ks, vs, i);
    }
  }

  /** With distinct names every name maps to its own value. */
  lemma ZipToMapDistinct<K(!new), V>(keys: seq<K>, values: seq<V>)
    requires forall a, b :: 0 <= a < b < |keys| ==> keys[a] != keys[b]
    ensures forall i :: 0 <= i < |keys| && i < |values| ==>
      keys[i] in ZipToMap(keys, values) && ZipToMap(keys, values)[keys[i]] == values[i]
  {
    forall i | 0 <= i < |keys| && i < |values|
      ensures keys[i] in ZipToMap(keys, values) && ZipToMap(keys, values)[keys[i]] == values[i]
    {
      ZipToMapLastWins(keys, values, i);
    }
  }

  /** `get_xstats`: asks for `defs.len()` values, returns `valuesRet`, and
      leaves the values in `buffer`; the first `values_written` of them are
      zipped with the names. */
  function GetXstats(defs: XStatsDefs, valuesRet: I32, buffer: seq<U64>): (r: Outcome<Result<map<string, U64>, Error>>)
    requires |defs.names| <= U32_MAX && |buffer| == |defs.names|
    ensures valuesRet < 0 ==> r == Returned(Err(RteOkInt(valuesRet).error))
    ensures r.Panicked? <==> valuesRet > |defs.names|
    ensures r.Panicked? ==> r.message == VALUES_ASSERT
    ensures r.Returned? && r.value.Ok? ==> 0 <= valuesRet <= |defs.names|
    ensures r.Returned? && r.value.Ok? ==> forall name ::
      name in r.value.value <==> exists i :: 0 <= i < valuesRet && defs.names[i] == name
    ensures r.Returned? && r.value.Ok? ==> r.value.value == ZipToMap(defs.names, buffer[..valuesRet])
  {
    match RteOkInt(valuesRet)
    case Err(e) => Returned(Err(e))
    case Ok(valuesWritten) =>
      if !(valuesWritten <= |defs.names|) then Panicked(VALUES_ASSERT)
      else Returned(Ok(ZipToMap(defs.names, buffer[..valuesWritten])))
  }

  /** Definitions from `get_xstats_def` are always accepted by `get_xstats`,
      and a successful fetch of all values maps every name, when the names
      are distinct, to its own value. */
  lemma DefsThenValues(countRet: I32, namesRet: I32, names: seq<string>, buffer: seq<U64>)
    requires countRet >= 0 && |names| == countRet
    requires GetXstatsDef(countRet, namesRet, names).Returned?
    requires GetXstatsDef(countRet, namesRet, names).value.Ok?
    ensures var defs := GetXstatsDef(countRet, namesRet, names).value.value;
      |buffer| == |defs.names| && (forall a, b :: 0 <= a < b < |defs.names| ==> defs.names[a] != defs.names[b]) ==>
      var r := GetXstats(defs, namesRet, buffer);
      r.Returned? && r.value.Ok?
      && forall i :: 0 <= i < |defs.names| ==> r.value.value[defs.names[i]] == buffer[i]
  {
    var defs := GetXstatsDef(countRet, namesRet, names).value.value;
    if |buffer| == |defs.names| && (forall a, b :: 0 <= a < b < |defs.names| ==> defs.names[a] != defs.names[b]) {
      assert buffer[..namesRet] == buffer;
      ZipToMapDistinct(defs.names, buffer);
    }
  }
}
