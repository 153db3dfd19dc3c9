/** Ethernet device operations with local logic: burst receive and transmit
    on an `ArrayVec` of mbufs, the port iterators, the socket-id and
    promiscuous-mode translations, `avail_devices` and the translation of
    `EthConf` into DPDK's `rte_eth_conf`. Every native call (`_rte_eth_rx_burst`,
    `rte_eth_find_next_owned_by`, ...) is a parameter standing for its result. */
module EthDev {
  import opened Base
  import opened RteError
  import opened Memory
  import opened ArrayVecs
  import opened Scan

  /** `RTE_MAX_ETHPORTS`. */
  const MAX_ETHPORTS: nat := 32
  /** `RTE_ETH_DEV_NO_OWNER`. */
  const NO_OWNER: U64 := 0

  /** `socket_id` (in `ethdev/mod.rs` and `ethdev.rs`): the `i32` DPDK returns
      is read as `u32`, so `-1` becomes `u32::MAX`, which `SocketId::new`
      refuses; the error then carries the original `-1`. */
  function SocketIdOf(ret: I32): (r: Result<SocketId, Error>)
    ensures r.Err? <==> ret == -1
    ensures r.Err? ==> r.error == Error(ret)
    ensures r.Ok? && ret >= 0 ==> GetSocketId(r.value) == ret
    ensures r.Ok? && ret < 0 ==> GetSocketId(r.value) == ret + U32_MAX + 1
  {
    match NewSocketId(AsU32(ret))
    case None => Err(Error(ret))
    case Some(s) => Ok(s)
  }

  /** `promiscuous_get` / `is_promiscuous_enabled`: `rte_ok`, then `is_positive`. */
  function PromiscuousGet(ret: I32): (r: Result<bool, Error>)
    ensures r.Ok? <==> ret >= 0
    ensures r.Ok? ==> (r.value <==> ret > 0)
    ensures r.Err? ==> Err(r.error) == RteOkInt(ret)
  {
    match RteOkInt(ret)
    case Ok(v) => Ok(v > 0)
    case Err(e) => Err(e)
  }

  /** `avail_devices`: the port ids `0..avail_count()`. */
  function AvailDevices(count: U16): (r: seq<U16>)
    ensures |r| == count
    ensures forall i :: 0 <= i < |r| ==> r[i] == i
  {
    seq(count, i requires 0 <= i < count => i as U16)
  }

  /** `rx_burst`: the native call may write at most the requested number of
      mbufs (`native(n)` is what it writes when asked for `n`); the request is
      the remaining capacity cast to `u16`, and what it writes is appended. */
  method RxBurst<T>(rxPkts: ArrayVec<T>, native: U16 -> seq<T>)
    requires rxPkts.Valid()
    requires forall n: U16 :: |native(n)| <= n
    modifies rxPkts
    ensures rxPkts.Valid()
    ensures rxPkts.items == old(rxPkts.items) + native(AsU16(old(rxPkts.RemainingCapacity())))
    ensures |rxPkts.items| <= old(|rxPkts.items|) + U16_MAX
  {
    var oldLen := |rxPkts.items|;
    var request := AsU16(rxPkts.RemainingCapacity());
    var received := native(request);
    rxPkts.items := rxPkts.items + received;
  }

  /** `tx_burst`: the native call takes the first `native(n)` of the `n`
      mbufs it is offered (`len() as u16`); those are drained from the array
      and forgotten rather than dropped, so nothing is freed: they are
      returned here as the mbufs the device now owns. The rest stay, in order. */
  method TxBurst<T>(txPkts: ArrayVec<T>, native: U16 -> nat) returns (sent: seq<T>)
    requires txPkts.Valid()
    requires forall n: U16 :: native(n) <= n
    modifies txPkts
    ensures txPkts.Valid()
    ensures var transmitted := native(AsU16(|old(txPkts.items)|));
      transmitted <= |old(txPkts.items)|
      && sent == old(txPkts.items)[..transmitted]
      && txPkts.items == old(txPkts.items)[transmitted..]
    ensures sent + txPkts.items == old(txPkts.items)
  {
    var transmitted := native(AsU16(|txPkts.items|));
    sent := txPkts.items[..transmitted];
    txPkts.items := txPkts.items[transmitted..];
  }

  /** One call of the closure in `for_each`: store `find_next_owned_by(next)`
      truncated to `u16`, yield it if it is a port id, and resume one past it. */
  function ForEachStep(findNext: U16 -> U64, next: U16): (Option<U16>, U16)
  {
    var found := AsU16(findNext(next));
    (if found < MAX_ETHPORTS then Some(found) else None, AsU16(found + 1))
  }

  /** The iterator `for_each` returns: its closure's captured `next_port_id`. */
  class PortIter {
    var nextPortId: U16

    constructor ()
      ensures nextPortId == 0
    {
      nextPortId := 0;
    }

    /** `next()` on the iterator; `findNext` stands for
        `rte_eth_find_next_owned_by(_, RTE_ETH_DEV_NO_OWNER)`. */
    method Next(findNext: U16 -> U64) returns (cur: Option<U16>)
      modifies this
      ensures (cur, nextPortId) == ForEachStep(findNext, old(nextPortId))
    {
      nextPortId := AsU16(findNext(nextPortId));
      cur := if nextPortId < MAX_ETHPORTS then Some(nextPortId) else None;
      nextPortId := AsU16(nextPortId + 1);
    }
  }

  /** The ports `next()` yields from state `next` before the first `None`,
      looking at most `fuel` steps ahead. */
  function ForEachPorts(findNext: U16 -> U64, next: U16, fuel: nat): seq<U16>
    decreases fuel
  {
    if fuel == 0 then []
    else
      var step := ForEachStep(findNext, next);
      if step.0.None? then [] else [step.0.value] + ForEachPorts(findNext, step.1, fuel - 1)
  }

  /** `ForEachPorts` is the sequence of `Some` results of successive `Next`
      calls: each step is one `ForEachStep`. */
  lemma ForEachPortsSteps(findNext: U16 -> U64, next: U16, fuel: nat)
    requires fuel > 0
    ensures ForEachStep(findNext, next).0.None? ==> ForEachPorts(findNext, next, fuel) == []
    ensures ForEachStep(findNext, next).0.Some? ==>
      ForEachPorts(findNext, next, fuel)
      == [ForEachStep(findNext, next).0.value] + ForEachPorts(findNext, ForEachStep(findNext, next).1, fuel - 1)
  {
  }

  /** One step of the walk: a found id below `RTE_MAX_ETHPORTS` is yielded
      and the walk resumes one past it; any other ends the walk. */
  lemma ForEachPortsUnfold(findNext: U16 -> U64, next: U16, fuel: nat, found: U16)
    requires fuel > 0 && findNext(next) == found
    ensures found < MAX_ETHPORTS ==> ForEachPorts(findNext, next, fuel) == [found] + ForEachPorts(findNext, found + 1, fuel - 1)
    ensures found >= MAX_ETHPORTS ==> ForEachPorts(findNext, next, fuel) == []
  {
  }

  /** What DPDK's `rte_eth_find_next_owned_by(port, NO_OWNER)` returns, for
      `free(j)` meaning "port j is attached and has no owner": the first such
      port at or after `port`, or `RTE_MAX_ETHPORTS`. */
  function FindNextOwnedBy(free: nat -> bool, port: U16): (r: U64)
    ensures r <= MAX_ETHPORTS
  {
    FirstFrom(free, port, MAX_ETHPORTS)
  }

  /** Driven by DPDK's search, `for_each` yields exactly the free ports from
      its state on, in ascending order, and then stops. */
  lemma {:induction false} ForEachYieldsFreePorts(findNext: U16 -> U64, free: nat -> bool, next: U16, fuel: nat)
    requires forall p: U16 :: p <= MAX_ETHPORTS ==> findNext(p) == FirstFrom(free, p, MAX_ETHPORTS)
    requires next <= MAX_ETHPORTS && fuel > MAX_ETHPORTS - next
    ensures ForEachPorts(findNext, next, fuel) == Filtered(free, next, MAX_ETHPORTS)
    decreases fuel
  {
    var f := FirstFrom(free, next, MAX_ETHPORTS);
    assert findNext(next) == f;
    if f < MAX_ETHPORTS {
      var after: U16 := f + 1;
      var fuelLeft := fuel - 1;
      var rest := ForEachPorts(findNext, after, fuelLeft);
      var tail := Filtered(free, after, MAX_ETHPORTS);
      assert ForEachPorts(findNext, next, fuel) == [f as U16] + rest by {
        ForEachPortsUnfold(findNext, next, fuel, f);
      }
      assert Filtered(free, next, MAX_ETHPORTS) == [f] + tail by {
        FilteredFromFirst(free, next, MAX_ETHPORTS);
      }
      assert rest == tail by {
        ForEachYieldsFreePorts(findNext, free, after, fuelLeft);
      }
    } else {
      assert Filtered(free, next, MAX_ETHPORTS) == [] by {
        FilteredFromFirst(free, next, MAX_ETHPORTS);
      }
      ForEachPortsUnfold(findNext, next, fuel, f);
    }
  }

  /** `foreach` (`ethdev.rs`): the ids in `0..RTE_MAX_ETHPORTS` that are valid
      and have no owner, in ascending order. */
  function Foreach(isValid: U16 -> bool, ownerOf: U16 -> U64): (r: seq<U16>)
    ensures forall p: U16 :: p in r <==> p < MAX_ETHPORTS && isValid(p) && ownerOf(p) == NO_OWNER
    ensures forall i, k :: 0 <= i < k < |r| ==> r[i] < r[k]
  {
    Filtered(FreePort(isValid, ownerOf), 0, MAX_ETHPORTS)
  }

  /** Valid and unowned, as `foreach` tests it. */
  function FreePort(isValid: U16 -> bool, ownerOf: U16 -> U64): nat -> bool
  {
    (j: nat) => j < MAX_ETHPORTS && isValid(j) && ownerOf(j) == NO_OWNER
  }

  /** The two revisions agree: the `for_each` state machine of `ethdev/mod.rs`,
      started at port 0, yields what the `foreach` filter of `ethdev.rs` does. */
  lemma ForEachMatchesForeach(isValid: U16 -> bool, ownerOf: U16 -> U64)
    ensures ForEachPorts((p: U16) => FindNextOwnedBy(FreePort(isValid, ownerOf), p), 0, MAX_ETHPORTS + 1)
      == Foreach(isValid, ownerOf)
  {
    var free := FreePort(isValid, ownerOf);
    ForEachYieldsFreePorts((p: U16) => FindNextOwnedBy(free, p), free, 0, MAX_ETHPORTS + 1);
  }

  /** The parts of `rte_eth_rxmode` / `rte_eth_txmode` the model keeps. */
  datatype EthRxMode = EthRxMode(mqMode: U32, mtu: U32, offloads: U64)
  datatype EthTxMode = EthTxMode(mqMode: U32, offloads: U64)

  /** Length of the RSS hash key an `EthRssConf` carries. */
  const RSS_KEY_LEN: U8 := 40

  /** `[u8; 40]`. */
  type RssKey = s: seq<U8> | |s| == RSS_KEY_LEN as int witness seq(40, _ => 0)

  datatype EthRssConf = EthRssConf(key: Option<RssKey>, hash: U64)
  datatype RxAdvConf = RxAdvConf(rssConf: Option<EthRssConf>)

  /** `EthConf`, the Rust-side device configuration. */
  datatype EthConf = EthConf(
    linkSpeeds: U32,
    rxmode: Option<EthRxMode>,
    txmode: Option<EthTxMode>,
    lpbkMode: U32,
    rxAdvConf: Option<RxAdvConf>,
    dcbCapabilityEn: U32)

  /** `rte_eth_conf` as `RawEthConf` builds it, starting from `Default`. */
  class RawEthConf {
    var linkSpeeds: U32
    var rxmode: EthRxMode
    var txmode: EthTxMode
    var lpbkMode: U32
    /** `rss_conf.rss_key`: null, or a pointer to a key. */
    var rssKey: Option<RssKey>
    var rssKeyLen: U8
    var rssHf: U64
    var dcbCapabilityEn: U32

    /** `Default::default()` of the bindgen struct: all zero. */
    constructor ()
      ensures linkSpeeds == 0 && lpbkMode == 0 && dcbCapabilityEn == 0
      ensures rxmode == EthRxMode(0, 0, 0) && txmode == EthTxMode(0, 0)
      ensures rssKey == None && rssKeyLen == 0 && rssHf == 0
    {
      linkSpeeds := 0;
      rxmode := EthRxMode(0, 0, 0);
      txmode := EthTxMode(0, 0);
      lpbkMode := 0;
      rssKey := None;
      rssKeyLen := 0;
      rssHf := 0;
      dcbCapabilityEn := 0;
    }
  }

  /** `RawEthConf::from(&EthConf)`: `rxmode` and `txmode` are copied when
      present; an RSS configuration sets the key (length 40, or a null key of
      length 0) and `rss_hf` to the hash bits. Nothing else is copied:
      `link_speeds`, `lpbk_mode` and `dcb_capability_en` keep their zero
      defaults. */
  method RawEthConfFrom(c: EthConf) returns (conf: RawEthConf)
    ensures fresh(conf)
    ensures conf.rxmode == (if c.rxmode.Some? then c.rxmode.value else EthRxMode(0, 0, 0))
    ensures conf.txmode == (if c.txmode.Some? then c.txmode.value else EthTxMode(0, 0))
    ensures c.rxAdvConf.Some? && c.rxAdvConf.value.rssConf.Some? ==>
      var rss := c.rxAdvConf.value.rssConf.value;
      conf.rssHf == rss.hash && conf.rssKey == rss.key
      && conf.rssKeyLen == (if rss.key.Some? then RSS_KEY_LEN else 0)
    ensures !(c.rxAdvConf.Some? && c.rxAdvConf.value.rssConf.Some?) ==>
      conf.rssHf == 0 && conf.rssKey == None && conf.rssKeyLen == 0
    ensures conf.linkSpeeds == 0 && conf.lpbkMode == 0 && conf.dcbCapabilityEn == 0
  {
    conf := new RawEthConf();
    if c.rxmode.Some? {
      conf.rxmode := c.rxmode.value;
    }
    if c.txmode.Some? {
      conf.txmode := c.txmode.value;
    }
    if c.rxAdvConf.Some? {
      var advConf := c.rxAdvConf.value;
      if advConf.rssConf.Some? {
        var rssConf := advConf.rssConf.value;
        conf.rssHf := rssConf.hash;
        match rssConf.key
        case None =>
          conf.rssKey := None;
          conf.rssKeyLen := 0;
        case Some(key) =>
          conf.rssKey := Some(key);
          conf.rssKeyLen := |key| as U8;
      }
    }
  }
}
