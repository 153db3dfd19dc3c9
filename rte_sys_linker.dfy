/** The `rte-sys` build script's link step (`build/linker.rs`): the
    `link_dpdk` output lines. `pkg-config` is native: its library list and
    link paths are parameters, and each printed line is an element of the
    result. */
module RteSysLinker {
  import opened Base
  import opened Strings
  import opened LinkLibs

  /** `IGNORED_STATIC_LIBS`: drivers that are never linked. */
  const IGNORED_STATIC_LIBS: seq<string> := [
    "rte_baseband_acc100", "rte_baseband_fpga_5gnr_fec", "rte_baseband_fpga_lte_fec",
    "rte_baseband_null", "rte_baseband_turbo_sw", "rte_bus_dpaa",
    "rte_bus_fslmc", "rte_bus_ifpga", "rte_common_cpt",
    "rte_common_dpaax", "rte_common_iavf", "rte_common_octeontx",
    "rte_common_octeontx2", "rte_common_sfc_efx", "rte_compress_octeontx",
    "rte_crypto_bcmfs", "rte_crypto_caam_jr", "rte_crypto_ccp",
    "rte_crypto_dpaa_sec", "rte_crypto_dpaa2_sec", "rte_crypto_nitrox",
    "rte_crypto_octeontx", "rte_crypto_octeontx2", "rte_dma_cnxk",
    "rte_dma_dpaa", "rte_dma_dpaa2", "rte_dma_hisilicon",
    "rte_dma_idxd", "rte_dma_ioat", "rte_event_dpaa",
    "rte_event_dpaa2", "rte_event_dsw", "rte_event_octeontx",
    "rte_event_octeontx2", "rte_mempool_dpaa", "rte_mempool_dpaa2",
    "rte_mempool_octeontx", "rte_mempool_octeontx2", "rte_net_ark",
    "rte_net_atlantic", "rte_net_avp", "rte_net_axgbe",
    "rte_net_bnx2x", "rte_net_bnxt", "rte_net_bond",
    "rte_net_cxgbe", "rte_net_dpaa", "rte_net_dpaa2",
    "rte_net_ena", "rte_net_enetc", "rte_net_enic",
    "rte_net_failsafe", "rte_net_fm10k", "rte_net_hinic",
    "rte_net_hns3", "rte_net_i40e", "rte_net_iavf",
    "rte_net_ice", "rte_net_igc", "rte_net_liquidio",
    "rte_net_memif", "rte_net_nfp", "rte_net_octeontx",
    "rte_net_octeontx2", "rte_net_pfe", "rte_net_qede",
    "rte_net_sfc", "rte_net_thunderx", "rte_net_txgbe",
    "rte_raw_dpaa2_cmdif", "rte_raw_dpaa2_qdma", "rte_raw_octeontx2_dma",
    "rte_raw_octeontx2_ep", "rte_regex_octeontx2", "rte_vdpa_sfc"
  ]

  const LINK_SEARCH: string := "cargo:rustc-link-search=native="
  const LINK_LIB: string := "cargo:rustc-link-lib="
  const WHOLE_ARCHIVE: string := "static:+whole-archive,-bundle="

  /** `Display for LibLink`: `cargo:rustc-link-lib=`, then the link
      modifiers for a static library, then the name. */
  function Display(l: LibLink): (s: string)
    ensures StripPrefix(s, LINK_LIB).Some?
    ensures IsStatic(l) ==> StripPrefix(StripPrefix(s, LINK_LIB).value, WHOLE_ARCHIVE) == Some(l.name)
    ensures IsDynamic(l) ==> StripPrefix(s, LINK_LIB) == Some(l.name)
  {
    var modifiers := if IsStatic(l) then WHOLE_ARCHIVE else "";
    assert LINK_LIB + modifiers + l.name == LINK_LIB + (modifiers + l.name);
    StripRoundTrip(LINK_LIB, modifiers + l.name);
    StripRoundTrip(WHOLE_ARCHIVE, l.name);
    LINK_LIB + modifiers + l.name
  }

  /** The dynamic libraries kept: those whose name is not also the name of
      a kept static library. */
  function KeptDynamic(libs: seq<string>, ignored: seq<string>): seq<LibLink>
  {
    Filter(Classified(libs), DynamicNotIn(Names(KeptStatic(libs, ignored))))
  }

  /** The condition of the de-duplicating `retain`. */
  function NotIn(names: set<string>): LibLink -> bool
  {
    (l: LibLink) => l.name !in names
  }

  function DynamicNotIn(names: set<string>): LibLink -> bool
  {
    (l: LibLink) => IsDynamic(l) && l.name !in names
  }

  /** `link_dpdk` after the probe: a search line per link path, then the
      kept static libraries and the kept dynamic ones, each group in the
      order `pkg-config` listed it. */
  method LinkDpdk(libs: seq<string>, linkPaths: seq<string>) returns (lines: seq<string>)
    ensures |lines| == |linkPaths| + |KeptStatic(libs, IGNORED_STATIC_LIBS)| + |KeptDynamic(libs, IGNORED_STATIC_LIBS)|
    ensures forall i :: 0 <= i < |linkPaths| ==> lines[i] == LINK_SEARCH + linkPaths[i]
    ensures var links := KeptStatic(libs, IGNORED_STATIC_LIBS) + KeptDynamic(libs, IGNORED_STATIC_LIBS);
      forall i :: 0 <= i < |links| ==> lines[|linkPaths| + i] == Display(links[i])
  {
    lines := LinkWith(libs, linkPaths, IGNORED_STATIC_LIBS);
  }

  /** The steps of `link_dpdk` for an ignore list `ignored`. */
  method LinkWith(libs: seq<string>, linkPaths: seq<string>, ignored: seq<string>) returns (lines: seq<string>)
    ensures |lines| == |linkPaths| + |KeptStatic(libs, ignored)| + |KeptDynamic(libs, ignored)|
    ensures forall i :: 0 <= i < |linkPaths| ==> lines[i] == LINK_SEARCH + linkPaths[i]
    ensures var links := KeptStatic(libs, ignored) + KeptDynamic(libs, ignored);
      forall i :: 0 <= i < |links| ==> lines[|linkPaths| + i] == Display(links[i])
  {
    lines := [];
    for i := 0 to |linkPaths|
      invariant |lines| == i && forall k :: 0 <= k < i ==> lines[k] == LINK_SEARCH + linkPaths[k]
    {
      lines := lines + [LINK_SEARCH + linkPaths[i]];
    }
    var parts := Partition(Classified(libs));
    var staticLibs, dynLibs := parts.0, parts.1;
    staticLibs := Filter(staticLibs, NotIgnored(ignored));
    RetainStatic(libs, ignored);
    var staticLibNames := Names(staticLibs);
    dynLibs := Filter(dynLibs, NotIn(staticLibNames));
    FilterFilter(Classified(libs), IsDynamic, NotIn(staticLibNames), DynamicNotIn(staticLibNames));
    lines := PrintLinks(lines, staticLibs + dynLibs);
  }

  /** The `println!("{link}")` loop: one line per link, after what was
      already printed. */
  method PrintLinks(printed: seq<string>, links: seq<LibLink>) returns (lines: seq<string>)
    ensures |lines| == |printed| + |links| && lines[..|printed|] == printed
    ensures forall i :: 0 <= i < |links| ==> lines[|printed| + i] == Display(links[i])
  {
    lines := printed;
    for i := 0 to |links|
      invariant |lines| == |printed| + i && lines[..|printed|] == printed
      invariant forall k :: 0 <= k < i ==> lines[|printed| + k] == Display(links[k])
    {
      lines := lines + [Display(links[i])];
    }
  }

  /** A static library is linked exactly when its archive is listed and it
      is not ignored. */
  lemma StaticLinked(libs: seq<string>, name: string)
    ensures LibLink(name, Static) in KeptStatic(libs, IGNORED_STATIC_LIBS) <==>
      STATIC_PREFIX + name + STATIC_SUFFIX in libs && name !in IGNORED_STATIC_LIBS
  {
    KeptStaticIff(libs, IGNORED_STATIC_LIBS, name);
  }

  /** A dynamic library is linked exactly when it is listed, is not an
      archive entry, and no kept static library has its name; the ignore
      list itself never removes a dynamic library. */
  lemma DynamicLinked(libs: seq<string>, name: string)
    ensures LibLink(name, Dynamic) in KeptDynamic(libs, IGNORED_STATIC_LIBS) <==>
      name in libs && IsDynamic(Classify(name))
      && !(STATIC_PREFIX + name + STATIC_SUFFIX in libs && name !in IGNORED_STATIC_LIBS)
  {
    ClassifiedDynamicIff(libs, name);
    KeptStaticIff(libs, IGNORED_STATIC_LIBS, name);
    KeptStaticNames(libs, IGNORED_STATIC_LIBS, name);
  }
}
