/** The `rte-build` crate's `bind` (`src/lib.rs`): the same classification
    as the `rte-sys` build script with its own ignore list, no
    de-duplication of dynamic libraries, a plain `static=` kind, and the
    generated `whole_archive_hack.rs`. `pkg-config` and the file system are
    native: the library list and link paths are parameters, and each printed
    or written line is an element of a result. */
module RteBuild {
  import opened Base
  import opened Strings
  import opened LinkLibs

  /** `IGNORED_STATIC_LIBS` of this crate. */
  const IGNORED_STATIC_LIBS: seq<string> := [
    "rte_baseband_acc100", "rte_baseband_fpga_5gnr_fec", "rte_baseband_fpga_lte_fec",
    "rte_baseband_null", "rte_baseband_turbo_sw", "rte_bus_dpaa",
    "rte_bus_fslmc", "rte_bus_ifpga", "rte_common_cpt",
    "rte_common_dpaax", "rte_common_iavf", "rte_common_octeontx",
    "rte_common_octeontx2", "rte_common_sfc_efx", "rte_compress_octeontx",
    "rte_crypto_bcmfs", "rte_crypto_caam_jr", "rte_crypto_ccp",
    "rte_crypto_dpaa_sec", "rte_crypto_dpaa2_sec", "rte_crypto_nitrox",
    "rte_crypto_octeontx", "rte_crypto_octeontx2", "rte_event_dpaa",
    "rte_event_dpaa2", "rte_event_dsw", "rte_event_octeontx",
    "rte_event_octeontx2", "rte_mempool_dpaa", "rte_mempool_dpaa2",
    "rte_mempool_octeontx", "rte_mempool_octeontx2", "rte_net_ark",
    "rte_net_atlantic", "rte_net_avp", "rte_net_axgbe",
    "rte_net_bnx2x", "rte_net_bnxt", "rte_net_bond",
    "rte_net_cxgbe", "rte_net_dpaa", "rte_net_dpaa2",
    "rte_net_ena", "rte_net_enetc", "rte_net_enic",
    "rte_net_failsafe", "rte_net_fm10k", "rte_net_hinic",
    "rte_net_hns3", "rte_net_i40e", "rte_net_iavf",
    "rte_net_ice", "rte_net_igc", "rte_net_liquidio",
    "rte_net_memif", "rte_net_nfp", "rte_net_octeontx",
    "rte_net_octeontx2", "rte_net_pfe", "rte_net_qede",
    "rte_net_sfc", "rte_net_thunderx", "rte_net_txgbe",
    "rte_raw_dpaa2_cmdif", "rte_raw_dpaa2_qdma", "rte_raw_octeontx2_dma",
    "rte_raw_octeontx2_ep", "rte_regex_octeontx2"
  ]

  const LINK_SEARCH: string := "cargo:rustc-link-search=native="
  const LINK_LIB: string := "cargo:rustc-link-lib="
  const STATIC_KIND: string := "static="
  const HACK_OPEN: string := "#[link(name = \""
  const HACK_CLOSE: string := "\", kind = \"static\")]"
  const EXTERN_BLOCK: string := "extern \"C\" {}"

  /** `Display for LibLink`: `cargo:rustc-link-lib=`, then `static=` for a
      static library, then the name. */
  function Display(l: LibLink): (s: string)
    ensures StripPrefix(s, LINK_LIB).Some?
    ensures IsStatic(l) ==> StripPrefix(StripPrefix(s, LINK_LIB).value, STATIC_KIND) == Some(l.name)
    ensures IsDynamic(l) ==> StripPrefix(s, LINK_LIB) == Some(l.name)
  {
    var kind := if IsStatic(l) then STATIC_KIND else "";
    assert LINK_LIB + kind + l.name == LINK_LIB + (kind + l.name);
    StripRoundTrip(LINK_LIB, kind + l.name);
    StripRoundTrip(STATIC_KIND, l.name);
    LINK_LIB + kind + l.name
  }

  /** The `#[link(..)]` attribute written for one static library. */
  function HackLine(name: string): (s: string)
    ensures StripPrefix(s, HACK_OPEN).Some? && StripSuffix(StripPrefix(s, HACK_OPEN).value, HACK_CLOSE) == Some(name)
  {
    assert HACK_OPEN + name + HACK_CLOSE == HACK_OPEN + (name + HACK_CLOSE);
    StripRoundTrip(HACK_OPEN, name + HACK_CLOSE);
    StripRoundTrip(HACK_CLOSE, name);
    HACK_OPEN + name + HACK_CLOSE
  }

  /** The dynamic libraries: all of them, whatever the static ones are. */
  function AllDynamic(libs: seq<string>): seq<LibLink>
  {
    Filter(Classified(libs), IsDynamic)
  }

  /** `bind` after the probe: the printed lines (a search line per link
      path, then the kept static libraries and all dynamic ones, each group
      in `pkg-config` order) and the lines of `whole_archive_hack.rs` (one
      `#[link]` per kept static library, in order, then `extern "C" {}`). */
  method Bind(libs: seq<string>, linkPaths: seq<string>) returns (lines: seq<string>, hack: seq<string>)
    ensures |lines| == |linkPaths| + |KeptStatic(libs, IGNORED_STATIC_LIBS)| + |AllDynamic(libs)|
    ensures forall i :: 0 <= i < |linkPaths| ==> lines[i] == LINK_SEARCH + linkPaths[i]
    ensures var links := KeptStatic(libs, IGNORED_STATIC_LIBS) + AllDynamic(libs);
      forall i :: 0 <= i < |links| ==> lines[|linkPaths| + i] == Display(links[i])
    ensures var kept := KeptStatic(libs, IGNORED_STATIC_LIBS);
      |hack| == |kept| + 1 && hack[|kept|] == EXTERN_BLOCK
      && forall i :: 0 <= i < |kept| ==> hack[i] == HackLine(kept[i].name)
  {
    lines, hack := BindWith(libs, linkPaths, IGNORED_STATIC_LIBS);
  }

  /** The steps of `bind` for an ignore list `ignored`. */
  method BindWith(libs: seq<string>, linkPaths: seq<string>, ignored: seq<string>) returns (lines: seq<string>, hack: seq<string>)
    ensures |lines| == |linkPaths| + |KeptStatic(libs, ignored)| + |AllDynamic(libs)|
    ensures forall i :: 0 <= i < |linkPaths| ==> lines[i] == LINK_SEARCH + linkPaths[i]
    ensures var links := KeptStatic(libs, ignored) + AllDynamic(libs);
      forall i :: 0 <= i < |links| ==> lines[|linkPaths| + i] == Display(links[i])
    ensures var kept := KeptStatic(libs, ignored);
      |hack| == |kept| + 1 && hack[|kept|] == EXTERN_BLOCK
      && forall i :: 0 <= i < |kept| ==> hack[i] == HackLine(kept[i].name)
  {
    lines := [];
    for i := 0 to |linkPaths|
      invariant |lines| == i && forall k :: 0 <= k < i ==> lines[k] == LINK_SEARCH + linkPaths[k]
    {
      lines := lines + [LINK_SEARCH + linkPaths[i]];
    }
    var parts := Partition(Classified(libs));
    var staticLibs, dynLibs := parts.0, parts.1;
    staticLibs := Filter(staticLibs, NotIgnored(ignored));
    RetainStatic(libs, ignored);
    lines := PrintLinks(lines, staticLibs + dynLibs);
    hack := WriteHack(staticLibs);
  }

  /** The `println!("{link}")` loop. */
  method PrintLinks(printed: seq<string>, links: seq<LibLink>) returns (lines: seq<string>)
    ensures |lines| == |printed| + |links| && lines[..|printed|] == printed
    ensures forall i :: 0 <= i < |links| ==> lines[|printed| + i] == Display(links[i])
  {
    lines := printed;
    for i := 0 to |links|
      invariant |lines| == |printed| + i && lines[..|printed|] == printed
      invariant forall k :: 0 <= k < i ==> lines[|printed| + k] == Display(links[k])
    {
      lines := lines + [Display(links[i])];
    }
  }

  /** The `writeln!` loop over the kept static libraries, then the closing
      `extern` block. */
  method WriteHack(staticLibs: seq<LibLink>) returns (file: seq<string>)
    ensures |file| == |staticLibs| + 1 && file[|staticLibs|] == EXTERN_BLOCK
    ensures forall i :: 0 <= i < |staticLibs| ==> file[i] == HackLine(staticLibs[i].name)
  {
    file := [];
    for i := 0 to |staticLibs|
      invariant |file| == i && forall k :: 0 <= k < i ==> file[k] == HackLine(staticLibs[k].name)
    {
      file := file + [HackLine(staticLibs[i].name)];
    }
    file := file + [EXTERN_BLOCK];
  }

  /** A static library is linked, and gets its `#[link]` line, exactly when
      its archive is listed and it is not ignored. */
  lemma StaticLinked(libs: seq<string>, name: string)
    ensures LibLink(name, Static) in KeptStatic(libs, IGNORED_STATIC_LIBS) <==>
      STATIC_PREFIX + name + STATIC_SUFFIX in libs && name !in IGNORED_STATIC_LIBS
  {
    KeptStaticIff(libs, IGNORED_STATIC_LIBS, name);
  }

  /** Every listed dynamic library is linked, even one whose name is also
      that of a kept static library. */
  lemma DynamicLinked(libs: seq<string>, name: string)
    ensures LibLink(name, Dynamic) in AllDynamic(libs) <==> name in libs && IsDynamic(Classify(name))
  {
    ClassifiedDynamicIff(libs, name);
  }
}
