/** What the two DPDK build scripts do with `pkg-config`'s library list:
    each entry is classified as a static archive (`:lib<name>.a`) or a
    dynamic library, the list is partitioned into the two kinds, and
    `retain` drops entries while keeping the order of the rest. */
module LinkLibs {
  import opened Strings

  const STATIC_PREFIX: string := ":lib"
  const STATIC_SUFFIX: string := ".a"

  datatype LinkType = Static | Dynamic

  /** `LibLink`: a library name and how it is linked. */
  datatype LibLink = LibLink(name: string, linkType: LinkType)

  /** `LibLink::is_static`. */
  predicate IsStatic(l: LibLink)
  {
    l.linkType == Static
  }

  predicate IsDynamic(l: LibLink)
  {
    l.linkType == Dynamic
  }

  /** The `map` over `pkg.libs`: strip `:lib`, then `.a`; when both succeed
      the rest is a static library's name, otherwise the whole entry is a
      dynamic library's. */
  function Classify(lib: string): (l: LibLink)
    ensures IsStatic(l) <==> |lib| >= 6 && lib[..4] == STATIC_PREFIX && lib[|lib| - 2..] == STATIC_SUFFIX
    ensures IsStatic(l) ==> STATIC_PREFIX + l.name + STATIC_SUFFIX == lib
    ensures IsDynamic(l) ==> l.name == lib
  {
    match StripPrefix(lib, STATIC_PREFIX)
    case None => LibLink(lib, Dynamic)
    case Some(rest) =>
      assert rest == lib[4..];
      assert |rest| >= 2 ==> rest[|rest| - 2..] == lib[|lib| - 2..];
      match StripSuffix(rest, STATIC_SUFFIX)
      case None => LibLink(lib, Dynamic)
      case Some(name) => LibLink(name, Static)
  }

  /** Every name has exactly one archive entry that classifies as it. */
  lemma ClassifyArchive(name: string)
    ensures Classify(STATIC_PREFIX + name + STATIC_SUFFIX) == LibLink(name, Static)
  {
    var lib := STATIC_PREFIX + name + STATIC_SUFFIX;
    assert lib[..4] == STATIC_PREFIX && lib[|lib| - 2..] == STATIC_SUFFIX;
    assert lib == STATIC_PREFIX + (name + STATIC_SUFFIX);
    StripRoundTrip(STATIC_PREFIX, name + STATIC_SUFFIX);
    StripRoundTrip(STATIC_SUFFIX, name);
  }

  /** The classified list, entry by entry. */
  function Classified(libs: seq<string>): (links: seq<LibLink>)
    ensures |links| == |libs| && forall i :: 0 <= i < |libs| ==> links[i] == Classify(libs[i])
  {
    seq(|libs|, i requires 0 <= i < |libs| => Classify(libs[i]))
  }

  /** The entries of `s` that satisfy `p`, in their order in `s`. */
  function Filter(s: seq<LibLink>, p: LibLink -> bool): (r: seq<LibLink>)
    ensures |r| <= |s|
    ensures forall x :: x in r <==> x in s && p(x)
    decreases |s|
  {
    if |s| == 0 then [] else (if p(s[0]) then [s[0]] else []) + Filter(s[1..], p)
  }

  /** Filtering twice is filtering once by both conditions. */
  lemma {:induction false} FilterFilter(s: seq<LibLink>, p: LibLink -> bool, q: LibLink -> bool, both: LibLink -> bool)
    requires forall x :: both(x) == (p(x) && q(x))
    ensures Filter(Filter(s, p), q) == Filter(s, both)
    decreases |s|
  {
    if |s| > 0 {
      FilterFilter(s[1..], p, q, both);
      var rest := Filter(s[1..], p);
      var f := Filter(s, p);
      if p(s[0]) {
        assert f == [s[0]] + rest;
        assert f[0] == s[0] && f[1..] == rest;
        assert Filter(f, q) == (if q(s[0]) then [s[0]] else []) + Filter(rest, q);
      } else {
        assert f == rest;
      }
      assert Filter(s, both) == (if both(s[0]) then [s[0]] else []) + Filter(s[1..], both);
    }
  }

  /** `partition(LibLink::is_static)`: the static entries and the dynamic
      ones, each in input order. */
  function Partition(links: seq<LibLink>): (r: (seq<LibLink>, seq<LibLink>))
    ensures r.0 == Filter(links, IsStatic) && r.1 == Filter(links, IsDynamic)
    decreases |links|
  {
    if |links| == 0 then ([], [])
    else
      var rest := Partition(links[1..]);
      if IsStatic(links[0]) then ([links[0]] + rest.0, rest.1) else (rest.0, [links[0]] + rest.1)
  }

  /** The partition loses and invents nothing: together the two parts are a
      rearrangement of the input. */
  lemma {:induction false} PartitionCovers(links: seq<LibLink>)
    ensures |Partition(links).0| + |Partition(links).1| == |links|
    ensures multiset(Partition(links).0) + multiset(Partition(links).1) == multiset(links)
    decreases |links|
  {
    if |links| > 0 {
      PartitionCovers(links[1..]);
      assert links == [links[0]] + links[1..];
    }
  }

  /** The names of some links: the `HashSet` of static names. */
  function Names(links: seq<LibLink>): (names: set<string>)
    ensures forall x :: x in names <==> exists l :: l in links && l.name == x
  {
    set l | l in links :: l.name
  }

  /** The condition of `retain` against an ignore list. */
  function NotIgnored(ignored: seq<string>): LibLink -> bool
  {
    (l: LibLink) => l.name !in ignored
  }

  function StaticNotIgnored(ignored: seq<string>): LibLink -> bool
  {
    (l: LibLink) => IsStatic(l) && l.name !in ignored
  }

  /** The static entries that survive `retain` against an ignore list. */
  function KeptStatic(libs: seq<string>, ignored: seq<string>): seq<LibLink>
  {
    Filter(Classified(libs), StaticNotIgnored(ignored))
  }

  /** `retain` of the ignore list after `partition` keeps the same static
      entries. */
  lemma RetainStatic(libs: seq<string>, ignored: seq<string>)
    ensures Filter(Partition(Classified(libs)).0, NotIgnored(ignored)) == KeptStatic(libs, ignored)
  {
    FilterFilter(Classified(libs), IsStatic, NotIgnored(ignored), StaticNotIgnored(ignored));
  }

  /** A static library is kept exactly when its archive is listed and its
      name is not ignored. */
  lemma KeptStaticIff(libs: seq<string>, ignored: seq<string>, name: string)
    ensures LibLink(name, Static) in KeptStatic(libs, ignored) <==>
      STATIC_PREFIX + name + STATIC_SUFFIX in libs && name !in ignored
  {
    var links := Classified(libs);
    var lib := STATIC_PREFIX + name + STATIC_SUFFIX;
    ClassifyArchive(name);
    if LibLink(name, Static) in KeptStatic(libs, ignored) {
      var i :| 0 <= i < |links| && links[i] == LibLink(name, Static);
      assert libs[i] == lib;
    }
    if lib in libs && name !in ignored {
      var i :| 0 <= i < |libs| && libs[i] == lib;
      assert links[i] == LibLink(name, Static);
    }
  }

  /** Every kept link is static; the kept names are those of kept links. */
  lemma KeptStaticNames(libs: seq<string>, ignored: seq<string>, name: string)
    ensures forall l :: l in KeptStatic(libs, ignored) ==> IsStatic(l)
    ensures name in Names(KeptStatic(libs, ignored)) <==> LibLink(name, Static) in KeptStatic(libs, ignored)
  {
  }

  /** A dynamic link appears in the classified list exactly when its entry
      is listed and is not an archive. */
  lemma ClassifiedDynamicIff(libs: seq<string>, name: string)
    ensures LibLink(name, Dynamic) in Classified(libs) <==> name in libs && IsDynamic(Classify(name))
  {
    var links := Classified(libs);
    if LibLink(name, Dynamic) in links {
      var i :| 0 <= i < |links| && links[i] == LibLink(name, Dynamic);
      assert libs[i] == name;
    }
    if name in libs && IsDynamic(Classify(name)) {
      var i :| 0 <= i < |libs| && libs[i] == name;
      assert links[i] == LibLink(name, Dynamic);
    }
  }
}
