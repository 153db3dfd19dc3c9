/** Ethernet MAC addresses (the `mac-addr` crate): six octets, their
    `aa:bb:cc:dd:ee:ff` text form, and the parse back from text. */
module MacAddress {
  import opened Base
  import opened Digits

  /** `ETHER_ADDR_LEN`. */
  const ETHER_ADDR_LEN: U8 := 6

  /** `[u8; ETHER_ADDR_LEN]`. */
  type MacAddrBuf = s: seq<U8> | |s| == ETHER_ADDR_LEN as int witness [0, 0, 0, 0, 0, 0]

  datatype MacAddr = MacAddr(buf: MacAddrBuf)

  /** `AddrParseError`: "invalid MAC address syntax". */
  datatype AddrParseError = AddrParseError

  /** `MacAddr::octets`: the six bytes, in order. */
  function Octets(m: MacAddr): (o: MacAddrBuf)
  {
    m.buf
  }

  /** `MacAddr::new(a, b, c, d, e, f)`: the address `a:b:c:d:e:f`. */
  function New(a: U8, b: U8, c: U8, d: U8, e: U8, f: U8): (m: MacAddr)
    ensures Octets(m) == [a, b, c, d, e, f]
  {
    MacAddr([a, b, c, d, e, f])
  }

  /** `From<[u8; 6]> for MacAddr`. */
  function From(addr: MacAddrBuf): (m: MacAddr)
    ensures Octets(m) == addr
  {
    MacAddr(addr)
  }

  /** `octets` and `From` are inverse, and `new` is `From` of its arguments. */
  lemma OctetsFromRoundTrip(m: MacAddr, a: U8, b: U8, c: U8, d: U8, e: U8, f: U8)
    ensures From(Octets(m)) == m
    ensures New(a, b, c, d, e, f) == From([a, b, c, d, e, f])
  {
  }

  /** `MacAddr::from_bytes`: a slice converts exactly when it holds six bytes. */
  function FromBytes(b: seq<U8>): (r: Result<MacAddr, AddrParseError>)
    ensures r.Ok? <==> |b| == ETHER_ADDR_LEN as int
    ensures r.Ok? ==> Octets(r.value) == b
  {
    if |b| == ETHER_ADDR_LEN as int then Ok(MacAddr(b)) else Err(AddrParseError)
  }

  /** `MacAddr::zeroed` (`Default`). */
  function Zeroed(): (m: MacAddr)
    ensures forall i :: 0 <= i < 6 ==> Octets(m)[i] == 0
  {
    MacAddr([0, 0, 0, 0, 0, 0])
  }

  /** `is_zero`: equality with `zeroed()`, which holds exactly when every
      octet is zero. */
  function IsZero(m: MacAddr): (r: bool)
    ensures r <==> forall i :: 0 <= i < 6 ==> Octets(m)[i] == 0
  {
    assert m == Zeroed() <== forall i :: 0 <= i < 6 ==> Octets(m)[i] == 0 by {
      if forall i :: 0 <= i < 6 ==> Octets(m)[i] == 0 {
        assert Octets(m) == Octets(Zeroed());
      }
    }
    m == Zeroed()
  }

  /** `Display`: `{:02x}` of each octet, separated by `:`. */
  function ToString(m: MacAddr): (s: string)
    ensures |s| == 17
    ensures s == Join(Groups(m), ':')
  {
    var o := m.buf;
    JoinGroups(m);
    Hex2(o[0]) + ":" + Hex2(o[1]) + ":" + Hex2(o[2]) + ":" + Hex2(o[3]) + ":" + Hex2(o[4]) + ":" + Hex2(o[5])
  }

  /** `str::split(sep)`: the pieces between separators, including empty
      ones; a string without a separator is one piece. */
  function Split(s: string, sep: char): (parts: seq<string>)
    ensures |parts| >= 1
    decreases |s|
  {
    if |s| == 0 then [""]
    else if s[0] == sep then [""] + Split(s[1..], sep)
    else
      var rest := Split(s[1..], sep);
      [[s[0]] + rest[0]] + rest[1..]
  }

  /** The pieces joined back with the separator. */
  function Join(parts: seq<string>, sep: char): (s: string)
    requires |parts| >= 1
    decreases |parts|
  {
    if |parts| == 1 then parts[0] else parts[0] + [sep] + Join(parts[1..], sep)
  }

  /** `split` of a string by its first character. */
  lemma SplitCons(c: char, t: string, sep: char)
    ensures Split([c] + t, sep) == if c == sep then [""] + Split(t, sep)
      else [[c] + Split(t, sep)[0]] + Split(t, sep)[1..]
  {
    assert ([c] + t)[0] == c && ([c] + t)[1..] == t;
  }

  /** A first piece without the separator comes off whole. */
  lemma {:induction false} SplitPrefix(a: string, b: string, sep: char)
    requires forall i :: 0 <= i < |a| ==> a[i] != sep
    ensures Split(a + [sep] + b, sep) == [a] + Split(b, sep)
    decreases |a|
  {
    if |a| == 0 {
      assert a + [sep] + b == [sep] + b;
      SplitCons(sep, b, sep);
    } else {
      var c, t := a[0], a[1..] + [sep] + b;
      assert a + [sep] + b == [c] + t && a == [c] + a[1..];
      SplitCons(c, t, sep);
      SplitPrefix(a[1..], b, sep);
    }
  }

  /** A string without the separator is a single piece. */
  lemma {:induction false} SplitNoSeparator(a: string, sep: char)
    requires forall i :: 0 <= i < |a| ==> a[i] != sep
    ensures Split(a, sep) == [a]
    decreases |a|
  {
    if |a| > 0 {
      SplitNoSeparator(a[1..], sep);
      assert [a[0]] + a[1..] == a;
    }
  }

  /** `split` undoes `join` of pieces that do not contain the separator. */
  lemma {:induction false} SplitJoin(parts: seq<string>, sep: char)
    requires |parts| >= 1
    requires forall k, i :: 0 <= k < |parts| && 0 <= i < |parts[k]| ==> parts[k][i] != sep
    ensures Split(Join(parts, sep), sep) == parts
    decreases |parts|
  {
    if |parts| == 1 {
      SplitNoSeparator(parts[0], sep);
    } else {
      SplitJoin(parts[1..], sep);
      SplitPrefix(parts[0], Join(parts[1..], sep), sep);
      assert parts == [parts[0]] + parts[1..];
    }
  }

  /** After such joined pieces and one more separator, the rest is split
      on its own. */
  lemma {:induction false} SplitJoinThen(parts: seq<string>, rest: string, sep: char)
    requires |parts| >= 1
    requires forall k, i :: 0 <= k < |parts| && 0 <= i < |parts[k]| ==> parts[k][i] != sep
    ensures Split(Join(parts, sep) + [sep] + rest, sep) == parts + Split(rest, sep)
    decreases |parts|
  {
    if |parts| == 1 {
      SplitPrefix(parts[0], rest, sep);
    } else {
      var tail := Join(parts[1..], sep);
      SplitJoinThen(parts[1..], rest, sep);
      assert Join(parts, sep) + [sep] + rest == parts[0] + [sep] + (tail + [sep] + rest);
      SplitPrefix(parts[0], tail + [sep] + rest, sep);
      assert parts == [parts[0]] + parts[1..];
    }
  }

  /** `join` undoes `split`. */
  lemma {:induction false} JoinSplit(s: string, sep: char)
    ensures Join(Split(s, sep), sep) == s
    decreases |s|
  {
    if |s| > 0 {
      var rest := Split(s[1..], sep);
      JoinSplit(s[1..], sep);
      if s[0] != sep && |rest| > 1 {
        assert rest == [rest[0]] + rest[1..];
        assert ([[s[0]] + rest[0]] + rest[1..])[1..] == rest[1..];
      }
    }
  }

  /** `map(|part| u8::from_str_radix(part, 16))` collected into a
      `Result<Vec<u8>, _>`: every piece must parse. */
  function ParseOctets(parts: seq<string>): (r: Option<seq<U8>>)
    ensures r.Some? <==> forall k :: 0 <= k < |parts| ==> ParseUnsigned(parts[k], 16, U8_MAX).Some?
    ensures r.Some? ==> (|r.value| == |parts|
      && forall k :: 0 <= k < |parts| ==> r.value[k] == ParseUnsigned(parts[k], 16, U8_MAX).value)
    decreases |parts|
  {
    if |parts| == 0 then Some([])
    else
      match (ParseUnsigned(parts[0], 16, U8_MAX), ParseOctets(parts[1..]))
      case (Some(b), Some(rest)) => Some([b as U8] + rest)
      case _ => None
  }

  /** `FromStr for MacAddr`: split on `:`, parse every piece as a hex byte,
      then `from_bytes`, which wants exactly six of them. */
  function FromStr(s: string): (r: Result<MacAddr, AddrParseError>)
    ensures var parts := Split(s, ':');
      r.Ok? <==> |parts| == 6 && forall k :: 0 <= k < 6 ==> ParseUnsigned(parts[k], 16, U8_MAX).Some?
    ensures r.Ok? ==> forall k :: 0 <= k < 6 ==>
      Octets(r.value)[k] == ParseUnsigned(Split(s, ':')[k], 16, U8_MAX).value
  {
    match ParseOctets(Split(s, ':'))
    case None => Err(AddrParseError)
    case Some(bytes) => FromBytes(bytes)
  }

  /** The six hex groups of an address, as `Display` writes them. */
  function Groups(m: MacAddr): (g: seq<string>)
    ensures |g| == 6 && forall k :: 0 <= k < 6 ==> g[k] == Hex2(Octets(m)[k])
  {
    seq(6, k requires 0 <= k < 6 => Hex2(m.buf[k]))
  }

  /** The six groups joined with `:` are the groups one after the other, a
      `:` between each two. */
  lemma JoinGroups(m: MacAddr)
    ensures var o := Octets(m);
      Join(Groups(m), ':')
      == Hex2(o[0]) + ":" + Hex2(o[1]) + ":" + Hex2(o[2]) + ":" + Hex2(o[3]) + ":" + Hex2(o[4]) + ":" + Hex2(o[5])
  {
    var g := Groups(m);
    var o := Octets(m);
    calc {
      Join(g, ':');
      Hex2(o[0]) + ":" + Join(g[1..], ':');
      Hex2(o[0]) + ":" + Hex2(o[1]) + ":" + Join(g[2..], ':');
      { assert g[2..][1..] == g[3..]; }
      Hex2(o[0]) + ":" + Hex2(o[1]) + ":" + Hex2(o[2]) + ":" + Join(g[3..], ':');
      { assert g[3..][1..] == g[4..]; }
      Hex2(o[0]) + ":" + Hex2(o[1]) + ":" + Hex2(o[2]) + ":" + Hex2(o[3]) + ":" + Join(g[4..], ':');
      { assert g[4..][1..] == g[5..] && g[5..] == [Hex2(o[5])]; }
      Hex2(o[0]) + ":" + Hex2(o[1]) + ":" + Hex2(o[2]) + ":" + Hex2(o[3]) + ":" + Hex2(o[4]) + ":" + Hex2(o[5]);
    }
  }

  /** Parsing what `Display` printed gives the address back. */
  lemma ParseDisplayRoundTrip(m: MacAddr)
    ensures FromStr(ToString(m)) == Ok(m)
  {
    var g := Groups(m);
    SplitJoin(g, ':');
    forall k | 0 <= k < 6
      ensures ParseUnsigned(g[k], 16, U8_MAX) == Some(Octets(m)[k])
    {
      Hex2RoundTrip(Octets(m)[k]);
    }
    assert Octets(FromStr(ToString(m)).value) == Octets(m);
  }

  /** Text with a seventh group is rejected, whatever the group holds. */
  lemma ExtraGroupRejected(m: MacAddr, extra: string)
    ensures FromStr(ToString(m) + ":" + extra).Err?
  {
    var g := Groups(m);
    SplitJoinThen(g, extra, ':');
  }

  /** The octets of the crate's test address in `{:02x}` form. */
  lemma Hex2Example()
    ensures Hex2(0x18) == "18" && Hex2(0x2b) == "2b" && Hex2(0x3c) == "3c"
    ensures Hex2(0x4d) == "4d" && Hex2(0x5e) == "5e" && Hex2(0x6f) == "6f"
  {
  }

  /** The address of the crate's own test: its octets and its text form. */
  lemma DisplayExample()
    ensures Octets(New(0x18, 0x2b, 0x3c, 0x4d, 0x5e, 0x6f)) == [0x18, 0x2b, 0x3c, 0x4d, 0x5e, 0x6f]
    ensures ToString(New(0x18, 0x2b, 0x3c, 0x4d, 0x5e, 0x6f)) == "18:2b:3c:4d:5e:6f"
  {
    var m := New(0x18, 0x2b, 0x3c, 0x4d, 0x5e, 0x6f);
    var t := ToString(m);
    Hex2Example();
    assert t[..9] == "18:2b:3c:";
    assert t[9..] == "4d:5e:6f";
    assert t == t[..9] + t[9..];
  }

  /** The test's parse of that text, with and without a seventh group. */
  lemma ParseExample(text: string, longer: string)
    requires text == "18:2b:3c:4d:5e:6f" && longer == text + ":" + "XX"
    ensures FromStr(text) == Ok(New(0x18, 0x2b, 0x3c, 0x4d, 0x5e, 0x6f))
    ensures FromStr(longer).Err?
  {
    var m := New(0x18, 0x2b, 0x3c, 0x4d, 0x5e, 0x6f);
    DisplayExample();
    ParseDisplayRoundTrip(m);
    ExtraGroupRejected(m, "XX");
  }

  /** The test's address is not zero; `zeroed()` is. */
  lemma ZeroExample()
    ensures !IsZero(New(0x18, 0x2b, 0x3c, 0x4d, 0x5e, 0x6f)) && IsZero(Zeroed())
  {
  }
}
