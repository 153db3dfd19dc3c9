/** `str::strip_prefix` and `str::strip_suffix`, on which the option-chained
    parsers of library names and thread ids are built, and the `{:?}` form of
    a `str`, which panic messages embed. */
module Strings {
  import opened Base

  /** `s.strip_prefix(p)`: the rest of `s` when it starts with `p`. */
  function StripPrefix(s: string, p: string): (r: Option<string>)
    ensures r.Some? <==> |p| <= |s| && s[..|p|] == p
    ensures r.Some? ==> p + r.value == s
  {
    if |p| <= |s| && s[..|p|] == p then
      assert p + s[|p|..] == s by { assert s == s[..|p|] + s[|p|..]; }
      Some(s[|p|..])
    else None
  }

  /** `s.strip_suffix(q)`: what comes before `q` when `s` ends with it. */
  function StripSuffix(s: string, q: string): (r: Option<string>)
    ensures r.Some? <==> |q| <= |s| && s[|s| - |q|..] == q
    ensures r.Some? ==> r.value + q == s
  {
    if |q| <= |s| && s[|s| - |q|..] == q then
      assert s[..|s| - |q|] + q == s by { assert s == s[..|s| - |q|] + s[|s| - |q|..]; }
      Some(s[..|s| - |q|])
    else None
  }

  /** Stripping what was put in front, or behind, gives the rest back. */
  lemma StripRoundTrip(p: string, rest: string)
    ensures StripPrefix(p + rest, p) == Some(rest)
    ensures StripSuffix(rest + p, p) == Some(rest)
  {
    assert (p + rest)[..|p|] == p;
    assert (rest + p)[|rest + p| - |p|..] == p;
  }

  /** The escape `{:?}` writes for one character of a `str`: a backslash
      before `"` and `\\`, the short escapes for tab, line feed, carriage
      return and NUL, and any other character as it is. */
  function EscapeChar(c: char): (e: string)
    ensures 1 <= |e| <= 2
    ensures |e| == 1 <==> e == [c] && c != '"' && c != '\\' && c != '\t' && c != '\n' && c != '\r' && c != '\0'
    ensures |e| == 2 ==> e[0] == '\\'
  {
    if c == '"' then "\\\""
    else if c == '\\' then "\\\\"
    else if c == '\t' then "\\t"
    else if c == '\n' then "\\n"
    else if c == '\r' then "\\r"
    else if c == '\0' then "\\0"
    else [c]
  }

  /** The characters of a `str` with each one escaped. */
  function Escaped(s: string): string
  {
    if |s| == 0 then "" else EscapeChar(s[0]) + Escaped(s[1..])
  }

  /** `{:?}` of a `str`: the escaped text between double quotes. */
  function StrDebug(s: string): (d: string)
    ensures |d| >= |s| + 2 && d[0] == '"' && d[|d| - 1] == '"'
    ensures Unescape(d[1..|d| - 1]) == Some(s)
  {
    EscapedLength(s);
    UnescapeEscaped(s);
    assert ("\"" + Escaped(s) + "\"")[1..|Escaped(s)| + 1] == Escaped(s);
    "\"" + Escaped(s) + "\""
  }

  /** Reading escaped text back: a backslash and the letter of a known escape
      give its character; a lone `"` or an unknown escape is rejected. */
  function Unescape(t: string): Option<string>
  {
    if |t| == 0 then Some("")
    else if t[0] == '"' then None
    else if t[0] == '\\' then
      if |t| < 2 then None
      else
        var c := t[1];
        var d := if c == '"' then Some('"') else if c == '\\' then Some('\\')
          else if c == 't' then Some('\t') else if c == 'n' then Some('\n')
          else if c == 'r' then Some('\r') else if c == '0' then Some('\0') else None;
        match (d, Unescape(t[2..])) {
          case (Some(x), Some(rest)) => Some([x] + rest)
          case _ => None
        }
    else
      match Unescape(t[1..]) {
        case Some(rest) => Some([t[0]] + rest)
        case None => None
      }
  }

  /** Escaping keeps the text at least as long as it was. */
  lemma {:induction false} EscapedLength(s: string)
    ensures |Escaped(s)| >= |s|
    decreases |s|
  {
    if |s| > 0 {
      EscapedLength(s[1..]);
    }
  }

  /** Unescaping what `{:?}` escaped gives the text back. */
  lemma {:induction false} UnescapeEscaped(s: string)
    ensures Unescape(Escaped(s)) == Some(s)
    decreases |s|
  {
    if |s| > 0 {
      var e := EscapeChar(s[0]);
      var rest := Escaped(s[1..]);
      UnescapeEscaped(s[1..]);
      assert Escaped(s) == e + rest;
      if |e| == 2 {
        assert (e + rest)[2..] == rest;
      } else {
        assert (e + rest)[1..] == rest;
      }
      assert [s[0]] + s[1..] == s;
    }
  }
}
