/** String helpers shared by the extraction, file and controller models: trimming over a
    whitespace predicate, the two runtimes' whitespace sets, searching, decimal rendering,
    joining and the part of lower-casing that file-name tests depend on. */
module Text {
  import opened Base

  /** Every character of `s` satisfies `ws`. */
  ghost predicate AllWhitespace(s: string, ws: char -> bool) {
    forall i :: 0 <= i < |s| ==> ws(s[i])
  }

  /** `s` without its leading run of `ws` characters. */
  function TrimStart(s: string, ws: char -> bool): (r: string)
    ensures |r| <= |s| && r == s[|s| - |r|..]
    ensures forall i :: 0 <= i < |s| - |r| ==> ws(s[i])
    ensures |r| > 0 ==> !ws(r[0])
    decreases |s|
  {
    if |s| > 0 && ws(s[0]) then TrimStart(s[1..], ws) else s
  }

  /** `s` without its trailing run of `ws` characters. */
  function TrimEnd(s: string, ws: char -> bool): (r: string)
    ensures |r| <= |s| && r == s[..|r|]
    ensures forall i :: |r| <= i < |s| ==> ws(s[i])
    ensures |r| > 0 ==> !ws(r[|r| - 1])
    decreases |s|
  {
    if |s| > 0 && ws(s[|s| - 1]) then TrimEnd(s[..|s| - 1], ws) else s
  }

  /** JavaScript `String.prototype.trim` and Python `str.strip()`, each with its own
      whitespace predicate. */
  function Trim(s: string, ws: char -> bool): (r: string)
    ensures |r| <= |s|
    ensures r == [] || (!ws(r[0]) && !ws(r[|r| - 1]))
    ensures r == [] <==> AllWhitespace(s, ws)
  {
    TrimEnd(TrimStart(s, ws), ws)
  }

  /** Trimming only cuts whitespace off the two ends: the result is a slice of `s` with
      whitespace before and after it. */
  lemma TrimIsSlice(s: string, ws: char -> bool)
    ensures var r := Trim(s, ws);
      exists a :: 0 <= a <= |s| - |r| && r == s[a..a + |r|]
        && AllWhitespace(s[..a], ws) && AllWhitespace(s[a + |r|..], ws)
  {
    CutEnds(s, TrimStart(s, ws), Trim(s, ws), ws);
  }

  /** A prefix `r` of a suffix `t` of `s`, where everything before `t` and everything after `r`
      in `t` is whitespace, is a slice of `s` padded with whitespace. */
  lemma CutEnds(s: string, t: string, r: string, ws: char -> bool)
    requires |t| <= |s| && t == s[|s| - |t|..] && forall i :: 0 <= i < |s| - |t| ==> ws(s[i])
    requires |r| <= |t| && r == t[..|r|] && forall i :: |r| <= i < |t| ==> ws(t[i])
    ensures exists a :: (0 <= a <= |s| - |r| && r == s[a..a + |r|]
                         && AllWhitespace(s[..a], ws) && AllWhitespace(s[a + |r|..], ws))
  {
    var a := |s| - |t|;
    var pre := s[..a];
    assert forall i :: 0 <= i < |pre| ==> pre[i] == s[i];
    var post := s[a + |r|..];
    assert forall i :: 0 <= i < |post| ==> post[i] == t[|r| + i];
    assert r == s[a..a + |r|];
  }

  /** Trimming removes exactly the whitespace padding around a core that neither starts nor
      ends with whitespace. */
  lemma TrimPadded(pre: string, core: string, post: string, ws: char -> bool)
    requires AllWhitespace(pre, ws) && AllWhitespace(post, ws)
    requires core == [] || (!ws(core[0]) && !ws(core[|core| - 1]))
    ensures Trim(pre + core + post, ws) == core
  {
    var s := pre + core + post;
    if core == [] {
      assert AllWhitespace(s, ws) by {
        forall i | 0 <= i < |s| ensures ws(s[i]) {
          if i < |pre| { assert s[i] == pre[i]; } else { assert s[i] == post[i - |pre|]; }
        }
      }
    } else {
      assert s == pre + (core + post);
      TrimStartPadded(pre, core + post, ws);
      TrimEndPadded(core, post, ws);
    }
  }

  lemma {:induction false} TrimStartPadded(pre: string, rest: string, ws: char -> bool)
    requires AllWhitespace(pre, ws)
    requires rest == [] || !ws(rest[0])
    ensures TrimStart(pre + rest, ws) == (if AllWhitespace(rest, ws) then [] else rest)
    decreases |pre|
  {
    if pre != [] {
      assert (pre + rest)[1..] == pre[1..] + rest;
      TrimStartPadded(pre[1..], rest, ws);
    } else {
      assert pre + rest == rest;
    }
  }

  lemma {:induction false} TrimEndPadded(rest: string, post: string, ws: char -> bool)
    requires AllWhitespace(post, ws)
    requires rest == [] || !ws(rest[|rest| - 1])
    ensures TrimEnd(rest + post, ws) == rest
    decreases |post|
  {
    if post != [] {
      assert (rest + post)[..|rest + post| - 1] == rest + post[..|post| - 1];
      TrimEndPadded(rest, post[..|post| - 1], ws);
    } else {
      assert rest + post == rest;
    }
  }

  /** Characters removed by JavaScript `trim`: WhiteSpace (tab, vertical tab, form feed,
      space, no-break space, byte-order mark, category Zs) and LineTerminator. */
  predicate IsJsWhitespace(c: char) {
    || c == '\t' || c == '\n' || c == '\U{000B}' || c == '\U{000C}' || c == '\r'
    || c == ' ' || c == '\U{00A0}' || c == '\U{1680}'
    || ('\U{2000}' <= c <= '\U{200A}')
    || c == '\U{2028}' || c == '\U{2029}' || c == '\U{202F}' || c == '\U{205F}'
    || c == '\U{3000}' || c == '\U{FEFF}'
  }

  /** Characters removed by Python `str.strip()`: those for which `str.isspace()` holds. */
  predicate IsPyWhitespace(c: char) {
    || ('\t' <= c <= '\r') || ('\U{001C}' <= c <= '\U{001F}')
    || c == ' ' || c == '\U{0085}' || c == '\U{00A0}' || c == '\U{1680}'
    || ('\U{2000}' <= c <= '\U{200A}')
    || c == '\U{2028}' || c == '\U{2029}' || c == '\U{202F}' || c == '\U{205F}'
    || c == '\U{3000}'
  }

  /** Index of the first `c` in `s` at or after `from` (`indexOf` / `find`). */
  function IndexOfFrom(s: string, c: char, from: nat): (r: Option<nat>)
    ensures r.Some? ==> from <= r.value < |s| && s[r.value] == c
    ensures r.Some? ==> forall i :: from <= i < r.value ==> s[i] != c
    ensures r.None? ==> forall i :: from <= i < |s| ==> s[i] != c
    decreases |s| - from
  {
    if from >= |s| then None
    else if s[from] == c then Some(from)
    else IndexOfFrom(s, c, from + 1)
  }

  function IndexOf(s: string, c: char): (r: Option<nat>)
    ensures r.Some? ==> r.value < |s| && s[r.value] == c && forall i :: 0 <= i < r.value ==> s[i] != c
    ensures r.None? <==> c !in s
  {
    IndexOfFrom(s, c, 0)
  }

  predicate EndsWith(s: string, suffix: string) {
    |suffix| <= |s| && s[|s| - |suffix|..] == suffix
  }

  predicate StartsWith(s: string, prefix: string) {
    |prefix| <= |s| && s[..|prefix|] == prefix
  }

  predicate IsDigit(c: char) {
    '0' <= c <= '9'
  }

  /** The number a string of decimal digits denotes. */
  function DecimalValue(s: string): nat
    requires forall i :: 0 <= i < |s| ==> IsDigit(s[i])
  {
    if s == [] then 0
    else
      assert IsDigit(s[|s| - 1]);
      DecimalValue(s[..|s| - 1]) * 10 + (s[|s| - 1] as int - '0' as int)
  }

  /** The decimal rendering of `n`, as a template literal or `String` prints an integer. */
  function NatToDecimal(n: nat): (r: string)
    ensures |r| > 0 && forall i :: 0 <= i < |r| ==> IsDigit(r[i])
    ensures DecimalValue(r) == n
    ensures |r| > 1 ==> r[0] != '0'
  {
    var last := ('0' as int + n % 10) as char;
    if n < 10 then [last]
    else
      var prefix := NatToDecimal(n / 10);
      assert (prefix + [last])[..|prefix|] == prefix;
      prefix + [last]
  }

  /** The decimal rendering of an integer, with a leading minus sign when negative. */
  function IntToDecimal(n: int): (r: string)
    ensures |r| > 0
    ensures n >= 0 ==> r == NatToDecimal(n)
    ensures n < 0 ==> r[0] == '-' && r[1..] == NatToDecimal(-n)
  {
    if n >= 0 then NatToDecimal(n) else "-" + NatToDecimal(-n)
  }

  /** `items.join(sep)`: the items in order with `sep` between neighbours. */
  function Join(items: seq<string>, sep: string): (r: string)
    ensures items == [] ==> r == []
    ensures |items| == 1 ==> r == items[0]
  {
    if items == [] then []
    else if |items| == 1 then items[0]
    else Join(items[..|items| - 1], sep) + sep + items[|items| - 1]
  }

  /** The lower case JavaScript `toLowerCase` gives a character, for every character whose
      lower case is an ASCII character: the letters A-Z and the Kelvin sign U+212A. Other
      characters are kept; their lower case is never an ASCII character, so keeping them
      changes no comparison against an ASCII suffix. */
  function LowerChar(c: char): (r: char)
    ensures 'A' <= c <= 'Z' ==> 'a' <= r <= 'z' && r as int == c as int + 32
    ensures r != c ==> ('A' <= c <= 'Z' || c == '\U{212A}')
  {
    if 'A' <= c <= 'Z' then (c as int + 32) as char
    else if c == '\U{212A}' then 'k'
    else c
  }

  function Lower(s: string): (r: string)
    ensures |r| == |s| && forall i :: 0 <= i < |s| ==> r[i] == LowerChar(s[i])
  {
    seq(|s|, i requires 0 <= i < |s| => LowerChar(s[i]))
  }
}
