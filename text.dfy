/** String operations used by the browser scripts and the MCP server:
    whitespace classes and trimming, substring search, literal global
    replacement, splitting on one character, ASCII lower-casing and the
    decimal rendering of natural numbers. */
module Text {

  /** ECMAScript WhiteSpace and LineTerminator code points: what
      `String.prototype.trim` strips and what the class `\s` matches. */
  predicate IsJsSpace(c: char) {
    c == '\t' || c == '\n' || c == '\U{000B}' || c == '\U{000C}' || c == '\r' || c == ' '
    || c == '\U{00A0}' || c == '\U{1680}' || ('\U{2000}' <= c <= '\U{200A}')
    || c == '\U{2028}' || c == '\U{2029}' || c == '\U{202F}' || c == '\U{205F}'
    || c == '\U{3000}' || c == '\U{FEFF}'
  }

  /** The characters for which Python's `str.isspace` holds: what
      `str.strip()` without arguments removes. */
  predicate IsPySpace(c: char) {
    ('\t' <= c <= '\r') || ('\U{001C}' <= c <= ' ') || c == '\U{0085}' || c == '\U{00A0}'
    || c == '\U{1680}' || ('\U{2000}' <= c <= '\U{200A}') || c == '\U{2028}' || c == '\U{2029}'
    || c == '\U{202F}' || c == '\U{205F}' || c == '\U{3000}'
  }

  predicate AllSpace(s: string, space: char -> bool) {
    forall i | 0 <= i < |s| :: space(s[i])
  }

  /** `s` without its leading run of `space` characters. */
  function TrimStart(s: string, space: char -> bool): (r: string)
    ensures |r| <= |s| && r == s[|s| - |r|..]
    ensures AllSpace(s[..|s| - |r|], space)
    ensures r == [] || !space(r[0])
  {
    if |s| > 0 && space(s[0]) then TrimStart(s[1..], space) else s
  }

  /** `s` without its trailing run of `space` characters. */
  function TrimEnd(s: string, space: char -> bool): (r: string)
    ensures |r| <= |s| && r == s[..|r|]
    ensures AllSpace(s[|r|..], space)
    ensures r == [] || !space(r[|r| - 1])
  {
    if |s| > 0 && space(s[|s| - 1]) then TrimEnd(s[..|s| - 1], space) else s
  }

  /** Both ends stripped: no space is left at either end, and the result is
      empty exactly when `s` is all space. */
  function Strip(s: string, space: char -> bool): (r: string)
    ensures r == [] || (!space(r[0]) && !space(r[|r| - 1]))
    ensures r == [] <==> AllSpace(s, space)
  {
    var t := TrimStart(s, space);
    var r := TrimEnd(t, space);
    assert r == [] ==> s == s[..|s| - |t|] + t[|r|..];
    r
  }

  /** The stripped text is the slice of `s` between two all-space runs. */
  lemma StripAt(s: string, space: char -> bool) returns (i: nat)
    ensures i + |Strip(s, space)| <= |s| && Strip(s, space) == s[i..i + |Strip(s, space)|]
    ensures AllSpace(s[..i], space) && AllSpace(s[i + |Strip(s, space)|..], space)
  {
    var t := TrimStart(s, space);
    var r := TrimEnd(t, space);
    assert Strip(s, space) == r;
    i := |s| - |t|;
    SliceFacts(s, t, r, space);
  }

  /** Where the stripped text sits in `s`. */
  lemma StripSlice(s: string, space: char -> bool) returns (i: nat)
    ensures i + |Strip(s, space)| <= |s| && Strip(s, space) == s[i..i + |Strip(s, space)|]
  {
    i := StripAt(s, space);
  }

  /** A trailing-trimmed part of a leading-trimmed text is a slice between
      two all-space runs. */
  lemma SliceFacts(s: string, t: string, r: string, space: char -> bool)
    requires |t| <= |s| && t == s[|s| - |t|..] && AllSpace(s[..|s| - |t|], space)
    requires |r| <= |t| && r == t[..|r|] && AllSpace(t[|r|..], space)
    ensures var i := |s| - |t|;
      && i + |r| <= |s| && r == s[i..i + |r|]
      && AllSpace(s[..i], space) && AllSpace(s[i + |r|..], space)
  {
    SliceOfSuffix(s, |s| - |t|, |r|);
  }

  /** Slicing a suffix of `s` is slicing `s` further on. */
  lemma SliceOfSuffix<T>(s: seq<T>, i: nat, k: nat)
    requires i + k <= |s|
    ensures s[i..][..k] == s[i..i + k] && s[i..][k..] == s[i + k..]
  {
  }

  /** Stripping a text followed by nothing but spaces leaves a part of
      the text: a character the text lacks is not in the result. */
  lemma StripPadded(text: string, pad: string, space: char -> bool, c: char)
    requires c !in text && AllSpace(pad, space)
    ensures c !in Strip(text + pad, space)
  {
    var i := StripSlice(text + pad, space);
    NotInTrimmedSlice(text, pad, space, c, Strip(text + pad, space), i);
  }

  /** A slice of a text followed by spaces that ends in a non-space lies
      in the text. */
  lemma NotInTrimmedSlice(text: string, pad: string, space: char -> bool, c: char, r: string, i: nat)
    requires c !in text && AllSpace(pad, space)
    requires i + |r| <= |text + pad| && r == (text + pad)[i..i + |r|]
    requires r == [] || !space(r[|r| - 1])
    ensures c !in r
  {
    if r != [] {
      NonSpaceInText(text, pad, space, i + |r| - 1);
      SliceInPrefix(text, pad, i, i + |r|);
      NotInSlice(text, i, i + |r|, c);
    }
  }

  /** A character that is not a space, in a text followed by spaces, lies
      in the text. */
  lemma NonSpaceInText(text: string, pad: string, space: char -> bool, k: nat)
    requires AllSpace(pad, space) && k < |text + pad| && !space((text + pad)[k])
    ensures k < |text|
  {
  }

  lemma SliceInPrefix<T>(s: seq<T>, t: seq<T>, i: nat, j: nat)
    requires i <= j <= |s|
    ensures (s + t)[i..j] == s[i..j]
  {
  }

  lemma NotInSlice<T>(s: seq<T>, a: nat, b: nat, x: T)
    requires a <= b <= |s| && x !in s
    ensures x !in s[a..b]
  {
  }

  /** JavaScript `s.trim()`. */
  function Trim(s: string): string {
    Strip(s, IsJsSpace)
  }

  /** `s.trim()` is falsy: the string holds nothing but whitespace. */
  predicate IsBlank(s: string) {
    AllSpace(s, IsJsSpace)
  }

  // ---------------------------------------------------------------- search

  predicate OccursAt(s: string, sub: string, i: nat) {
    i + |sub| <= |s| && s[i..i + |sub|] == sub
  }

  /** JavaScript `s.includes(sub)` and Python `sub in s`. */
  function Contains(s: string, sub: string): (b: bool)
    ensures b <==> exists i: nat :: OccursAt(s, sub, i)
    decreases |s|
  {
    if |sub| <= |s| && s[..|sub|] == sub then
      assert OccursAt(s, sub, 0);
      true
    else if |s| <= |sub| then
      assert forall i: nat :: !OccursAt(s, sub, i) by {
        forall i: nat ensures !OccursAt(s, sub, i) {
          if i == 0 {
          } else {
            assert i + |sub| > |s|;
          }
        }
      }
      false
    else
      var b := Contains(s[1..], sub);
      assert forall i: nat :: OccursAt(s[1..], sub, i) <==> OccursAt(s, sub, i + 1) by {
        forall i: nat ensures OccursAt(s[1..], sub, i) <==> OccursAt(s, sub, i + 1) {
          if i + |sub| <= |s| - 1 {
            assert s[1..][i..i + |sub|] == s[i + 1..i + 1 + |sub|];
          }
        }
      }
      assert b ==> exists i: nat :: OccursAt(s, sub, i) by {
        if b {
          var i: nat :| OccursAt(s[1..], sub, i);
          assert OccursAt(s, sub, i + 1);
        }
      }
      assert (exists i: nat :: OccursAt(s, sub, i)) ==> b by {
        if exists i: nat :: OccursAt(s, sub, i) {
          var i: nat :| OccursAt(s, sub, i);
          assert i != 0;
          assert OccursAt(s[1..], sub, i - 1);
        }
      }
      b
  }

  /** A string found in a prefix is found in the whole. */
  lemma {:induction false} ContainsAppend(s: string, t: string, sub: string)
    requires Contains(s, sub)
    ensures Contains(s + t, sub)
  {
    var i: nat :| OccursAt(s, sub, i);
    assert (s + t)[i..i + |sub|] == s[i..i + |sub|];
    assert OccursAt(s + t, sub, i);
  }

  /** JavaScript `s.replace(/pat/g, rep)` for a regular expression that is a
      plain literal: matches are found left to right, do not overlap, and
      each one is replaced by `rep`. What it does is stated by the two
      lemmas below it. */
  function ReplaceAll(s: string, pat: string, rep: string): string
    requires pat != []
    decreases |s|
  {
    if |s| < |pat| then s
    else if s[..|pat|] == pat then rep + ReplaceAll(s[|pat|..], pat, rep)
    else [s[0]] + ReplaceAll(s[1..], pat, rep)
  }

  /** A text without a match is left as it is. */
  lemma {:induction false} ReplaceAllNoMatch(s: string, pat: string, rep: string)
    requires pat != []
    requires !Contains(s, pat)
    ensures ReplaceAll(s, pat, rep) == s
    decreases |s|
  {
    if |s| >= |pat| {
      assert s[..|pat|] != pat by {
        assert s[0..|pat|] == s[..|pat|];
        assert !OccursAt(s, pat, 0);
      }
      ReplaceAllNoMatch(s[1..], pat, rep);
      assert [s[0]] + s[1..] == s;
    }
  }

  /** The leftmost match decides: the text before it is kept, the match is
      replaced, and the replacing goes on after the match. */
  lemma {:induction false} ReplaceAllAt(s: string, pat: string, rep: string, i: nat)
    requires pat != []
    requires OccursAt(s, pat, i)
    requires forall j: nat :: j < i ==> !OccursAt(s, pat, j)
    ensures ReplaceAll(s, pat, rep) == s[..i] + rep + ReplaceAll(s[i + |pat|..], pat, rep)
    decreases i
  {
    if i == 0 {
      ReplaceAllTake(s, pat, rep);
      EmptyPrefix(s[..i], rep, ReplaceAll(s[|pat|..], pat, rep));
    } else {
      NoEarlierMatch(s, pat, i);
      ReplaceAllAt(s[1..], pat, rep, i - 1);
      ReplaceAllAtStep(s, pat, rep, i);
    }
  }

  /** The step of the induction: a text whose leftmost match is not at the
      start keeps its first character and goes on in its tail. */
  lemma ReplaceAllAtStep(s: string, pat: string, rep: string, i: nat)
    requires pat != [] && 0 < i && OccursAt(s, pat, i) && !OccursAt(s, pat, 0)
    requires ReplaceAll(s[1..], pat, rep) == s[1..][..i - 1] + rep + ReplaceAll(s[1..][i - 1 + |pat|..], pat, rep)
    ensures ReplaceAll(s, pat, rep) == s[..i] + rep + ReplaceAll(s[i + |pat|..], pat, rep)
  {
    var tail := ReplaceAll(s[i + |pat|..], pat, rep);
    ReplaceAllSkip(s, pat, rep);
    SliceAfterCons(s, i, |pat|);
    ConsThree(s[0], s[1..][..i - 1], rep, tail, s[..i], ReplaceAll(s[1..], pat, rep), ReplaceAll(s, pat, rep));
  }

  lemma EmptyPrefix(p: string, rep: string, x: string)
    requires |p| == 0
    ensures p + rep + x == rep + x
  {
  }

  /** A match at the start is replaced. */
  lemma ReplaceAllTake(s: string, pat: string, rep: string)
    requires pat != [] && OccursAt(s, pat, 0)
    ensures ReplaceAll(s, pat, rep) == rep + ReplaceAll(s[|pat|..], pat, rep)
  {
    assert s[..|pat|] == s[0..|pat|];
  }

  /** No match at the start: the first character is kept. */
  lemma ReplaceAllSkip(s: string, pat: string, rep: string)
    requires pat != [] && |pat| <= |s| && !OccursAt(s, pat, 0)
    ensures ReplaceAll(s, pat, rep) == [s[0]] + ReplaceAll(s[1..], pat, rep)
  {
    assert s[0..|pat|] == s[..|pat|];
  }

  /** The matches of a tail are the later matches of the text. */
  lemma NoEarlierMatch(s: string, pat: string, i: nat)
    requires 0 < i && OccursAt(s, pat, i)
    requires forall j: nat :: j < i ==> !OccursAt(s, pat, j)
    ensures OccursAt(s[1..], pat, i - 1)
    ensures forall j: nat :: j < i - 1 ==> !OccursAt(s[1..], pat, j)
  {
    var t := s[1..];
    forall j: nat | j < i
      ensures OccursAt(t, pat, j) <==> OccursAt(s, pat, j + 1)
    {
    }
  }

  lemma SliceAfterCons(s: string, i: nat, n: nat)
    requires 0 < i && i + n <= |s|
    ensures s[1..][i - 1 + n..] == s[i + n..]
    ensures [s[0]] + s[1..][..i - 1] == s[..i]
  {
  }

  lemma ConsThree(c: char, a: string, b: string, d: string, p: string, y: string, x: string)
    requires p == [c] + a && y == a + b + d && x == [c] + y
    ensures x == p + b + d
  {
  }

  // ---------------------------------------------------------------- case

  function LowerChar(c: char): char {
    if 'A' <= c <= 'Z' then (c as int + 32) as char else c
  }

  /** `s.toLowerCase()` on the ASCII letters. */
  function ToLower(s: string): (r: string)
    ensures |r| == |s|
    ensures forall i :: 0 <= i < |s| ==> r[i] == LowerChar(s[i]) && !('A' <= r[i] <= 'Z')
  {
    seq(|s|, i requires 0 <= i < |s| => LowerChar(s[i]))
  }

  /** Lower-casing twice is lower-casing once. */
  lemma ToLowerIdempotent(s: string)
    ensures ToLower(ToLower(s)) == ToLower(s)
  {
    var t := ToLower(s);
    assert forall i :: 0 <= i < |t| ==> LowerChar(t[i]) == t[i];
  }

  // ---------------------------------------------------------------- split and join

  /** Occurrences of `c` in `s`. */
  function CountChar(s: string, c: char): nat {
    if s == [] then 0 else (if s[0] == c then 1 else 0) + CountChar(s[1..], c)
  }

  /** The pieces of `pieces` with `sep` between consecutive ones. */
  function Join(pieces: seq<string>, sep: string): string {
    if |pieces| == 0 then []
    else if |pieces| == 1 then pieces[0]
    else pieces[0] + sep + Join(pieces[1..], sep)
  }

  /** Python `s.split(c)` for a one-character separator: one piece more
      than there are separators, no piece holds the separator, and joining
      the pieces back with it gives `s`. */
  function SplitOn(s: string, c: char): (r: seq<string>)
    ensures |r| == CountChar(s, c) + 1
    ensures forall k :: 0 <= k < |r| ==> c !in r[k]
    ensures Join(r, [c]) == s
  {
    if s == [] then [[]]
    else
      var rest := SplitOn(s[1..], c);
      if s[0] == c then
        var r := [[]] + rest;
        assert r[1..] == rest;
        assert s == [c] + s[1..];
        r
      else
        var r := [[s[0]] + rest[0]] + rest[1..];
        assert s == [s[0]] + s[1..];
        assert Join(r, [c]) == s by {
          if |rest| > 1 {
            assert r[1..] == rest[1..];
          }
        }
        r
  }

  // ---------------------------------------------------------------- numbers

  function DigitChar(d: nat): (c: char)
    requires d < 10
    ensures '0' <= c <= '9'
  {
    ('0' as int + d) as char
  }

  predicate IsDigits(s: string) {
    forall i :: 0 <= i < |s| ==> '0' <= s[i] <= '9'
  }

  /** The decimal numeral JavaScript template literals and Python f-strings
      print for a non-negative integer. */
  function NatToString(n: nat): (r: string)
    ensures |r| > 0 && IsDigits(r)
    ensures |r| > 1 ==> r[0] != '0'
  {
    if n < 10 then [DigitChar(n)] else NatToString(n / 10) + [DigitChar(n % 10)]
  }

  /** The decimal numeral of an integer: a minus sign exactly when it is
      negative, then digits that read back as its magnitude. */
  function IntToString(n: int): (r: string)
    ensures (|r| > 0 && r[0] == '-') <==> n < 0
    ensures var d := if n < 0 then r[1..] else r; IsDigits(d) && ParseNat(d) == (if n < 0 then -n else n)
  {
    ParseNatToString(if n < 0 then -n else n);
    if n < 0 then
      var d := NatToString(-n);
      assert ("-" + d)[1..] == d;
      "-" + d
    else NatToString(n)
  }

  /** The value of a string of decimal digits. */
  function ParseNat(s: string): nat
    requires IsDigits(s)
  {
    if s == [] then 0 else 10 * ParseNat(s[..|s| - 1]) + (s[|s| - 1] as int - '0' as int)
  }

  /** Reading back a rendered number gives the number. */
  lemma {:induction false} ParseNatToString(n: nat)
    ensures ParseNat(NatToString(n)) == n
  {
    if n >= 10 {
      ParseNatToString(n / 10);
      var s := NatToString(n);
      assert s[..|s| - 1] == NatToString(n / 10);
    }
  }
}
